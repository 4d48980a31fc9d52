/**
 * The password rules of the authentication serializers: the advisory strength
 * score, the registration confirmation check and the password-history rule.
 */
module PasswordPolicy {

  // Character classes of the strength check's regular expressions.
  predicate IsAsciiUpper(c: char) { 'A' <= c <= 'Z' }
  predicate IsAsciiLower(c: char) { 'a' <= c <= 'z' }
  /** `\d`, narrowed to the ASCII digits. */
  predicate IsAsciiDigit(c: char) { '0' <= c <= '9' }

  /** The members of the character class `[!@#$%^&*(),.?":{}|<>]`. */
  const SpecialCharacters: string := "!@#$%^&*(),.?\":{}|<>"
  predicate IsSpecial(c: char) { c in SpecialCharacters }

  const MinLength: nat := 8

  /** One strength criterion. */
  datatype Criterion = LongEnough | Uppercase | Lowercase | Digit | Special

  /** Whether `password` meets `c`; each character test is a `re.search` anywhere in the string. */
  predicate Holds(c: Criterion, password: string) {
    match c
    case LongEnough => |password| >= MinLength
    case Uppercase => exists i | 0 <= i < |password| :: IsAsciiUpper(password[i])
    case Lowercase => exists i | 0 <= i < |password| :: IsAsciiLower(password[i])
    case Digit => exists i | 0 <= i < |password| :: IsAsciiDigit(password[i])
    case Special => exists i | 0 <= i < |password| :: IsSpecial(password[i])
  }

  /** Every criterion once, in the order the feedback messages are appended. */
  const FeedbackOrder: seq<Criterion> := [Uppercase, Lowercase, Digit, Special, LongEnough]

  /** The feedback message for an unmet criterion. */
  function Advice(c: Criterion): string {
    match c
    case Uppercase => "Add uppercase letters"
    case Lowercase => "Add lowercase letters"
    case Digit => "Add numbers"
    case Special => "Add special characters"
    case LongEnough => "Use at least 8 characters"
  }

  /** How many of `cs` the password meets. */
  function CountMet(cs: seq<Criterion>, password: string): nat
    ensures CountMet(cs, password) <= |cs|
  {
    if cs == [] then 0 else (if Holds(cs[0], password) then 1 else 0) + CountMet(cs[1..], password)
  }

  /** The advice for `c` when the password does not meet it, and nothing otherwise. */
  function AdviceIfUnmet(c: Criterion, password: string): seq<string> {
    if Holds(c, password) then [] else [Advice(c)]
  }

  /** The advice for each of `cs` that the password does not meet, in the order of `cs`. */
  function AdviceFor(cs: seq<Criterion>, password: string): (r: seq<string>)
    ensures |r| == |cs| - CountMet(cs, password)
  {
    if cs == [] then [] else AdviceIfUnmet(cs[0], password) + AdviceFor(cs[1..], password)
  }

  /** The score: the number of the five criteria that `password` meets. */
  function Score(password: string): nat {
    CountMet(FeedbackOrder, password)
  }

  datatype Level = Weak | Medium | Strong

  /** The level bands of the strength check. */
  function LevelOf(score: nat): (l: Level)
    ensures l == Weak <==> score <= 2
    ensures l == Medium <==> 3 <= score <= 4
    ensures l == Strong <==> score >= 5
  {
    if score <= 2 then Weak else if score <= 4 then Medium else Strong
  }

  /** The dictionary `PasswordStrengthSerializer.validate_password` returns. */
  datatype StrengthReport = StrengthReport(
    score: nat, feedback: seq<string>,
    hasUppercase: bool, hasLowercase: bool, hasDigit: bool, hasSpecial: bool,
    length: nat, level: Level)

  /**
   * `validate_password`: compute the class flags, add one point per criterion met,
   * append one message per criterion unmet, then band the score.
   */
  method CheckStrength(value: string) returns (r: StrengthReport)
    ensures r.hasUppercase == Holds(Uppercase, value) && r.hasLowercase == Holds(Lowercase, value)
    ensures r.hasDigit == Holds(Digit, value) && r.hasSpecial == Holds(Special, value)
    ensures r.length == |value|
    ensures r.score == Score(value) && r.score <= 5
    ensures r.feedback == AdviceFor(FeedbackOrder, value)
    ensures |r.feedback| == 5 - r.score
    ensures r.level == LevelOf(r.score)
    ensures r.level == Strong <==> r.feedback == []
  {
    var hasUpper := Holds(Uppercase, value);
    var hasLower := Holds(Lowercase, value);
    var hasDigit := Holds(Digit, value);
    var hasSpecial := Holds(Special, value);
    var length := |value|;
    var score: nat := 0;
    var feedback: seq<string> := [];
    if length >= MinLength { score := score + 1; }
    if hasUpper { score := score + 1; }
    if hasLower { score := score + 1; }
    if hasDigit { score := score + 1; }
    if hasSpecial { score := score + 1; }
    if !hasUpper { feedback := feedback + [Advice(Uppercase)]; }
    assert feedback == AdviceIfUnmet(Uppercase, value);
    if !hasLower { feedback := feedback + [Advice(Lowercase)]; }
    assert feedback == AdviceIfUnmet(Uppercase, value) + AdviceIfUnmet(Lowercase, value);
    if !hasDigit { feedback := feedback + [Advice(Digit)]; }
    assert feedback == AdviceIfUnmet(Uppercase, value) + AdviceIfUnmet(Lowercase, value) + AdviceIfUnmet(Digit, value);
    if !hasSpecial { feedback := feedback + [Advice(Special)]; }
    assert feedback == AdviceIfUnmet(Uppercase, value) + AdviceIfUnmet(Lowercase, value) + AdviceIfUnmet(Digit, value)
                       + AdviceIfUnmet(Special, value);
    if length < MinLength { feedback := feedback + [Advice(LongEnough)]; }
    var level := if score <= 2 then Weak else if score <= 4 then Medium else Strong;
    ScoreUnfolds(value);
    AdviceUnfolds(value);
    r := StrengthReport(score, feedback, hasUpper, hasLower, hasDigit, hasSpecial, length, level);
  }

  /** The score, spelled out criterion by criterion. */
  lemma {:induction false} ScoreUnfolds(p: string)
    ensures Score(p) ==
      (if Holds(Uppercase, p) then 1 else 0) + (if Holds(Lowercase, p) then 1 else 0)
      + (if Holds(Digit, p) then 1 else 0) + (if Holds(Special, p) then 1 else 0)
      + (if Holds(LongEnough, p) then 1 else 0)
  {
    var c1 := [Lowercase, Digit, Special, LongEnough];
    var c2 := [Digit, Special, LongEnough];
    var c3 := [Special, LongEnough];
    var c4 := [LongEnough];
    assert FeedbackOrder[1..] == c1 && c1[1..] == c2 && c2[1..] == c3 && c3[1..] == c4 && c4[1..] == [];
    assert CountMet(c4, p) == (if Holds(LongEnough, p) then 1 else 0) + CountMet([], p);
    assert CountMet(c3, p) == (if Holds(Special, p) then 1 else 0) + CountMet(c4, p);
    assert CountMet(c2, p) == (if Holds(Digit, p) then 1 else 0) + CountMet(c3, p);
    assert CountMet(c1, p) == (if Holds(Lowercase, p) then 1 else 0) + CountMet(c2, p);
    assert CountMet(FeedbackOrder, p) == (if Holds(Uppercase, p) then 1 else 0) + CountMet(c1, p);
  }

  /** The advice list, spelled out in its fixed order. */
  lemma {:induction false} AdviceUnfolds(p: string)
    ensures AdviceFor(FeedbackOrder, p) ==
      AdviceIfUnmet(Uppercase, p) + AdviceIfUnmet(Lowercase, p) + AdviceIfUnmet(Digit, p)
      + AdviceIfUnmet(Special, p) + AdviceIfUnmet(LongEnough, p)
  {
    var c1 := [Lowercase, Digit, Special, LongEnough];
    var c2 := [Digit, Special, LongEnough];
    var c3 := [Special, LongEnough];
    var c4 := [LongEnough];
    assert FeedbackOrder[1..] == c1 && c1[1..] == c2 && c2[1..] == c3 && c3[1..] == c4 && c4[1..] == [];
    var a0, a1, a2, a3, a4 :=
      AdviceIfUnmet(Uppercase, p), AdviceIfUnmet(Lowercase, p), AdviceIfUnmet(Digit, p),
      AdviceIfUnmet(Special, p), AdviceIfUnmet(LongEnough, p);
    assert AdviceFor(c4, p) == a4 + AdviceFor([], p) == a4;
    assert AdviceFor(c3, p) == a3 + AdviceFor(c4, p);
    assert AdviceFor(c2, p) == a2 + AdviceFor(c3, p);
    assert AdviceFor(c1, p) == a1 + AdviceFor(c2, p);
    assert AdviceFor(FeedbackOrder, p) == a0 + AdviceFor(c1, p);
    assert a0 + (a1 + (a2 + (a3 + a4))) == a0 + a1 + a2 + a3 + a4;
  }

  /** A message appears in the feedback exactly when its criterion is unmet. */
  lemma {:induction false} AdviceNamesUnmet(p: string, c: Criterion)
    ensures Advice(c) in AdviceFor(FeedbackOrder, p) <==> !Holds(c, p)
  {
    AdviceUnfolds(p);
  }

  /** A password with all five classes and length at least 8 is strong with no advice. */
  lemma StrongExample()
    ensures Score("Tr0ub4dor&3") == 5 && LevelOf(Score("Tr0ub4dor&3")) == Strong
  {
    var p := "Tr0ub4dor&3";
    assert Holds(Uppercase, p) by { assert IsAsciiUpper(p[0]); }
    assert Holds(Lowercase, p) by { assert IsAsciiLower(p[1]); }
    assert Holds(Digit, p) by { assert IsAsciiDigit(p[2]); }
    assert Holds(Special, p) by { assert IsSpecial(p[9]); }
    assert Holds(LongEnough, p);
    ScoreUnfolds(p);
  }

  // ---- registration --------------------------------------------------------

  /** Field errors keyed by field name, as DRF reports them. */
  type Errors = map<string, string>

  /** `UserRegistrationSerializer.validate`: the two password entries must be equal. */
  function CheckConfirmation(password: string, password2: string): (errors: Errors)
    ensures errors == map[] <==> password == password2
    ensures errors != map[] ==> errors.Keys == {"password"}
  {
    if password != password2 then
      var errors := map["password" := "Password fields didn't match."];
      assert "password" in errors;
      errors
    else map[]
  }

  // ---- password history ----------------------------------------------------

  /** How many rows of the password history the change check looks at: the `[:5]` slice. */
  const HistoryDepth: nat := 5

  /** A hash of `candidate` is among the first `HistoryDepth` history rows. */
  ghost predicate MatchesRecent(candidate: string, history: seq<string>, matches: (string, string) -> bool) {
    exists i | 0 <= i < |history| && i < HistoryDepth :: matches(candidate, history[i])
  }

  /**
   * The history loop of `ChangePasswordSerializer.validate_new_password`: take at most
   * five rows and reject as soon as `check_password` accepts one of them. Password
   * hashing is the abstract `matches(password, hash)`.
   */
  method IsFreshPassword(candidate: string, history: seq<string>, matches: (string, string) -> bool)
    returns (unused: bool)
    ensures unused <==> !MatchesRecent(candidate, history, matches)
  {
    var recent := if |history| <= HistoryDepth then history else history[..HistoryDepth];
    var i := 0;
    while i < |recent|
      invariant 0 <= i <= |recent|
      invariant forall j | 0 <= j < i :: !matches(candidate, recent[j])
    {
      if matches(candidate, recent[i]) {
        assert recent[i] == history[i];
        return false;
      }
      i := i + 1;
    }
    return true;
  }
}
