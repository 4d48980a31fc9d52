/**
 * The user directory of the authentication app: the login lockout state machine,
 * registration, password change with history, and the profile serializer's
 * writable fields. Time is integer seconds; password hashing is the abstract
 * relation `matches(password, hash)`; Django's `authenticate` is the abstract
 * `authenticate(password, hash)`, asked only about an existing account's stored
 * hash, so the lockout counters play no part in it.
 */
module Accounts {
  import opened Wrappers
  import opened Permissions
  import opened Logs
  import PasswordPolicy

  /** A `User` row, with the lockout fields the login view maintains. */
  datatype Account = Account(
    id: nat, username: string, email: string, firstName: string, lastName: string, phone: string,
    role: Role, passwordHash: string, failedLoginAttempts: int, lockedUntil: Option<int>)
  {
    function AsUser(): User { User(id, username, role) }
  }

  /** Failed attempts that lock an account. */
  const MaxFailedAttempts: int := 5
  /** Length of a lock: `timedelta(minutes=30)`. */
  const LockSeconds: int := 30 * 60

  /** The access and refresh tokens `RefreshToken.for_user` issues. */
  datatype TokenPair = TokenPair(access: string, refresh: string)

  datatype LoginRequest = LoginRequest(username: Option<string>, password: Option<string>)

  /** The six responses of the login view. */
  datatype LoginResponse =
    | MissingCredentials
      /** Already locked: the unlock time and the time left, split into minutes and seconds. */
    | StillLocked(lockedUntil: int, minutesRemaining: int, secondsRemaining: int)
    | LoggedIn(account: Account, tokens: TokenPair)
      /** Locked by this attempt: only the attempt count is reported. */
    | LockedOut(attempts: int)
    | WrongPassword(attemptsRemaining: int)
    | InvalidCredentials
  {
    function Status(): int {
      match this
      case MissingCredentials => 400
      case StillLocked(_, _, _) => 403
      case LoggedIn(_, _) => 200
      case LockedOut(_) => 403
      case WrongPassword(_) => 401
      case InvalidCredentials => 401
    }

    /** The `locked: true` flag of the payload. */
    predicate Locked() { StillLocked? || LockedOut? }
  }

  /** The new user table, the response, and the activity rows one login writes. */
  datatype LoginResult = LoginResult(response: LoginResponse, accounts: map<string, Account>, logged: seq<LogEntry>)

  predicate IsLocked(a: Account, now: int) {
    a.lockedUntil.Some? && a.lockedUntil.value > now
  }

  /** The account fields other than the lockout counters are the same. */
  predicate SameIdentity(a: Account, b: Account) {
    && a.id == b.id && a.username == b.username && a.email == b.email && a.firstName == b.firstName
    && a.lastName == b.lastName && a.phone == b.phone && a.role == b.role && a.passwordHash == b.passwordHash
  }

  /**
   * The login view as a function of the user table. The two tables it reads
   * (`user_check` and, after a failed `authenticate`, `user_obj`) are the same row,
   * so a failed attempt sees the row as the expiry step left it.
   */
  function LoginStep(
    accounts: map<string, Account>, req: LoginRequest, now: int, ip: Option<string>,
    authenticate: (string, string) -> bool, mint: Account -> TokenPair): (r: LoginResult)
    ensures r.accounts.Keys == accounts.Keys
    ensures forall n | n in accounts :: SameIdentity(r.accounts[n], accounts[n])
    ensures forall n | n in accounts && !(req.username == Some(n)) :: r.accounts[n] == accounts[n]
  {
    if !Provided(req.username) || !Provided(req.password) then
      LoginResult(MissingCredentials, accounts, [])
    else
      var name, password := req.username.value, req.password.value;
      if name in accounts && IsLocked(accounts[name], now) then
        var until := accounts[name].lockedUntil.value;
        LoginResult(StillLocked(until, (until - now) / 60, (until - now) % 60), accounts,
                    [LogEntry(Some(accounts[name].id), "Login Attempt - Account Locked", ip)])
      else
        AttemptStep(ExpireLock(accounts, name), name, password, now, ip, authenticate, mint)
  }

  /** Lift an expired lock: clear `locked_until` and restart the counter. */
  function ExpireLock(accounts: map<string, Account>, name: string): (r: map<string, Account>)
    ensures r.Keys == accounts.Keys
    ensures forall n | n in accounts :: SameIdentity(r[n], accounts[n])
    ensures forall n | n in accounts && n != name :: r[n] == accounts[n]
  {
    if name in accounts && accounts[name].lockedUntil.Some?
    then accounts[name := accounts[name].(lockedUntil := None, failedLoginAttempts := 0)]
    else accounts
  }

  /** The attempt proper, on a table whose row for `name` (if any) is not locked. */
  function AttemptStep(
    accounts: map<string, Account>, name: string, password: string, now: int, ip: Option<string>,
    authenticate: (string, string) -> bool, mint: Account -> TokenPair): (r: LoginResult)
    ensures r.accounts.Keys == accounts.Keys
    ensures forall n | n in accounts :: SameIdentity(r.accounts[n], accounts[n])
    ensures forall n | n in accounts && n != name :: r.accounts[n] == accounts[n]
  {
    if name !in accounts then
      LoginResult(InvalidCredentials, accounts, [LogEntry(None, "Login Attempt - Unknown Username", ip)])
    else
      var a := accounts[name];
      if authenticate(password, a.passwordHash) then
        var a' := a.(failedLoginAttempts := 0, lockedUntil := None);
        LoginResult(LoggedIn(a', mint(a')), accounts[name := a'], [LogEntry(Some(a.id), "User Login - Success", ip)])
      else
        var failures := a.failedLoginAttempts + 1;
        if failures >= MaxFailedAttempts then
          var a' := a.(failedLoginAttempts := failures, lockedUntil := Some(now + LockSeconds));
          LoginResult(LockedOut(failures), accounts[name := a'],
                      [LogEntry(Some(a.id), "Account Locked - Too Many Failed Attempts", ip)])
        else
          var a' := a.(failedLoginAttempts := failures);
          LoginResult(WrongPassword(MaxFailedAttempts - failures), accounts[name := a'],
                      [LogEntry(Some(a.id), "User Login - Failed", ip)])
  }

  /** The lockout counters of a reachable account: below the limit and unlocked, or at it and locked. */
  predicate LockoutConsistent(a: Account) {
    0 <= a.failedLoginAttempts <= MaxFailedAttempts
    && (a.lockedUntil.Some? <==> a.failedLoginAttempts == MaxFailedAttempts)
  }

  /** Usernames are the table's keys, ids are below `nextId` and no two accounts share one. */
  ghost predicate TableValid(accounts: map<string, Account>, nextId: nat) {
    && (forall n | n in accounts :: accounts[n].username == n && accounts[n].id < nextId)
    && (forall n, m | n in accounts && m in accounts && n != m :: accounts[n].id != accounts[m].id)
  }

  /** Replacing rows by rows with the same identity keeps the table valid. */
  lemma {:induction false} SameIdentityKeepsTable(before: map<string, Account>, after: map<string, Account>, nextId: nat)
    requires TableValid(before, nextId)
    requires after.Keys == before.Keys
    requires forall n | n in before :: SameIdentity(after[n], before[n])
    ensures TableValid(after, nextId)
  {
  }

  // ---- the login state machine, property by property ----------------------

  /** A missing or empty username or password: 400, and nothing is read, written or logged. */
  lemma MissingCredentialsChangeNothing(
    accounts: map<string, Account>, req: LoginRequest, now: int, ip: Option<string>,
    authenticate: (string, string) -> bool, mint: Account -> TokenPair)
    requires !Provided(req.username) || !Provided(req.password)
    ensures var r := LoginStep(accounts, req, now, ip, authenticate, mint);
      r.response.Status() == 400 && r.accounts == accounts && r.logged == []
  {
  }

  /**
   * A locked account: 403 with `locked`, the unlock time and the time left as minutes
   * and seconds; no password check (the result does not depend on `authenticate`)
   * and the counter is untouched.
   */
  lemma {:induction false} LockedAccountRefused(
    accounts: map<string, Account>, name: string, password: string, now: int, ip: Option<string>,
    authenticate: (string, string) -> bool, other: (string, string) -> bool, mint: Account -> TokenPair)
    requires name != "" && password != ""
    requires name in accounts && IsLocked(accounts[name], now)
    ensures var req := LoginRequest(Some(name), Some(password));
      var r := LoginStep(accounts, req, now, ip, authenticate, mint);
      && r == LoginStep(accounts, req, now, ip, other, mint)
      && r.response.Status() == 403 && r.response.Locked() && r.accounts == accounts
      && var left := accounts[name].lockedUntil.value - now;
         r.response == StillLocked(accounts[name].lockedUntil.value, left / 60, left % 60)
         && 0 <= r.response.secondsRemaining < 60
         && r.response.minutesRemaining * 60 + r.response.secondsRemaining == left
  {
  }

  /** A correct password on an unlocked account: 200, counter zero, lock cleared. */
  lemma {:induction false} SuccessResets(
    accounts: map<string, Account>, name: string, password: string, now: int, ip: Option<string>,
    authenticate: (string, string) -> bool, mint: Account -> TokenPair)
    requires name != "" && password != ""
    requires name in accounts && !IsLocked(accounts[name], now)
    requires authenticate(password, accounts[name].passwordHash)
    ensures var r := LoginStep(accounts, LoginRequest(Some(name), Some(password)), now, ip, authenticate, mint);
      && r.response.LoggedIn? && r.response.Status() == 200
      && r.response.tokens == mint(r.accounts[name])
      && r.accounts[name].failedLoginAttempts == 0 && r.accounts[name].lockedUntil.None?
  {
  }

  /**
   * A wrong password on an existing, unlocked account raises the counter by one
   * (after the expiry step, which restarts it from zero) and answers 401 with the
   * attempts left, or 403 with a lock of thirty minutes once the limit is reached.
   */
  lemma {:induction false} FailureCounts(
    accounts: map<string, Account>, name: string, password: string, now: int, ip: Option<string>,
    authenticate: (string, string) -> bool, mint: Account -> TokenPair)
    requires name != "" && password != ""
    requires name in accounts && !IsLocked(accounts[name], now)
    requires !authenticate(password, accounts[name].passwordHash)
    ensures var a := accounts[name];
      var before := if a.lockedUntil.Some? then 0 else a.failedLoginAttempts;
      var r := LoginStep(accounts, LoginRequest(Some(name), Some(password)), now, ip, authenticate, mint);
      && r.accounts[name].failedLoginAttempts == before + 1
      && (before + 1 >= MaxFailedAttempts ==>
            r.response == LockedOut(before + 1) && r.response.Status() == 403
            && r.accounts[name].lockedUntil == Some(now + LockSeconds))
      && (before + 1 < MaxFailedAttempts ==>
            r.response == WrongPassword(MaxFailedAttempts - before - 1) && r.response.Status() == 401
            && r.accounts[name].lockedUntil.None?)
      && (before >= 0 && r.response.WrongPassword? ==> 1 <= r.response.attemptsRemaining <= 4)
  {
  }

  /** An expired lock is lifted and the counter restarted, so a wrong password then leaves four attempts. */
  lemma {:induction false} ExpiredLockRestartsCount(
    accounts: map<string, Account>, name: string, password: string, now: int, ip: Option<string>,
    authenticate: (string, string) -> bool, mint: Account -> TokenPair)
    requires name != "" && password != ""
    requires name in accounts && accounts[name].lockedUntil.Some? && accounts[name].lockedUntil.value <= now
    requires !authenticate(password, accounts[name].passwordHash)
    ensures LoginStep(accounts, LoginRequest(Some(name), Some(password)), now, ip, authenticate, mint).response
            == WrongPassword(4)
  {
  }

  /** An unknown username: 401 "Invalid credentials", no account changes, one anonymous log row. */
  lemma {:induction false} UnknownUserChangesNothing(
    accounts: map<string, Account>, name: string, password: string, now: int, ip: Option<string>,
    authenticate: (string, string) -> bool, mint: Account -> TokenPair)
    requires name != "" && password != "" && name !in accounts
    ensures var r := LoginStep(accounts, LoginRequest(Some(name), Some(password)), now, ip, authenticate, mint);
      r.response == InvalidCredentials && r.response.Status() == 401 && r.accounts == accounts
      && r.logged == [LogEntry(None, "Login Attempt - Unknown Username", ip)]
  {
  }

  /** Every login keeps every account's counters consistent. */
  lemma {:induction false} LoginKeepsLockoutConsistent(
    accounts: map<string, Account>, req: LoginRequest, now: int, ip: Option<string>,
    authenticate: (string, string) -> bool, mint: Account -> TokenPair)
    requires forall n | n in accounts :: LockoutConsistent(accounts[n])
    ensures var r := LoginStep(accounts, req, now, ip, authenticate, mint);
      forall n | n in r.accounts :: LockoutConsistent(r.accounts[n])
  {
    if Provided(req.username) && Provided(req.password) {
      var name := req.username.value;
      if name in accounts && !IsLocked(accounts[name], now) {
        var expired := ExpireLock(accounts, name);
        assert forall n | n in expired :: LockoutConsistent(expired[n]);
        AttemptKeepsLockoutConsistent(expired, name, req.password.value, now, ip, authenticate, mint);
      }
    }
  }

  /** On an unlocked row the attempt keeps the counters consistent: one more failure reaches the limit at most. */
  lemma {:induction false} AttemptKeepsLockoutConsistent(
    accounts: map<string, Account>, name: string, password: string, now: int, ip: Option<string>,
    authenticate: (string, string) -> bool, mint: Account -> TokenPair)
    requires forall n | n in accounts :: LockoutConsistent(accounts[n])
    requires name in accounts ==> accounts[name].lockedUntil.None?
    ensures var r := AttemptStep(accounts, name, password, now, ip, authenticate, mint);
      forall n | n in r.accounts :: LockoutConsistent(r.accounts[n])
  {
    var r := AttemptStep(accounts, name, password, now, ip, authenticate, mint);
    if name in accounts {
      var a := accounts[name];
      // the row is unlocked and consistent, so it is below the limit before this attempt
      assert 0 <= a.failedLoginAttempts < MaxFailedAttempts;
      if authenticate(password, a.passwordHash) {
        assert r.accounts == accounts[name := a.(failedLoginAttempts := 0, lockedUntil := None)];
      } else if a.failedLoginAttempts + 1 >= MaxFailedAttempts {
        assert r.accounts == accounts[name := a.(failedLoginAttempts := MaxFailedAttempts, lockedUntil := Some(now + LockSeconds))];
      } else {
        assert r.accounts == accounts[name := a.(failedLoginAttempts := a.failedLoginAttempts + 1)];
      }
    }
  }

  /** One more wrong password on an unlocked row that has failed `k` times. */
  lemma {:induction false} WrongPasswordStep(
    a: Account, m: map<string, Account>, password: string, now: int, ip: Option<string>,
    authenticate: (string, string) -> bool, mint: Account -> TokenPair)
    requires a.username != "" && password != ""
    requires a.username in m && SameIdentity(m[a.username], a) && m[a.username].lockedUntil.None?
    requires 0 <= m[a.username].failedLoginAttempts < MaxFailedAttempts
    requires !authenticate(password, a.passwordHash)
    ensures var k := m[a.username].failedLoginAttempts;
      var r := LoginStep(m, LoginRequest(Some(a.username), Some(password)), now, ip, authenticate, mint);
      && a.username in r.accounts && SameIdentity(r.accounts[a.username], a)
      && r.accounts[a.username].failedLoginAttempts == k + 1
      && (k + 1 < MaxFailedAttempts ==>
            r.response == WrongPassword(MaxFailedAttempts - k - 1) && r.accounts[a.username].lockedUntil.None?)
      && (k + 1 == MaxFailedAttempts ==>
            r.response == LockedOut(k + 1) && r.accounts[a.username].lockedUntil == Some(now + LockSeconds))
  {
    assert SameIdentity(a, m[a.username]);
    assert ExpireLock(m, a.username) == m;
  }

  /**
   * Five wrong passwords in a row on a fresh account: four 401 answers counting down
   * from four, then a 403 lock until thirty minutes after the fifth attempt.
   */
  lemma {:induction false} FiveFailuresLock(
    a: Account, password: string, t: int, ip: Option<string>,
    authenticate: (string, string) -> bool, mint: Account -> TokenPair)
    requires a.username != "" && password != ""
    requires a.failedLoginAttempts == 0 && a.lockedUntil.None?
    requires !authenticate(password, a.passwordHash)
    ensures
      var req := LoginRequest(Some(a.username), Some(password));
      var r1 := LoginStep(map[a.username := a], req, t, ip, authenticate, mint);
      var r2 := LoginStep(r1.accounts, req, t + 1, ip, authenticate, mint);
      var r3 := LoginStep(r2.accounts, req, t + 2, ip, authenticate, mint);
      var r4 := LoginStep(r3.accounts, req, t + 3, ip, authenticate, mint);
      var r5 := LoginStep(r4.accounts, req, t + 4, ip, authenticate, mint);
      && r1.response == WrongPassword(4) && r2.response == WrongPassword(3)
      && r3.response == WrongPassword(2) && r4.response == WrongPassword(1)
      && r5.response == LockedOut(5)
      && r5.accounts[a.username].lockedUntil == Some(t + 4 + LockSeconds)
  {
    var req := LoginRequest(Some(a.username), Some(password));
    var m0 := map[a.username := a];
    WrongPasswordStep(a, m0, password, t, ip, authenticate, mint);
    var r1 := LoginStep(m0, req, t, ip, authenticate, mint);
    WrongPasswordStep(a, r1.accounts, password, t + 1, ip, authenticate, mint);
    var r2 := LoginStep(r1.accounts, req, t + 1, ip, authenticate, mint);
    WrongPasswordStep(a, r2.accounts, password, t + 2, ip, authenticate, mint);
    var r3 := LoginStep(r2.accounts, req, t + 2, ip, authenticate, mint);
    WrongPasswordStep(a, r3.accounts, password, t + 3, ip, authenticate, mint);
    var r4 := LoginStep(r3.accounts, req, t + 3, ip, authenticate, mint);
    WrongPasswordStep(a, r4.accounts, password, t + 4, ip, authenticate, mint);
  }

  // ---- profile -------------------------------------------------------------

  /**
   * The writable fields of `UserSerializer`; `id`, `role` and `created_at` are
   * read-only, so an update has no way to name them.
   */
  datatype ProfileUpdate = ProfileUpdate(
    username: Option<string>, email: Option<string>, firstName: Option<string>,
    lastName: Option<string>, phone: Option<string>)

  /** A partial profile update: given fields are replaced, everything else is kept. */
  function ApplyProfileUpdate(a: Account, u: ProfileUpdate): (b: Account)
    ensures b.id == a.id && b.role == a.role
    ensures b.passwordHash == a.passwordHash
    ensures b.failedLoginAttempts == a.failedLoginAttempts && b.lockedUntil == a.lockedUntil
    ensures b.email == u.email.GetOr(a.email) && b.username == u.username.GetOr(a.username)
    ensures b.firstName == u.firstName.GetOr(a.firstName) && b.lastName == u.lastName.GetOr(a.lastName)
    ensures b.phone == u.phone.GetOr(a.phone)
    ensures u == ProfileUpdate(None, None, None, None, None) ==> b == a
  {
    a.(username := u.username.GetOr(a.username), email := u.email.GetOr(a.email),
       firstName := u.firstName.GetOr(a.firstName), lastName := u.lastName.GetOr(a.lastName),
       phone := u.phone.GetOr(a.phone))
  }

  // ---- registration and password change -----------------------------------

  datatype RegisterResponse = Registered(account: Account, tokens: TokenPair) | RegistrationRejected(errors: PasswordPolicy.Errors)

  datatype ChangeResponse = PasswordChanged | ChangeRejected(errors: PasswordPolicy.Errors)

  const ReuseMessage: string := "You cannot reuse any of your last 5 passwords."

  /** The user table, the password-history table and the shared activity log. */
  class UserDirectory {
    var accounts: map<string, Account>
    /** `PasswordHistory` rows by user id, oldest first. */
    var history: map<nat, seq<string>>
    /** The next primary key the database hands out. */
    var nextId: nat
    const activity: ActivityLog

    /** Usernames are the table's keys, ids are below `nextId` and no two accounts share one. */
    ghost predicate Valid()
      reads this
    {
      TableValid(accounts, nextId)
    }

    constructor (log: ActivityLog)
      ensures Valid() && accounts == map[] && history == map[] && activity == log
    {
      accounts, history, nextId := map[], map[], 0;
      activity := log;
    }

    /** The login view, step by step, with its early returns. */
    method Login(req: LoginRequest, now: int, ip: Option<string>,
                 authenticate: (string, string) -> bool, mint: Account -> TokenPair)
      returns (resp: LoginResponse)
      requires Valid()
      modifies this, activity
      ensures Valid()
      ensures var r := LoginStep(old(accounts), req, now, ip, authenticate, mint);
        resp == r.response && accounts == r.accounts && activity.entries == old(activity.entries) + r.logged
      ensures history == old(history) && nextId == old(nextId)
    {
      if !Provided(req.username) || !Provided(req.password) {
        return MissingCredentials;
      }
      var name, password := req.username.value, req.password.value;
      if name in accounts {
        var check := accounts[name];
        if check.lockedUntil.Some? && check.lockedUntil.value > now {
          var remaining := check.lockedUntil.value - now;
          activity.entries := activity.entries + [LogEntry(Some(check.id), "Login Attempt - Account Locked", ip)];
          return StillLocked(check.lockedUntil.value, remaining / 60, remaining % 60);
        }
        if check.lockedUntil.Some? && check.lockedUntil.value <= now {
          SameIdentityKeepsTable(accounts, ExpireLock(accounts, name), nextId);
          accounts := accounts[name := check.(lockedUntil := None, failedLoginAttempts := 0)];
        }
      }
      resp := Attempt(name, password, now, ip, authenticate, mint);
    }

    /** From `authenticate(...)` on: the success branch and the two failure branches. */
    method Attempt(name: string, password: string, now: int, ip: Option<string>,
                   authenticate: (string, string) -> bool, mint: Account -> TokenPair)
      returns (resp: LoginResponse)
      requires Valid()
      modifies this, activity
      ensures Valid()
      ensures var r := AttemptStep(old(accounts), name, password, now, ip, authenticate, mint);
        resp == r.response && accounts == r.accounts && activity.entries == old(activity.entries) + r.logged
      ensures history == old(history) && nextId == old(nextId)
    {
      ghost var spec := AttemptStep(accounts, name, password, now, ip, authenticate, mint);
      SameIdentityKeepsTable(accounts, spec.accounts, nextId);
      if name !in accounts {
        activity.entries := activity.entries + [LogEntry(None, "Login Attempt - Unknown Username", ip)];
        return InvalidCredentials;
      }
      var a := accounts[name];
      if authenticate(password, a.passwordHash) {
        var user := a.(failedLoginAttempts := 0, lockedUntil := None);
        assert spec == LoginResult(LoggedIn(user, mint(user)), accounts[name := user], [LogEntry(Some(a.id), "User Login - Success", ip)]);
        accounts := accounts[name := user];
        activity.entries := activity.entries + [LogEntry(Some(a.id), "User Login - Success", ip)];
        return LoggedIn(user, mint(user));
      }
      var failures := a.failedLoginAttempts + 1;
      if failures >= MaxFailedAttempts {
        var locked := a.(failedLoginAttempts := failures, lockedUntil := Some(now + LockSeconds));
        assert spec == LoginResult(LockedOut(failures), accounts[name := locked],
                                   [LogEntry(Some(a.id), "Account Locked - Too Many Failed Attempts", ip)]);
        accounts := accounts[name := locked];
        activity.entries := activity.entries + [LogEntry(Some(a.id), "Account Locked - Too Many Failed Attempts", ip)];
        return LockedOut(failures);
      }
      var counted := a.(failedLoginAttempts := failures);
      assert spec == LoginResult(WrongPassword(MaxFailedAttempts - failures), accounts[name := counted],
                                 [LogEntry(Some(a.id), "User Login - Failed", ip)]);
      accounts := accounts[name := counted];
      activity.entries := activity.entries + [LogEntry(Some(a.id), "User Login - Failed", ip)];
      return WrongPassword(MaxFailedAttempts - failures);
    }

    /**
     * The register view: field validation (a taken username, a password Django's
     * validators refuse), then the confirmation check, then the new account with
     * its first history row, a log row, and the token pair issued for it.
     */
    method Register(username: string, email: string, firstName: string, lastName: string, phone: string,
                    password: string, password2: string, ip: Option<string>,
                    passwordAccepted: string -> bool, newHash: string, mint: Account -> TokenPair)
      returns (resp: RegisterResponse)
      requires Valid()
      modifies this, activity
      ensures Valid()
      ensures resp.Registered? <==>
        username !in old(accounts) && passwordAccepted(password) && password == password2
      ensures resp.RegistrationRejected? ==>
        && accounts == old(accounts) && history == old(history) && nextId == old(nextId)
        && activity.entries == old(activity.entries)
      ensures resp.RegistrationRejected? && username !in old(accounts) && passwordAccepted(password) ==>
        resp.errors == PasswordPolicy.CheckConfirmation(password, password2)
      ensures resp.Registered? ==>
        && resp.account == Account(old(nextId), username, email, firstName, lastName, phone,
                                   Customer, newHash, 0, None)
        && resp.tokens == mint(resp.account)
        && accounts == old(accounts)[username := resp.account]
        && history == old(history)[old(nextId) := [newHash]]
        && nextId == old(nextId) + 1
        && activity.entries == old(activity.entries) + [LogEntry(Some(old(nextId)), "User Registration", ip)]
    {
      var errors: PasswordPolicy.Errors := map[];
      if username in accounts {
        errors := errors["username" := "A user with that username already exists."];
        assert "username" in errors;
      }
      if !passwordAccepted(password) {
        errors := errors["password" := "This password does not satisfy the password validators."];
        assert "password" in errors;
      }
      assert errors == map[] <==> username !in accounts && passwordAccepted(password);
      if errors != map[] {
        return RegistrationRejected(errors);
      }
      errors := PasswordPolicy.CheckConfirmation(password, password2);
      if errors != map[] {
        return RegistrationRejected(errors);
      }
      var account := Account(nextId, username, email, firstName, lastName, phone, Customer, newHash, 0, None);
      accounts := accounts[username := account];
      history := history[nextId := [newHash]];
      activity.entries := activity.entries + [LogEntry(Some(nextId), "User Registration", ip)];
      nextId := nextId + 1;
      resp := Registered(account, mint(account));
    }

    /**
     * The change-password view for the signed-in `username`: the old password must
     * match, the new one must pass Django's validators and match none of the first
     * five history rows; on success the hash is replaced and one history row added.
     */
    method ChangePassword(username: string, oldPassword: string, newPassword: string, ip: Option<string>,
                          matches: (string, string) -> bool, passwordAccepted: string -> bool, newHash: string)
      returns (resp: ChangeResponse)
      requires Valid() && username in accounts
      modifies this, activity
      ensures Valid()
      ensures var id := old(accounts)[username].id;
        var rows := if id in old(history) then old(history)[id] else [];
        resp == PasswordChanged <==>
          matches(oldPassword, old(accounts)[username].passwordHash) && passwordAccepted(newPassword)
          && !PasswordPolicy.MatchesRecent(newPassword, rows, matches)
      ensures resp.ChangeRejected? ==>
        accounts == old(accounts) && history == old(history) && activity.entries == old(activity.entries)
      ensures resp == PasswordChanged ==>
        var a := old(accounts)[username];
        var rows := if a.id in old(history) then old(history)[a.id] else [];
        && accounts == old(accounts)[username := a.(passwordHash := newHash)]
        && history == old(history)[a.id := rows + [newHash]]
        && activity.entries == old(activity.entries) + [LogEntry(Some(a.id), "Password Changed", ip)]
      ensures nextId == old(nextId)
    {
      var user := accounts[username];
      var errors: PasswordPolicy.Errors := map[];
      if !matches(oldPassword, user.passwordHash) {
        errors := errors["old_password" := "Old password is incorrect"];
        assert "old_password" in errors;
      }
      var rows := if user.id in history then history[user.id] else [];
      if !passwordAccepted(newPassword) {
        errors := errors["new_password" := "This password does not satisfy the password validators."];
        assert "new_password" in errors;
      } else {
        var unused := PasswordPolicy.IsFreshPassword(newPassword, rows, matches);
        if !unused {
          errors := errors["new_password" := ReuseMessage];
          assert "new_password" in errors;
        }
      }
      if errors != map[] {
        return ChangeRejected(errors);
      }
      accounts := accounts[username := user.(passwordHash := newHash)];
      history := history[user.id := rows + [newHash]];
      activity.entries := activity.entries + [LogEntry(Some(user.id), "Password Changed", ip)];
      resp := PasswordChanged;
    }
  }

  /**
   * History rows are kept oldest first and the check reads the first five of them,
   * so after five changes the current password's own row (the sixth) is not checked.
   */
  lemma {:induction false} SixthRowUnchecked(candidate: string, history: seq<string>, matches: (string, string) -> bool)
    requires |history| == 6
    requires forall i | 0 <= i < 5 :: !matches(candidate, history[i])
    requires matches(candidate, history[5])
    ensures !PasswordPolicy.MatchesRecent(candidate, history, matches)
  {
  }
}
