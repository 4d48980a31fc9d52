/**
 * The activity log: its entries, the client-IP helper that every view file
 * repeats, the request-logging middleware, and the admin log listing.
 */
module Logs {
  import opened Wrappers
  import opened Permissions
  import Seqs

  /** An `ActivityLog` row, reduced to who, what and from where. */
  datatype LogEntry = LogEntry(user: Option<nat>, action: string, ip: Option<string>)

  /** The text of `s` before its first comma (all of `s` when there is none): `s.split(',')[0]`. */
  function BeforeFirstComma(s: string): (r: string)
    ensures |r| <= |s| && r == s[..|r|]
    ensures ',' !in r
    ensures |r| < |s| ==> s[|r|] == ','
  {
    if s == [] || s[0] == ',' then "" else [s[0]] + BeforeFirstComma(s[1..])
  }

  /**
   * `get_client_ip`: a non-empty `X-Forwarded-For` header gives its first
   * comma-separated part, untrimmed; otherwise `REMOTE_ADDR` (which may be absent).
   */
  function ClientIp(forwardedFor: Option<string>, remoteAddr: Option<string>): (ip: Option<string>)
    ensures Provided(forwardedFor) ==> ip.Some? && ip.value == BeforeFirstComma(forwardedFor.value)
    ensures !Provided(forwardedFor) ==> ip == remoteAddr
  {
    if Provided(forwardedFor) then Some(BeforeFirstComma(forwardedFor.value)) else remoteAddr
  }

  /** For a proxy chain `a,b` the first hop `a` is kept, spaces included. */
  lemma {:induction false} FirstHopOfList(a: string, b: string)
    requires ',' !in a
    ensures BeforeFirstComma(a + "," + b) == a
  {
    if a != [] {
      assert (a + "," + b)[1..] == a[1..] + "," + b;
      FirstHopOfList(a[1..], b);
    } else {
      assert (a + "," + b)[0] == ',';
    }
  }

  /** Python's `keyword in path` for strings: `kw` occurs somewhere in `s`. */
  predicate Contains(s: string, kw: string) {
    exists i | 0 <= i <= |s| :: OccursAt(s, kw, i)
  }

  predicate OccursAt(s: string, kw: string, i: nat) {
    i + |kw| <= |s| && s[i..i + |kw|] == kw
  }

  /** The path fragments that make the middleware write a log row. */
  const LoggedKeywords: seq<string> := ["/login", "/register", "/booking", "/payment"]

  predicate IsLoggedPath(path: string) {
    exists k | k in LoggedKeywords :: Contains(path, k)
  }

  /** A request as the middleware sees it. */
  datatype HttpRequest = HttpRequest(
    principal: Principal, verb: string, path: string,
    forwardedFor: Option<string>, remoteAddr: Option<string>)

  datatype HttpResponse = HttpResponse(status: int, body: string)

  /** The middleware writes a row exactly for authenticated requests on a logged path. */
  predicate MiddlewareLogs(req: HttpRequest) {
    req.principal.IsAuthenticated() && IsLoggedPath(req.path)
  }

  /** The row the middleware writes: the action is `"<method> <path>"`. */
  function MiddlewareEntry(req: HttpRequest): (e: LogEntry)
    requires req.principal.IsAuthenticated()
    ensures e.user == Some(req.principal.user.id)
    ensures e.action == req.verb + " " + req.path
    ensures e.ip == ClientIp(req.forwardedFor, req.remoteAddr)
  {
    LogEntry(Some(req.principal.user.id), req.verb + " " + req.path, ClientIp(req.forwardedFor, req.remoteAddr))
  }

  /** Substring matching is not segment matching: the plural route `/bookings/` is logged. */
  lemma KeywordIsSubstring()
    ensures IsLoggedPath("/api/bookings/3/cancel/")
    ensures IsLoggedPath("/api/auth/login/")
  {
    assert OccursAt("/api/bookings/3/cancel/", "/booking", 4);
    assert "/booking" in LoggedKeywords;
    assert OccursAt("/api/auth/login/", "/login", 9);
    assert "/login" in LoggedKeywords;
  }

  /** Every path that holds a listed keyword anywhere, whatever surrounds it, is logged. */
  lemma {:induction false} KeywordAnywhereIsLogged(k: string, a: string, b: string)
    requires k in LoggedKeywords
    ensures IsLoggedPath(a + k + b)
  {
    assert OccursAt(a + k + b, k, |a|) by {
      assert (a + k + b)[|a|..|a| + |k|] == k;
    }
  }

  /** The activity-log table, appended to by views and by the middleware. */
  class ActivityLog {
    var entries: seq<LogEntry>

    constructor ()
      ensures entries == []
    {
      entries := [];
    }

    /**
     * `ActivityLoggingMiddleware.__call__`: run the view first (it may append rows of
     * its own), then append the middleware's row when the request qualifies, and pass
     * the view's response back untouched.
     */
    method Handle(req: HttpRequest, view: HttpRequest -> (HttpResponse, seq<LogEntry>)) returns (resp: HttpResponse)
      modifies this
      ensures resp == view(req).0
      ensures MiddlewareLogs(req) ==> entries == old(entries) + view(req).1 + [MiddlewareEntry(req)]
      ensures !MiddlewareLogs(req) ==> entries == old(entries) + view(req).1
    {
      var handled := view(req);
      resp := handled.0;
      entries := entries + handled.1;
      if req.principal.IsAuthenticated() {
        if IsLoggedPath(req.path) {
          entries := entries + [MiddlewareEntry(req)];
        }
      }
    }
  }

  /** The outcome of `GET /logs/`. */
  datatype LogListing = NotAuthenticated | PermissionDenied | Listed(rows: seq<LogEntry>)

  /** The `user_id=` filter of the log query. */
  function OfUser(id: nat): LogEntry -> bool {
    (e: LogEntry) => e.user == Some(id)
  }

  /** `ActivityLogViewSet.get_queryset`: every row, or only the rows of `user_id` when it is given. */
  function LogQuery(rows: seq<LogEntry>, userId: Option<nat>): (r: seq<LogEntry>)
    ensures userId.None? ==> r == rows
    ensures userId.Some? ==> forall e :: e in r ==> e.user == Some(userId.value)
    ensures userId.Some? ==> forall e :: e in rows && e.user == Some(userId.value) ==> e in r
  {
    if userId.None? then rows else Seqs.Filter(rows, OfUser(userId.value))
  }

  /**
   * The filtered listing keeps the matching rows in the order the table lists them,
   * and every one of them: repeated identical rows are listed as often as they occur.
   */
  lemma {:induction false} LogQueryKeepsOrder(rows: seq<LogEntry>, userId: Option<nat>)
    ensures Seqs.IsSubsequence(LogQuery(rows, userId), rows)
    ensures userId.Some? ==> |LogQuery(rows, userId)| == Seqs.Count(rows, OfUser(userId.value))
  {
    if userId.Some? {
      Seqs.FilterIsSubsequence(rows, OfUser(userId.value));
    } else {
      SubsequenceOfSelf(rows);
    }
  }

  lemma {:induction false} SubsequenceOfSelf(s: seq<LogEntry>)
    ensures Seqs.IsSubsequence(s, s)
  {
    if s != [] {
      SubsequenceOfSelf(s[1..]);
    }
  }

  /**
   * The log viewset: `IsAuthenticated` first (401 for anonymous), then `IsAdminUser`
   * (403 for a customer), then the query.
   */
  function ListLogs(p: Principal, rows: seq<LogEntry>, userId: Option<nat>): (r: LogListing)
    ensures r.Listed? <==> IsAdminUser(p)
    ensures r.Listed? ==> r.rows == LogQuery(rows, userId)
    ensures r == NotAuthenticated <==> p == Anonymous
  {
    if !p.IsAuthenticated() then NotAuthenticated
    else if !IsAdminUser(p) then PermissionDenied
    else Listed(LogQuery(rows, userId))
  }
}
