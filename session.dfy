/**
 * The browser side of a session: the three cookies `lib/auth.ts` reads and
 * writes, and the axios instance of `lib/api.ts` with its bearer-token request
 * interceptor and its single-retry refresh on a 401.
 */
module Session {
  import opened Wrappers

  /** A js-cookie cookie: its value and its lifetime in days (`None`: a session cookie). */
  datatype Cookie = Cookie(value: string, expiresDays: Option<nat>)

  /** The cookies visible to the page, by name. */
  type Jar = map<string, Cookie>

  const AccessCookie: string := "access_token"
  const RefreshCookie: string := "refresh_token"
  const UserCookie: string := "user"
  const LoginPage: string := "/login"

  /** `Cookies.get(name)`: the value, or `undefined`. */
  function CookieValue(jar: Jar, name: string): (v: Option<string>)
    ensures v.Some? <==> name in jar
    ensures v.Some? ==> v.value == jar[name].value
  {
    if name in jar then Some(jar[name].value) else None
  }

  /**
   * The `User` a page stores. `role` is a string: `JSON.parse` does not enforce
   * the TypeScript union `'admin' | 'customer'`.
   */
  datatype StoredUser = StoredUser(id: int, username: string, email: string, firstName: string, lastName: string, role: string)

  // ---- lib/auth.ts ----------------------------------------------------------

  /** The jar after `setAuth(access, refresh, user)`; `userJson` is `JSON.stringify(user)`. */
  function AuthJar(jar: Jar, access: string, refresh: string, userJson: string): (j: Jar)
    ensures j.Keys == jar.Keys + {AccessCookie, RefreshCookie, UserCookie}
    ensures j[AccessCookie] == Cookie(access, Some(1))
    ensures j[RefreshCookie] == Cookie(refresh, Some(7))
    ensures j[UserCookie] == Cookie(userJson, Some(7))
    ensures forall n | n in jar && n !in {AccessCookie, RefreshCookie, UserCookie} :: j[n] == jar[n]
  {
    jar[AccessCookie := Cookie(access, Some(1))][RefreshCookie := Cookie(refresh, Some(7))][UserCookie := Cookie(userJson, Some(7))]
  }

  /** The jar after `logout()` (or a failed refresh): the three session cookies are gone. */
  function LoggedOutJar(jar: Jar): (j: Jar)
    ensures j.Keys == jar.Keys - {AccessCookie, RefreshCookie, UserCookie}
    ensures forall n | n in j :: j[n] == jar[n]
  {
    jar - {AccessCookie, RefreshCookie, UserCookie}
  }

  /**
   * `getUser()`: `null` when the cookie is absent or empty (falsy) and when
   * `JSON.parse` throws; `parse` is `JSON.parse`, `None` where it throws.
   */
  function GetUser(jar: Jar, parse: string -> Option<StoredUser>): (u: Option<StoredUser>)
    ensures !Provided(CookieValue(jar, UserCookie)) ==> u.None?
    ensures Provided(CookieValue(jar, UserCookie)) ==> u == parse(jar[UserCookie].value)
  {
    var cookie := CookieValue(jar, UserCookie);
    if Provided(cookie) then parse(cookie.value) else None
  }

  /** `isAuthenticated()`: `!!Cookies.get('access_token')`, so an empty value does not count. */
  predicate IsAuthenticated(jar: Jar) {
    Provided(CookieValue(jar, AccessCookie))
  }

  /** `isAdmin()`: a stored user whose role is the string `admin`. */
  predicate IsAdmin(jar: Jar, parse: string -> Option<StoredUser>) {
    var u := GetUser(jar, parse);
    u.Some? && u.value.role == "admin"
  }

  /** Being authenticated reads only the access cookie: the user cookie plays no part. */
  lemma AuthenticationIgnoresUserCookie(jar: Jar, c: Cookie)
    ensures IsAuthenticated(jar[UserCookie := c]) <==> IsAuthenticated(jar)
    ensures IsAuthenticated(jar - {UserCookie}) <==> IsAuthenticated(jar)
  {
    assert CookieValue(jar[UserCookie := c], AccessCookie) == CookieValue(jar, AccessCookie);
    assert CookieValue(jar - {UserCookie}, AccessCookie) == CookieValue(jar, AccessCookie);
  }

  /** After `setAuth` with a non-empty access token the page is authenticated. */
  lemma SetAuthAuthenticates(jar: Jar, access: string, refresh: string, userJson: string)
    requires access != ""
    ensures IsAuthenticated(AuthJar(jar, access, refresh, userJson))
  {
  }

  /**
   * After `setAuth(access, refresh, user)`, `getUser()` gives `user` back whenever
   * `JSON.parse` inverts `JSON.stringify` on it, and `isAdmin()` reads its role.
   */
  lemma SetAuthStoresUser(jar: Jar, access: string, refresh: string, user: StoredUser,
                            stringify: StoredUser -> string, parse: string -> Option<StoredUser>)
    requires stringify(user) != ""  // `JSON.stringify` of an object is at least `{}`
    requires parse(stringify(user)) == Some(user)
    ensures GetUser(AuthJar(jar, access, refresh, stringify(user)), parse) == Some(user)
    ensures IsAdmin(AuthJar(jar, access, refresh, stringify(user)), parse) <==> user.role == "admin"
  {
  }

  /** After `logout()` nobody is signed in and no user is stored. */
  lemma LogoutSignsOut(jar: Jar, parse: string -> Option<StoredUser>)
    ensures !IsAuthenticated(LoggedOutJar(jar))
    ensures GetUser(LoggedOutJar(jar), parse).None? && !IsAdmin(LoggedOutJar(jar), parse)
  {
  }

  // ---- lib/api.ts -----------------------------------------------------------

  /** An outgoing axios request config: the endpoint, its `Authorization` header and `_retry`. */
  datatype Request = Request(url: string, authorization: Option<string>, retried: bool)

  /** What the server (or the network) answers. */
  datatype Answer = Response(status: int, body: string) | NetworkError(reason: string)

  /** axios resolves only 2xx responses; everything else rejects. */
  predicate Succeeded(a: Answer) {
    a.Response? && 200 <= a.status < 300
  }

  /** `error.response?.status === 401`. */
  predicate Unauthorized(a: Answer) {
    a.Response? && a.status == 401
  }

  /** The answer of `POST /auth/token/refresh/`: a new access token, or the error axios throws. */
  datatype RefreshAnswer = NewAccess(access: string) | RefreshFailed(error: Answer)

  /** The promise a caller of `api` gets. */
  datatype Outcome = Resolved(answer: Answer) | Rejected(error: RequestError)

  /** What the promise rejects with: the request's own error, or the refresh call's. */
  datatype RequestError = ResponseError(request: Request, answer: Answer) | RefreshError(answer: Answer)

  /** A call that leaves the browser: a request through `api`, or the refresh `POST`. */
  datatype Call = Sent(request: Request) | RefreshSent(token: Option<string>)

  /**
   * The request interceptor: a truthy `access_token` cookie sets `Bearer <token>`;
   * otherwise the request goes out with whatever header it already had.
   */
  function Attach(jar: Jar, req: Request): (r: Request)
    ensures r.url == req.url && r.retried == req.retried
    ensures IsAuthenticated(jar) ==> r.authorization == Some("Bearer " + jar[AccessCookie].value)
    ensures !IsAuthenticated(jar) ==> r.authorization == req.authorization
  {
    if IsAuthenticated(jar) then req.(authorization := Some("Bearer " + jar[AccessCookie].value)) else req
  }

  /** A fresh request of the application's own carries a bearer header exactly when a non-empty token is stored. */
  lemma BearerIffToken(jar: Jar, url: string)
    ensures Attach(jar, Request(url, None, false)).authorization.Some? <==> IsAuthenticated(jar)
  {
  }

  /** Everything one call of `api(...)` leads to: its outcome, the cookies, the page location and the calls made. */
  datatype Flow = Flow(outcome: Outcome, jar: Jar, location: Option<string>, calls: seq<Call>)

  /**
   * The response interceptor's error path for a request `sent` that got `a`.
   * A 401 on a request not yet retried refreshes with the stored refresh token:
   * success stores the new access token (as a session cookie) and replays the
   * request with `_retry` set, and that replay's result is final; failure logs
   * out and rejects with the refresh error. Any other error is passed on.
   */
  function ErrorFlow(jar: Jar, location: Option<string>, sent: Request, a: Answer,
                     transport: Request -> Answer, refresh: Option<string> -> RefreshAnswer): Flow
  {
    if !Unauthorized(a) || sent.retried then
      Flow(Rejected(ResponseError(sent, a)), jar, location, [Sent(sent)])
    else
      var token := CookieValue(jar, RefreshCookie);
      match refresh(token)
      case RefreshFailed(e) =>
        Flow(Rejected(RefreshError(e)), LoggedOutJar(jar), Some(LoginPage), [Sent(sent), RefreshSent(token)])
      case NewAccess(access) =>
        var renewed := jar[AccessCookie := Cookie(access, None)];
        var replay := Attach(renewed, sent.(retried := true, authorization := Some("Bearer " + access)));
        var b := transport(replay);
        Flow(if Succeeded(b) then Resolved(b) else Rejected(ResponseError(replay, b)),
             renewed, location, [Sent(sent), RefreshSent(token), Sent(replay)])
  }

  /** One call of `api(req)` from the application, as a reference definition of the interceptors. */
  function RequestFlow(jar: Jar, location: Option<string>, req: Request,
                       transport: Request -> Answer, refresh: Option<string> -> RefreshAnswer): Flow
  {
    var sent := Attach(jar, req);
    var a := transport(sent);
    if Succeeded(a) then Flow(Resolved(a), jar, location, [Sent(sent)])
    else ErrorFlow(jar, location, sent, a, transport, refresh)
  }

  /**
   * At most one refresh per request, and it is the second call, after the first send;
   * at most two sends; the refresh sends the stored refresh token.
   */
  lemma SingleRefresh(jar: Jar, location: Option<string>, req: Request,
                      transport: Request -> Answer, refresh: Option<string> -> RefreshAnswer)
    ensures var f := RequestFlow(jar, location, req, transport, refresh);
      && 1 <= |f.calls| <= 3
      && f.calls[0] == Sent(Attach(jar, req))
      && (forall i | 0 <= i < |f.calls| && f.calls[i].RefreshSent? :: i == 1 && f.calls[i].token == CookieValue(jar, RefreshCookie))
      && (|f.calls| > 1 ==> !req.retried && Unauthorized(transport(Attach(jar, req))))
  {
  }

  /** A request already marked `_retry` is never refreshed, whatever it gets back. */
  lemma RetriedRequestNotRefreshed(jar: Jar, location: Option<string>, req: Request,
                                   transport: Request -> Answer, refresh: Option<string> -> RefreshAnswer)
    requires req.retried
    ensures var f := RequestFlow(jar, location, req, transport, refresh);
      f.calls == [Sent(Attach(jar, req))] && f.jar == jar && f.location == location
  {
  }

  /** A successful refresh replays once with the new token; a second 401 rejects without logging out. */
  lemma ReplayedOnceWithNewToken(jar: Jar, location: Option<string>, req: Request,
                                 transport: Request -> Answer, refresh: Option<string> -> RefreshAnswer)
    requires !req.retried && Unauthorized(transport(Attach(jar, req)))
    requires refresh(CookieValue(jar, RefreshCookie)).NewAccess?
    ensures var f := RequestFlow(jar, location, req, transport, refresh);
      var access := refresh(CookieValue(jar, RefreshCookie)).access;
      && |f.calls| == 3 && f.calls[2].Sent?
      && f.calls[2].request.authorization == Some("Bearer " + access) && f.calls[2].request.retried
      && f.calls[2].request.url == req.url
      && f.jar == jar[AccessCookie := Cookie(access, None)] && f.location == location
      && (Unauthorized(transport(f.calls[2].request)) ==> f.outcome == Rejected(ResponseError(f.calls[2].request, transport(f.calls[2].request))))
  {
  }

  /** A failed refresh logs out, sends the page to the login screen and rejects with the refresh error. */
  lemma FailedRefreshLogsOut(jar: Jar, location: Option<string>, req: Request,
                             transport: Request -> Answer, refresh: Option<string> -> RefreshAnswer)
    requires !req.retried && Unauthorized(transport(Attach(jar, req)))
    requires refresh(CookieValue(jar, RefreshCookie)).RefreshFailed?
    ensures var f := RequestFlow(jar, location, req, transport, refresh);
      && f.outcome == Rejected(RefreshError(refresh(CookieValue(jar, RefreshCookie)).error))
      && f.jar == LoggedOutJar(jar) && !IsAuthenticated(f.jar) && f.location == Some(LoginPage)
  {
  }

  /** Errors other than 401 are rejected as they are, with cookies and location untouched. */
  lemma OtherErrorsPassThrough(jar: Jar, location: Option<string>, req: Request,
                               transport: Request -> Answer, refresh: Option<string> -> RefreshAnswer)
    requires !Succeeded(transport(Attach(jar, req))) && !Unauthorized(transport(Attach(jar, req)))
    ensures var f := RequestFlow(jar, location, req, transport, refresh);
      && f.outcome == Rejected(ResponseError(Attach(jar, req), transport(Attach(jar, req))))
      && f.jar == jar && f.location == location && |f.calls| == 1
  {
  }

  /** The browser: its cookie jar and the `window.location.href` last assigned. */
  class Browser {
    var cookies: Jar
    var location: Option<string>

    constructor (jar: Jar)
      ensures cookies == jar && location == None
    {
      cookies, location := jar, None;
    }

    /** `setAuth(access, refresh, user)`, given `JSON.stringify(user)`. */
    method SetAuth(access: string, refresh: string, userJson: string)
      modifies this
      ensures cookies == AuthJar(old(cookies), access, refresh, userJson) && location == old(location)
    {
      cookies := cookies[AccessCookie := Cookie(access, Some(1))];
      cookies := cookies[RefreshCookie := Cookie(refresh, Some(7))];
      cookies := cookies[UserCookie := Cookie(userJson, Some(7))];
    }

    /** `logout()`. */
    method Logout()
      modifies this
      ensures cookies == LoggedOutJar(old(cookies)) && location == Some(LoginPage)
    {
      cookies := cookies - {AccessCookie};
      cookies := cookies - {RefreshCookie};
      cookies := cookies - {UserCookie};
      location := Some(LoginPage);
    }

    /** `api(req)`: the request interceptor, the transport, then the response interceptor. */
    method Dispatch(req: Request, transport: Request -> Answer, refresh: Option<string> -> RefreshAnswer)
      returns (outcome: Outcome, calls: seq<Call>)
      modifies this
      ensures var f := RequestFlow(old(cookies), old(location), req, transport, refresh);
        outcome == f.outcome && calls == f.calls && cookies == f.jar && location == f.location
      decreases if req.retried then 0 else 1, 1
    {
      var sent := Attach(cookies, req);
      var a := transport(sent);
      if Succeeded(a) {
        return Resolved(a), [Sent(sent)];
      }
      outcome, calls := OnError(sent, a, transport, refresh);
    }

    /** The response interceptor's error handler for `sent`, which got `a`. */
    method OnError(sent: Request, a: Answer, transport: Request -> Answer, refresh: Option<string> -> RefreshAnswer)
      returns (outcome: Outcome, calls: seq<Call>)
      modifies this
      ensures var f := ErrorFlow(old(cookies), old(location), sent, a, transport, refresh);
        outcome == f.outcome && calls == f.calls && cookies == f.jar && location == f.location
      decreases if sent.retried then 0 else 1, 0
    {
      if Unauthorized(a) && !sent.retried {
        var original := sent.(retried := true);
        var token := CookieValue(cookies, RefreshCookie);
        var answer := refresh(token);
        match answer
        case RefreshFailed(e) =>
          Logout();
          return Rejected(RefreshError(e)), [Sent(sent), RefreshSent(token)];
        case NewAccess(access) =>
          cookies := cookies[AccessCookie := Cookie(access, None)];
          var replayed;
          outcome, replayed := Dispatch(original.(authorization := Some("Bearer " + access)), transport, refresh);
          calls := [Sent(sent), RefreshSent(token)] + replayed;
          return;
      }
      return Rejected(ResponseError(sent, a)), [Sent(sent)];
    }
  }
}
