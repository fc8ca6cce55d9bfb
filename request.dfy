/**
 * The HTTP client's interceptors (frontend/src/utils/request.js): the
 * request side adds the bearer token, the response side classifies a
 * reply body or a failed call into what the caller receives, and records
 * the side effects (an error toast, clearing the session, navigating to
 * the login page) instead of performing them.
 */
module Request {
  import opened Wrappers
  import Auth
  import Router

  const AuthorizationHeader := "Authorization"
  const BearerPrefix := "Bearer "

  /**
   * The request interceptor on `config.headers`: with a truthy token the
   * `Authorization` header is set to `Bearer <token>`; every other header,
   * and the whole map when there is no token, stays as it was.
   */
  function OnRequest(headers: map<string, string>, token: Option<string>): (r: map<string, string>)
    ensures Auth.Truthy(token) ==> AuthorizationHeader in r && r[AuthorizationHeader] == BearerPrefix + token.value
    ensures !Auth.Truthy(token) ==> r == headers
    ensures forall h :: h != AuthorizationHeader ==> (h in r <==> h in headers) && (h in r ==> r[h] == headers[h])
  {
    if Auth.Truthy(token) then headers[AuthorizationHeader := BearerPrefix + token.value] else headers
  }

  /** The server can take the token back out of the header the interceptor wrote. */
  lemma BearerTokenRecoverable(headers: map<string, string>, token: string)
    requires token != ""
    ensures var h := OnRequest(headers, Some(token))[AuthorizationHeader];
      |h| > |BearerPrefix| && h[..|BearerPrefix|] == BearerPrefix && h[|BearerPrefix|..] == token
  {
    var h := BearerPrefix + token;
    assert h[..|BearerPrefix|] == BearerPrefix && h[|BearerPrefix|..] == token;
  }

  /**
   * A reply body `res`: whether `res.initialized` is defined, `res.code`
   * when it is a number (None otherwise), `res.message` (None for null or
   * undefined) and `res.data`.
   */
  datatype Body<D> = Body(hasInitialized: bool, code: Option<int>, message: Option<string>, data: D)

  /** The side effects an interceptor performs. */
  datatype Effects = Effects(toast: Option<string>, clearsAuth: bool, navigateTo: Option<string>)

  const NoEffects := Effects(None, false, None)

  /** What the promise of a call settles with after the success interceptor. */
  datatype Outcome<D> = ResolveBody(body: Body<D>) | ResolveData(data: D) | Reject(message: string)

  datatype Handled<D> = Handled(outcome: Outcome<D>, effects: Effects)

  const SessionExpired := "登录已过期，请重新登录"
  const Unauthorized := "未授权"
  const RequestFailed := "请求失败"

  /** `res.message || fallback`. */
  function MessageOr(message: Option<string>, fallback: string): string {
    if message.Some? && message.value != "" then message.value else fallback
  }

  /** Where the interceptors send the browser on a 401. */
  function LoginRedirect(currentFullPath: string): string {
    "/login?redirect=" + currentFullPath
  }

  /**
   * The success interceptor: a body with `initialized` resolves unchanged;
   * code 0 resolves with `data`; code 401 toasts the expiry message, clears
   * the session, goes to the login page and rejects with the body's message
   * or `未授权`; any other code toasts and rejects with the message or
   * `请求失败`.
   */
  function OnResponse<D>(body: Body<D>, currentFullPath: string): (r: Handled<D>)
    ensures r.outcome == ResolveBody(body) <==> body.hasInitialized
    ensures r.outcome == ResolveData(body.data) <==> !body.hasInitialized && body.code == Some(0)
    ensures !r.outcome.Reject? ==> r.effects == NoEffects
    ensures r.outcome.Reject? ==> r.effects.toast.Some? && r.outcome.message != ""
    ensures r.effects.clearsAuth <==> r.effects.navigateTo.Some?
    ensures r.effects.clearsAuth <==> !body.hasInitialized && body.code == Some(401)
    ensures r.effects.clearsAuth ==>
      && r.effects.navigateTo == Some(LoginRedirect(currentFullPath))
      && r.effects.toast == Some(SessionExpired)
      && r.outcome == Reject(MessageOr(body.message, Unauthorized))
    ensures r.outcome.Reject? && !r.effects.clearsAuth ==>
      && r.outcome == Reject(MessageOr(body.message, RequestFailed))
      && r.effects.toast == Some(r.outcome.message)
  {
    if body.hasInitialized then Handled(ResolveBody(body), NoEffects)
    else if body.code == Some(0) then Handled(ResolveData(body.data), NoEffects)
    else if body.code == Some(401) then
      Handled(Reject(MessageOr(body.message, Unauthorized)),
              Effects(Some(SessionExpired), true, Some(LoginRedirect(currentFullPath))))
    else
      var message := MessageOr(body.message, RequestFailed);
      Handled(Reject(message), Effects(Some(message), false, None))
  }

  // ---------------------------------------------------------------------
  // Failed calls

  /** A failed call: the HTTP status when a response arrived, and whether a request went out. */
  datatype HttpError = HttpError(status: Option<nat>, requestSent: bool)

  function DigitChar(d: int): char
    requires 0 <= d < 10
  {
    ('0' as int + d) as char
  }

  /** The decimal digits of `n`, as a template literal prints a non-negative integer. */
  function DecimalString(n: nat): (s: string)
    ensures |s| > 0 && forall k :: 0 <= k < |s| ==> '0' <= s[k] <= '9'
    decreases n
  {
    if n < 10 then [DigitChar(n)] else DecimalString(n / 10) + [DigitChar(n % 10)]
  }

  function DecimalValue(s: string): nat
    requires forall k :: 0 <= k < |s| ==> '0' <= s[k] <= '9'
    decreases |s|
  {
    if s == [] then 0 else 10 * DecimalValue(s[..|s| - 1]) + (s[|s| - 1] as int - '0' as int)
  }

  /** The printed digits read back as the number. */
  lemma {:induction false} DecimalRoundTrip(n: nat)
    ensures DecimalValue(DecimalString(n)) == n
    decreases n
  {
    var s := DecimalString(n);
    if n < 10 {
      assert s[..|s| - 1] == [];
    } else {
      DecimalRoundTrip(n / 10);
      assert s[..|s| - 1] == DecimalString(n / 10);
    }
  }

  const BadRequest := "请求参数错误"
  const UnauthorizedRelogin := "未授权，请重新登录"
  const Forbidden := "拒绝访问"
  const NotFound := "请求的资源不存在"
  const ServerError := "服务器内部错误"
  const NoResponse := "服务器无响应"
  const NetworkFailed := "网络请求失败"

  /** The prefix of the message for a status without a message of its own. */
  const GenericPrefix := "请求失败: "

  /** A text whose third character is not the prefix's does not start with it. */
  lemma NotGeneric(m: string)
    requires |m| > 2 && m[2] != '失'
    ensures !(GenericPrefix <= m)
  {
    assert GenericPrefix[2] == '失';
  }

  /** The message the error interceptor shows for an HTTP status. */
  function StatusMessage(status: nat): (m: string)
    ensures m != ""
    ensures status in {400, 401, 403, 404, 500} <==> !(GenericPrefix <= m)
  {
    if status in {400, 401, 403, 404, 500} then
      var m := if status == 400 then BadRequest
        else if status == 401 then UnauthorizedRelogin
        else if status == 403 then Forbidden
        else if status == 404 then NotFound
        else ServerError;
      NotGeneric(m);
      m
    else GenericPrefix + DecimalString(status)
  }

  /** The message shown for a failed call. */
  function ErrorMessage(err: HttpError): string {
    if err.status.Some? then StatusMessage(err.status.value)
    else if err.requestSent then NoResponse
    else NetworkFailed
  }

  /**
   * The error interceptor: it always shows one error toast, clears the
   * session and goes to the login page exactly on status 401, and rejects
   * with the original error (so the outcome itself is not modelled here).
   */
  function OnError(err: HttpError, currentFullPath: string): (e: Effects)
    ensures e.toast == Some(ErrorMessage(err))
    ensures e.clearsAuth <==> err.status == Some(401)
    ensures e.navigateTo.Some? <==> e.clearsAuth
    ensures e.navigateTo.Some? ==> e.navigateTo.value == LoginRedirect(currentFullPath)
  {
    var message := ErrorMessage(err);
    if err.status == Some(401) then Effects(Some(message), true, Some(LoginRedirect(currentFullPath)))
    else Effects(Some(message), false, None)
  }

  /** A status outside the five named ones can be read back from its message. */
  lemma GenericStatusRecoverable(status: nat)
    requires status !in {400, 401, 403, 404, 500}
    ensures var m := StatusMessage(status);
      |m| > 6 && m[..6] == GenericPrefix && DecimalValue(m[6..]) == status
  {
    var m := StatusMessage(status);
    assert m[6..] == DecimalString(status);
    DecimalRoundTrip(status);
  }

  // ---------------------------------------------------------------------
  // The redirect to the login page

  /** The path part of a full path: everything before the first `?` or `#`. */
  function PathOf(fullPath: string): (p: string)
    ensures p <= fullPath
    decreases |fullPath|
  {
    if fullPath == [] || fullPath[0] == '?' || fullPath[0] == '#' then []
    else [fullPath[0]] + PathOf(fullPath[1..])
  }

  lemma {:induction false} PathOfQueryFree(path: string, query: string)
    requires '?' !in path && '#' !in path
    ensures PathOf(path + "?" + query) == path
    decreases |path|
  {
    if path != [] {
      assert (path + "?" + query)[1..] == path[1..] + "?" + query;
      PathOfQueryFree(path[1..], query);
    } else {
      assert (path + "?" + query)[0] == '?';
    }
  }

  /**
   * After a 401 (from either interceptor) the session is cleared, and the
   * navigation to `/login?redirect=…` is one the guard lets through.
   */
  lemma UnauthorizedLandsOnLogin(items: map<string, string>, currentFullPath: string)
    ensures var cleared := items - {Auth.TokenKey, Auth.UserInfoKey};
      Router.BeforeEach(PathOf(LoginRedirect(currentFullPath)), Auth.TokenOf(cleared)) == Router.Proceed
  {
    assert LoginRedirect(currentFullPath) == "/login" + "?" + ("redirect=" + currentFullPath);
    PathOfQueryFree("/login", "redirect=" + currentFullPath);
    Auth.ClearAuthForgetsSession(items);
  }
}
