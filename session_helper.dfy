/**
 * Controllers/SessionHelper.cs: the anonymous visitor's session id lives in a
 * cookie. A present, non-blank cookie is reused; otherwise a fresh GUID is
 * minted and written back in a cookie that is HttpOnly, essential, and expires
 * thirty days later.
 *
 * The request's cookies, its scheme and host, the server-side session store and
 * the cookies written to the response make up the `HttpContext`. The fresh GUID
 * and the clock reading are inputs; times are in seconds.
 */
module SessionHelper {
  import opened Models
  import opened Strings

  const SessionCookieName := "EShopOnWeb.SessionId"
  const SecondsPerDay := 86400
  const CookieLifetimeDays := 30

  datatype CookieOptions = CookieOptions(httpOnly: bool, isEssential: bool, expires: int)

  /** One `Set-Cookie` written to the response. */
  datatype SetCookie = SetCookie(name: string, value: string, options: CookieOptions)

  class HttpContext {
    /** The cookies the browser sent with this request. */
    const requestCookies: map<string, string>
    /** `$"{Request.Scheme}://{Request.Host}"`. */
    const requestBase: string
    /** The cookies appended to the response, in order. */
    var responseCookies: seq<SetCookie>
    /** The server-side session store (ISession), holding 32-bit integers by key. */
    var session: map<string, int>

    constructor (requestCookies: map<string, string>, requestBase: string, session: map<string, int>)
      ensures this.requestCookies == requestCookies && this.requestBase == requestBase
      ensures this.session == session && responseCookies == []
    {
      this.requestCookies := requestCookies;
      this.requestBase := requestBase;
      this.session := session;
      responseCookies := [];
    }
  }

  predicate IsHexDigit(c: char) {
    '0' <= c <= '9' || 'a' <= c <= 'f'
  }

  /** Guid.ToString(): 32 lower-case hex digits in groups 8-4-4-4-12 separated by hyphens. */
  predicate IsGuidString(s: string) {
    && |s| == 36
    && (forall i :: 0 <= i < 36 ==> if i == 8 || i == 13 || i == 18 || i == 23 then s[i] == '-' else IsHexDigit(s[i]))
  }

  /** A minted id is never blank. */
  lemma GuidIsNotBlank(s: string)
    requires IsGuidString(s)
    ensures !IsBlank(s)
  {
    assert IsHexDigit(s[0]);
  }

  /** The session cookie of the request, when it is present and not blank. */
  function ExistingSessionId(cookies: map<string, string>): (r: Option<string>)
    ensures r.Some? <==> SessionCookieName in cookies && !IsBlank(cookies[SessionCookieName])
    ensures r.Some? ==> r.value == cookies[SessionCookieName]
  {
    if SessionCookieName in cookies && !IsBlank(cookies[SessionCookieName]) then Some(cookies[SessionCookieName]) else None
  }

  /** The session id a request ends up with: the reused cookie, or the fresh id. */
  function ResolveSessionId(cookies: map<string, string>, freshId: string): (id: string)
    ensures ExistingSessionId(cookies).Some? ==> id == cookies[SessionCookieName]
    ensures ExistingSessionId(cookies).None? ==> id == freshId
  {
    ExistingSessionId(cookies).GetOr(freshId)
  }

  /** Whichever way it is found, the session id a request uses is never blank. */
  lemma ResolvedIdIsNeverBlank(cookies: map<string, string>, freshId: string)
    requires IsGuidString(freshId)
    ensures !IsBlank(ResolveSessionId(cookies, freshId))
  {
    if ExistingSessionId(cookies).None? {
      GuidIsNotBlank(freshId);
    }
  }

  /** The cookies a request writes: none when the cookie is reused, the new session cookie otherwise. */
  function MintedCookies(cookies: map<string, string>, freshId: string, now: int): (r: seq<SetCookie>)
    ensures ExistingSessionId(cookies).Some? ==> r == []
    ensures ExistingSessionId(cookies).None? ==>
              && |r| == 1
              && r[0].name == SessionCookieName && r[0].value == freshId
              && r[0].options.httpOnly && r[0].options.isEssential
              && r[0].options.expires == now + CookieLifetimeDays * SecondsPerDay
  {
    if ExistingSessionId(cookies).Some? then []
    else [SetCookie(SessionCookieName, freshId, CookieOptions(true, true, now + CookieLifetimeDays * SecondsPerDay))]
  }

  /** The browser's cookie jar after it stores the cookies a response wrote. */
  function StoreCookies(jar: map<string, string>, written: seq<SetCookie>): map<string, string>
    decreases |written|
  {
    if written == [] then jar else StoreCookies(jar[written[0].name := written[0].value], written[1..])
  }

  /**
   * The next request, sent with the cookie jar the browser kept, resolves to the
   * same session id and writes no cookie: the cart follows the visitor.
   */
  lemma NextRequestKeepsSession(cookies: map<string, string>, freshId: string, now: int, laterFreshId: string, later: int)
    requires IsGuidString(freshId)
    ensures var jar := StoreCookies(cookies, MintedCookies(cookies, freshId, now));
            && ResolveSessionId(jar, laterFreshId) == ResolveSessionId(cookies, freshId)
            && MintedCookies(jar, laterFreshId, later) == []
  {
    if ExistingSessionId(cookies).None? {
      GuidIsNotBlank(freshId);
      var written := MintedCookies(cookies, freshId, now);
      assert StoreCookies(cookies, written) == StoreCookies(cookies[SessionCookieName := freshId], []);
    }
  }

  /** GetOrCreateSessionId. */
  method GetOrCreateSessionId(ctx: HttpContext, freshId: string, now: int) returns (id: string)
    modifies ctx`responseCookies
    ensures id == ResolveSessionId(ctx.requestCookies, freshId)
    ensures ctx.responseCookies == old(ctx.responseCookies) + MintedCookies(ctx.requestCookies, freshId, now)
  {
    var existing := ExistingSessionId(ctx.requestCookies);
    if existing.Some? {
      return existing.value;
    }
    id := freshId;
    var options := CookieOptions(true, true, now + CookieLifetimeDays * SecondsPerDay);
    ctx.responseCookies := ctx.responseCookies + [SetCookie(SessionCookieName, id, options)];
  }
}
