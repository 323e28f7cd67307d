/** The client helpers of the older login module (src/vrchatapi_extensions/Utils/LoginUtils.py).

    An API client is modelled by the two fields these helpers touch: the user agent and the
    default headers. `__setup_manual_client` returns its client unchanged, so only the cookie
    helper is modelled. Its second-factor helper is `TwoFactor.Resolve`. */
module ClientSetup {
  import opened Wrappers
  import opened Errors
  import opened CookieJar
  import opened Constants
  import opened Payload
  import opened LegacyCookie
  import CookieVault
  import LegacyLogin

  /** The part of an `ApiClient` the helpers change. */
  datatype Client = Client(userAgent: string, headers: map<string, string>)

  /** A session cookie that carries the second factor as well, as `__setup_cookie_client` expects. */
  datatype SessionCookie = SessionCookie(auth: string, twoFactorAuth: Option<string>)

  /** `__setup_cookie_client(client, cookie)` as written: the user agent is set, then reading
      `cookie.two_factor_auth` raises, because the `Cookie` it is given has `auth` alone. The
      `Cookie` header is never assigned. */
  function SetupCookieClientAsWritten(client: Client, cookie: Cookie): (r: (Client, Result<Client, Error>))
    ensures r.1 == Failure(MissingTwoFactorField)
    ensures r.0.userAgent == Agent && r.0.headers == client.headers
  {
    (client.(userAgent := Agent), Failure(MissingTwoFactorField))
  }

  /** `__setup_cookie_client` with the cookie it evidently expects: the default agent, and a
      `Cookie` header naming `auth` and, when there is one, `twoFactorAuth`; every other header
      is kept. */
  function SetupCookieClient(client: Client, cookie: SessionCookie): (r: Client)
    ensures r.userAgent == Agent
    ensures r.headers.Keys == client.headers.Keys + {"Cookie"}
    ensures forall k :: k in client.headers && k != "Cookie" ==> r.headers[k] == client.headers[k]
  {
    var header := Pair("auth", cookie.auth);
    var header := if cookie.twoFactorAuth.Some? then header + "; " + Pair("twoFactorAuth", cookie.twoFactorAuth.value) else header;
    client.(userAgent := Agent, headers := client.headers["Cookie" := header])
  }

  /** Whatever client and cookie it is given, the helper as written never installs the cookie:
      a client without a `Cookie` header still has none. */
  lemma AsWrittenNeverSendsCookie(client: Client, cookie: Cookie)
    requires "Cookie" !in client.headers
    ensures "Cookie" !in SetupCookieClientAsWritten(client, cookie).0.headers
    ensures SetupCookieClientAsWritten(client, cookie).1.Failure?
  {
  }

  /** The corrected helper sends the header the vault builds from the same two values. */
  lemma SetupCookieMatchesVault(client: Client, cookie: SessionCookie)
    ensures SetupCookieClient(client, cookie).headers["Cookie"] == CookieVault.BuildHeader(Some(cookie.auth), cookie.twoFactorAuth)
  {
  }

  /** Read back as a cookie string, the installed header yields exactly the cookie's values. */
  lemma SetupCookieReadsBack(client: Client, cookie: SessionCookie)
    requires CookieVault.CookieValue(cookie.auth)
    requires cookie.twoFactorAuth.Some? ==> CookieVault.CookieValue(cookie.twoFactorAuth.value)
    ensures var jar := LoadLine(map[], SetupCookieClient(client, cookie).headers["Cookie"]);
            ValueOf(jar, "auth") == Some(cookie.auth) && ValueOf(jar, "twoFactorAuth") == cookie.twoFactorAuth
  {
    SetupCookieMatchesVault(client, cookie);
    CookieVault.BuildHeaderReadsBack(cookie.auth, cookie.twoFactorAuth);
  }

  /** For a legacy cookie, which has no second factor, the corrected helper sends the same header
      as `cookie_login` of the later legacy module. */
  lemma SetupCookieAgreesWithLegacy(client: Client, t: string)
    ensures SetupCookieClient(client, SessionCookie(t, None)).headers["Cookie"] == LegacyLogin.LegacyHeader(Cookie(JString(t)))
  {
  }
}
