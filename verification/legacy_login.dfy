/** The legacy login (vrchatapi_extensions/utils/login_utils.py and the dispatcher
    vrchatapi_extensions/authentication/login.py), over the plain-JSON cookie of `LegacyCookie`.

    There is no retry envelope and no encryption: the cookie file holds the serialized `json` of a
    `Cookie`, and both paths return the user together with the cookie they ended with. */
module LegacyLogin {
  import opened Wrappers
  import opened Http
  import opened Payload
  import opened Errors
  import opened Store
  import opened CookieJar
  import opened LoginData
  import opened Constants
  import opened Challenge
  import opened Session
  import opened TwoFactor
  import opened LegacyCookie
  import Login

  /** What a legacy login returns: the user and the cookie, if any. */
  type Outcome = (User, Option<Cookie>)

  /** `cookie.save()`: the file is overwritten with the cookie's JSON. Errors from `open` and the
      write are not modelled, so here it always succeeds. */
  function SaveCookie(io: Io, c: Cookie): (s: Step<()>)
    ensures s == Step(Success(()), io.(world := io.world.(file := Some(SaveFile(c)))), [Saved(PObject(Json(c)))])
  {
    Step(Success(()), io.(world := io.world.(file := Some(SaveFile(c)))), [Saved(PObject(Json(c)))])
  }

  /** The cookie the challenge branch saves: from the new response, else from the rejection. */
  function ChallengeCookie(headers: Headers, rejected: Option<Headers>): (c: Option<Cookie>)
    ensures Extract(Some(headers)).Some? ==> c == Extract(Some(headers))
    ensures Extract(Some(headers)).None? ==> c == Extract(rejected)
  {
    if Extract(Some(headers)).Some? then Extract(Some(headers)) else Extract(rejected)
  }

  /** The `except UnauthorizedException` branch of `manual_login`: the second-factor step, one
      re-fetch, then `cookie.save()` on the cookie from the new response or else from the
      rejection, which raises when both are None. */
  function LegacyChallenged(agent: string, cred: Credential, io: Io, reason: string, rejected: Option<Headers>): (s: Step<Outcome>)
    ensures s.io.newKey == io.newKey && s.io.world.keyring == io.world.keyring
  {
    var tf := Resolve(io, reason);
    if tf.result.Failure? then Step(Failure(tf.result.error), tf.io, tf.events)
    else
      var (reply, io1) := Call(tf.io);
      var fetched := tf.events + [Fetch(agent, cred)];
      match reply
      case Ok(resp) =>
        var cookie := ChallengeCookie(resp.headers, rejected);
        if cookie.None? then Step(Failure(NoCookieToSave), io1, fetched)
        else
          var saved := SaveCookie(io1, cookie.value);
          Step(Success((resp.user, cookie)), saved.io, fetched + saved.events)
      case _ => Step(Failure(Raised(reply)), io1, fetched)
  }

  /** The `try` block of `manual_login` after an accepted request: the cookie is saved when
      `extract` finds one, and returned either way. */
  function FirstAccepted(agent: string, cred: Credential, io: Io, resp: LoginResponse): (s: Step<Outcome>)
    ensures s.io.newKey == io.newKey && s.io.world.keyring == io.world.keyring
    ensures s.result == Success((resp.user, Extract(Some(resp.headers))))
    ensures Extract(Some(resp.headers)).None? ==> s.io == io && s.events == [Fetch(agent, cred)]
    ensures Extract(Some(resp.headers)).Some? ==>
              s == Step(s.result, SaveCookie(io, Extract(Some(resp.headers)).value).io,
                        [Fetch(agent, cred), Saved(PObject(Json(Extract(Some(resp.headers)).value)))])
  {
    var cookie := Extract(Some(resp.headers));
    if cookie.None? then Step(Success((resp.user, None)), io, [Fetch(agent, cred)])
    else
      var saved := SaveCookie(io, cookie.value);
      Step(Success((resp.user, cookie)), saved.io, [Fetch(agent, cred)] + saved.events)
  }

  /** The `try` block of `manual_login`: the current-user request and what follows it. */
  function LegacyFetch(agent: string, cred: Credential, io: Io): (s: Step<Outcome>)
    ensures |s.events| > 0 && s.events[0] == Fetch(agent, cred)
    ensures s.io.newKey == io.newKey && s.io.world.keyring == io.world.keyring
  {
    var (reply, io1) := Call(io);
    match reply
    case Ok(resp) => FirstAccepted(agent, cred, io1, resp)
    case Rejected(reason, rejected) =>
      var c := LegacyChallenged(agent, cred, io1, reason, rejected);
      Step(c.result, c.io, [Fetch(agent, cred)] + c.events)
    case Broken(message) => Step(Failure(ApiFailure(message)), io1, [Fetch(agent, cred)])
  }

  /** `manual_login(username, password, agent)`. */
  function LegacyManualLogin(username: Option<string>, password: Option<string>, agent: Option<string>, io: Io): (s: Step<Outcome>)
    ensures s.io.newKey == io.newKey && s.io.world.keyring == io.world.keyring
  {
    var a := AgentOrDefault(agent);
    var u := Login.Supplied(username, io, UsernameField);
    if u.result.Failure? then Step(Failure(u.result.error), u.io, u.events)
    else
      var p := Login.Supplied(password, u.io, PasswordField);
      if p.result.Failure? then Step(Failure(p.result.error), p.io, u.events + p.events)
      else
        var rest := LegacyFetch(a, Basic(u.result.value, p.result.value), p.io);
        Step(rest.result, rest.io, u.events + p.events + rest.events)
  }

  /** The header `cookie_login` sends: `auth=` and the stored value as Python formats it. */
  function LegacyHeader(c: Cookie): string {
    Pair("auth", Display(c.auth))
  }

  /** `str(value)` for the JSON values a loaded cookie may hold. */
  function Display(v: JsonValue): string {
    match v
    case JNull => "None"
    case JString(t) => t
  }

  /** `if cookie is not None: cookie.save()` after the fallback: a returned cookie is written again. */
  function Resave(m: Step<Outcome>): (s: Step<Outcome>)
    ensures s.result == m.result
    ensures m.result.Success? && m.result.value.1.Some? ==>
              s.io == SaveCookie(m.io, m.result.value.1.value).io && s.events == m.events + [Saved(PObject(Json(m.result.value.1.value)))]
    ensures m.result.Failure? || m.result.value.1.None? ==> s == m
  {
    if m.result.Failure? || m.result.value.1.None? then m
    else
      var saved := SaveCookie(m.io, m.result.value.1.value);
      Step(m.result, saved.io, m.events + saved.events)
  }

  /** `cookie_login(cookie, agent)`: one request with the cookie's header; a rejection falls back to
      `manual_login(agent=agent)` and saves the cookie it returns once more. */
  function LegacyCookieLogin(cookie: Cookie, agent: Option<string>, io: Io): (s: Step<Outcome>)
    ensures |s.events| > 0 && s.events[0] == Fetch(AgentOrDefault(agent), CookieHeader(LegacyHeader(cookie)))
  {
    var a := AgentOrDefault(agent);
    var (reply, io1) := Call(io);
    var fetched := [Fetch(a, CookieHeader(LegacyHeader(cookie)))];
    match reply
    case Ok(resp) => Step(Success((resp.user, Some(cookie))), io1, fetched)
    case Rejected(_, _) =>
      var m := Resave(LegacyManualLogin(None, None, Some(a), io1));
      Step(m.result, m.io, fetched + m.events)
    case Broken(message) => Step(Failure(ApiFailure(message)), io1, fetched)
  }

  /** `login(username, password, agent)`: `Cookie.load()` once, then the manual path without a
      stored cookie and the cookie path with one. A file `load` cannot read raises. */
  function LegacyLogin(username: Option<string>, password: Option<string>, agent: Option<string>, io: Io): (s: Step<Outcome>)
    ensures |s.events| > 0 && s.events[0] == Loaded
    ensures LoadFile(io.world.file).Failure? ==> s == Step(Failure(LoadFile(io.world.file).error), io, [Loaded])
  {
    var loaded := LoadFile(io.world.file);
    var s := (
      match loaded
      case Failure(e) => Step(Failure(e), io, [])
      case Success(None) => LegacyManualLogin(username, password, agent, io)
      case Success(Some(c)) => LegacyCookieLogin(c, agent, io));
    Step(s.result, s.io, [Loaded] + s.events)
  }

  // ---- what the traces contain ----

  /** The challenge branch stays inside the login, writes only cookie objects, requests only with
      the credential it was given and prompts only for codes. */
  lemma LegacyChallengedTrace(agent: string, cred: Credential, io: Io, reason: string, rejected: Option<Headers>)
    ensures var s := LegacyChallenged(agent, cred, io, reason, rejected);
            && Inner(s.events) && SavesObjects(s.events)
            && FetchesWith(s.events, agent, cred) && CodePromptsOnly(s.events)
  {
    var tf := Resolve(io, reason);
    ResolveTrace(io, reason);
    if tf.result.Success? {
      var (reply, io1) := Call(tf.io);
      var fetched := tf.events + [Fetch(agent, cred)];
      OneRequest(agent, cred);
      ConcatInner(tf.events, [Fetch(agent, cred)], true);
      ConcatRequests(tf.events, [Fetch(agent, cred)], agent, cred);
      if reply.Ok? {
        var cookie := ChallengeCookie(reply.response.headers, rejected);
        if cookie.Some? {
          var saved := SaveCookie(io1, cookie.value);
          TraceOne(Saved(PObject(Json(cookie.value))));
          SavesOnly(saved.events, agent, cred);
          ConcatInner(fetched, saved.events, true);
          ConcatRequests(fetched, saved.events, agent, cred);
        }
      }
    }
  }

  /** The request that follows the prompts, and what an accepted or challenged answer leads to,
      stay inside the login, write only cookie objects, request only with `cred` and prompt only
      for codes. */
  lemma LegacyFetchTrace(agent: string, cred: Credential, io: Io)
    ensures var s := LegacyFetch(agent, cred, io);
            && Inner(s.events) && SavesObjects(s.events)
            && FetchesWith(s.events, agent, cred) && CodePromptsOnly(s.events)
  {
    var (reply, io1) := Call(io);
    OneRequest(agent, cred);
    match reply
    case Ok(resp) =>
      var cookie := Extract(Some(resp.headers));
      if cookie.Some? {
        var saved := SaveCookie(io1, cookie.value);
        TraceOne(Saved(PObject(Json(cookie.value))));
        SavesOnly(saved.events, agent, cred);
        ConcatInner([Fetch(agent, cred)], saved.events, true);
        ConcatRequests([Fetch(agent, cred)], saved.events, agent, cred);
        assert FirstAccepted(agent, cred, io1, resp).events == [Fetch(agent, cred)] + saved.events;
      }
    case Rejected(reason, rejected) =>
      var c := LegacyChallenged(agent, cred, io1, reason, rejected);
      LegacyChallengedTrace(agent, cred, io1, reason, rejected);
      ConcatInner([Fetch(agent, cred)], c.events, true);
      ConcatRequests([Fetch(agent, cred)], c.events, agent, cred);
    case Broken(_) =>
  }

  /** The manual path stays inside the login and writes only cookie objects. */
  lemma LegacyManualLoginTrace(username: Option<string>, password: Option<string>, agent: Option<string>, io: Io)
    ensures var s := LegacyManualLogin(username, password, agent, io);
            Inner(s.events) && SavesObjects(s.events)
  {
    var u := Login.Supplied(username, io, UsernameField);
    Login.SuppliedTrace(username, io, UsernameField);
    if u.result.Success? {
      var p := Login.Supplied(password, u.io, PasswordField);
      Login.SuppliedTrace(password, u.io, PasswordField);
      ConcatInner(u.events, p.events, true);
      if p.result.Success? {
        var a := AgentOrDefault(agent);
        var cred := Basic(u.result.value, p.result.value);
        var rest := LegacyFetch(a, cred, p.io);
        LegacyFetchTrace(a, cred, p.io);
        ConcatInner(u.events + p.events, rest.events, true);
      }
    }
  }

  /** Writing the returned cookie again keeps a trace inside the login and writing only objects. */
  lemma ResaveTrace(m: Step<Outcome>)
    requires Inner(m.events) && SavesObjects(m.events)
    ensures Inner(Resave(m).events) && SavesObjects(Resave(m).events)
  {
    if m.result.Success? && m.result.value.1.Some? {
      var c := m.result.value.1.value;
      TraceOne(Saved(PObject(Json(c))));
      ConcatInner(m.events, [Saved(PObject(Json(c)))], true);
    }
  }

  /** The cookie path stays inside the login and writes only cookie objects. */
  lemma LegacyCookieLoginTrace(cookie: Cookie, agent: Option<string>, io: Io)
    ensures var s := LegacyCookieLogin(cookie, agent, io);
            Inner(s.events) && SavesObjects(s.events)
  {
    var a := AgentOrDefault(agent);
    var (reply, io1) := Call(io);
    var fetched := [Fetch(a, CookieHeader(LegacyHeader(cookie)))];
    OneRequest(a, CookieHeader(LegacyHeader(cookie)));
    if reply.Rejected? {
      var m0 := LegacyManualLogin(None, None, Some(a), io1);
      LegacyManualLoginTrace(None, None, Some(a), io1);
      ResaveTrace(m0);
      ConcatInner(fetched, Resave(m0).events, true);
    }
  }

  /** After its one `Cookie.load()` the legacy login reads nothing more, and every write it makes
      is a cookie object. */
  lemma LegacyLoginTrace(username: Option<string>, password: Option<string>, agent: Option<string>, io: Io)
    ensures var s := LegacyLogin(username, password, agent, io);
            Inner(s.events[1..]) && SavesObjects(s.events)
  {
    var loaded := LoadFile(io.world.file);
    var s := (
      match loaded
      case Failure(e) => Step(Failure(e), io, [])
      case Success(None) => LegacyManualLogin(username, password, agent, io)
      case Success(Some(c)) => LegacyCookieLogin(c, agent, io));
    if loaded.Success? && loaded.value.None? {
      LegacyManualLoginTrace(username, password, agent, io);
    } else if loaded.Success? {
      LegacyCookieLoginTrace(loaded.value.value, agent, io);
    }
    assert ([Loaded] + s.events)[1..] == s.events;
    TraceOne(Loaded);
    ConcatSaves([Loaded], s.events, true);
  }
}
