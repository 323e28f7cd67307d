/** What the legacy login promises, stated over its trace (vrchatapi_extensions/utils/login_utils.py,
    vrchatapi_extensions/authentication/login.py). */
module LegacyLoginProperties {
  import opened Wrappers
  import opened Http
  import opened Payload
  import opened Errors
  import opened Store
  import opened CookieJar
  import opened LoginData
  import opened Constants
  import opened Challenge
  import opened Session
  import opened TwoFactor
  import opened LegacyCookie
  import opened LegacyLogin
  import CookieVault
  import Login
  import LoginProperties

  // ---- dispatch ----

  /** `Cookie.load()` runs once; no stored cookie selects the manual path with the caller's
      arguments, a stored one selects the cookie path, which never sees username or password. */
  lemma LegacyDispatch(username: Option<string>, password: Option<string>, agent: Option<string>, io: Io)
    ensures LoadFile(io.world.file) == Success(None) ==>
              var m := LegacyManualLogin(username, password, agent, io);
              LegacyLogin.LegacyLogin(username, password, agent, io) == Step(m.result, m.io, [Loaded] + m.events)
    ensures LoadFile(io.world.file).Success? && LoadFile(io.world.file).value.Some? ==>
              var c := LegacyCookieLogin(LoadFile(io.world.file).value.value, agent, io);
              LegacyLogin.LegacyLogin(username, password, agent, io) == Step(c.result, c.io, [Loaded] + c.events)
  {
  }

  /** With a readable stored cookie, the supplied credentials play no part. */
  lemma LegacyCookiePathIgnoresCredentials(u1: Option<string>, p1: Option<string>, u2: Option<string>, p2: Option<string>,
                                           agent: Option<string>, io: Io)
    requires LoadFile(io.world.file).Success? && LoadFile(io.world.file).value.Some?
    ensures LegacyLogin.LegacyLogin(u1, p1, agent, io) == LegacyLogin.LegacyLogin(u2, p2, agent, io)
  {
    LegacyDispatch(u1, p1, agent, io);
    LegacyDispatch(u2, p2, agent, io);
  }

  // ---- the cookie path ----

  /** The legacy header names `auth` alone: read back as a cookie string it gives the stored value
      and no `twoFactorAuth`. */
  lemma LegacyHeaderOnlyAuth(t: string)
    requires CookieVault.CookieValue(t)
    ensures var jar := LoadLine(map[], LegacyHeader(Cookie(JString(t))));
            ValueOf(jar, "auth") == Some(t) && ValueOf(jar, "twoFactorAuth").None?
  {
    CookieVault.AuthPiece(t);
    ReadOnePiece(Pair("auth", t), "auth");
    ReadOnePiece(Pair("auth", t), "twoFactorAuth");
  }

  /** The stored cookie is accepted: one request, the cookie handed back unchanged, nothing written. */
  lemma LegacyCookieAccepted(cookie: Cookie, agent: Option<string>, io: Io)
    requires |io.replies| > 0 && io.replies[0].Ok?
    ensures LegacyCookieLogin(cookie, agent, io)
              == Step(Success((io.replies[0].response.user, Some(cookie))), io.(replies := io.replies[1..]),
                      [Fetch(AgentOrDefault(agent), CookieHeader(LegacyHeader(cookie)))])
  {
  }

  /** Both values typed and the request with them accepted: the manual path is the two prompts
      followed by what the accepted answer leads to. */
  lemma LegacyTypedAccepted(a: string, io: Io)
    requires |a| > 0
    requires |io.replies| > 0 && io.replies[0].Ok? && |io.inputs| >= 2
    ensures var f := FirstAccepted(a, Basic(io.inputs[0], io.inputs[1]),
                                   io.(inputs := io.inputs[2..], replies := io.replies[1..]), io.replies[0].response);
            var m := LegacyManualLogin(None, None, Some(a), io);
            m == Step(f.result, f.io, [Prompt(UsernameField), Prompt(PasswordField)] + f.events)
  {
    assert AgentOrDefault(Some(a)) == a;
    assert io.inputs[1..][1..] == io.inputs[2..];
  }

  /** The stored cookie is rejected: the run is its request, then the manual path with the
      agent alone, whose returned cookie is saved again. */
  lemma LegacyCookieRejected(cookie: Cookie, agent: Option<string>, io: Io)
    requires |io.replies| > 0 && io.replies[0].Rejected?
    ensures var a := AgentOrDefault(agent);
            var m := Resave(LegacyManualLogin(None, None, Some(a), io.(replies := io.replies[1..])));
            LegacyCookieLogin(cookie, agent, io) == Step(m.result, m.io, [Fetch(a, CookieHeader(LegacyHeader(cookie)))] + m.events)
  {
  }

  /** The stored cookie is rejected, the user types a username and a password, and the request
      with them is accepted with a new cookie: that cookie is written twice, once by the manual
      path and once more by the cookie path, and it is what the call returns. */
  lemma LegacyCookieFallbackSavesTwice(cookie: Cookie, agent: Option<string>, io: Io)
    requires |io.replies| >= 2 && io.replies[0].Rejected? && io.replies[1].Ok?
    requires |io.inputs| >= 2
    requires Extract(Some(io.replies[1].response.headers)).Some?
    ensures var a := AgentOrDefault(agent);
            var resp := io.replies[1].response;
            var c := Extract(Some(resp.headers)).value;
            var s := LegacyCookieLogin(cookie, agent, io);
            && s.result == Success((resp.user, Some(c)))
            && s.events == [Fetch(a, CookieHeader(LegacyHeader(cookie))), Prompt(UsernameField), Prompt(PasswordField),
                            Fetch(a, Basic(io.inputs[0], io.inputs[1])), Saved(PObject(Json(c))), Saved(PObject(Json(c)))]
            && s.io.world.file == Some(SaveFile(c))
  {
    var a := AgentOrDefault(agent);
    var io1 := io.(replies := io.replies[1..]);
    var resp := io.replies[1].response;
    var c := Extract(Some(resp.headers)).value;
    var cred := Basic(io.inputs[0], io.inputs[1]);
    var f := FirstAccepted(a, cred, io1.(inputs := io1.inputs[2..], replies := io1.replies[1..]), resp);
    LegacyTypedAccepted(a, io1);
    LegacyCookieRejected(cookie, agent, io);
    assert f.events == [Fetch(a, cred), Saved(PObject(Json(c)))];
    JoinTwoTwo(Prompt(UsernameField), Prompt(PasswordField), Fetch(a, cred), Saved(PObject(Json(c))));
    var m := LegacyManualLogin(None, None, Some(a), io1);
    var r := Resave(m);
    assert r.events == m.events + [Saved(PObject(Json(c)))];
    JoinOneFourOne(Fetch(a, CookieHeader(LegacyHeader(cookie))), Prompt(UsernameField), Prompt(PasswordField),
                   Fetch(a, cred), Saved(PObject(Json(c))), Saved(PObject(Json(c))));
  }

  // ---- the manual path ----

  /** The legacy manual path prompts for the username only when none was supplied, and for the
      password only when none was supplied and the username step did not hit the end of input. */
  lemma LegacyManualPrompts(username: Option<string>, password: Option<string>, agent: Option<string>, io: Io)
    ensures var s := LegacyManualLogin(username, password, agent, io);
            && Count(s.events, TPrompt(UsernameField)) == (if username.None? then 1 else 0)
            && Count(s.events, TPrompt(PasswordField)) == (if password.None? && (username.Some? || |io.inputs| > 0) then 1 else 0)
  {
    LegacyPromptCount(username, password, agent, io, UsernameField);
    LegacyPromptCount(username, password, agent, io, PasswordField);
  }

  /** How often the legacy manual path prompts for one of the two fields. */
  lemma LegacyPromptCount(username: Option<string>, password: Option<string>, agent: Option<string>, io: Io, field: Field)
    requires field == UsernameField || field == PasswordField
    ensures var s := LegacyManualLogin(username, password, agent, io);
            Count(s.events, TPrompt(field)) ==
              if field == UsernameField then (if username.None? then 1 else 0)
              else (if password.None? && (username.Some? || |io.inputs| > 0) then 1 else 0)
  {
    var u := Login.Supplied(username, io, UsernameField);
    Login.SuppliedTrace(username, io, UsernameField);
    if u.result.Success? {
      var p := Login.Supplied(password, u.io, PasswordField);
      Login.SuppliedTrace(password, u.io, PasswordField);
      CountConcat(u.events, p.events, TPrompt(field));
      if p.result.Success? {
        var a := AgentOrDefault(agent);
        var cred := Basic(u.result.value, p.result.value);
        var rest := LegacyFetch(a, cred, p.io).events;
        LegacyFetchTrace(a, cred, p.io);
        LoginProperties.CodePromptsLack(rest);
        CountConcat(u.events + p.events, rest, TPrompt(field));
      }
    }
  }


  /** The first request is accepted: the user comes back with whatever `extract` found, and the
      file is written exactly when it found a cookie. The agent defaults when none is given. */
  lemma LegacyManualFirstAccepted(username: string, password: string, agent: Option<string>, io: Io)
    requires |io.replies| > 0 && io.replies[0].Ok?
    ensures var resp := io.replies[0].response;
            var found := Extract(Some(resp.headers));
            var s := LegacyManualLogin(Some(username), Some(password), agent, io);
            var first := Fetch(AgentOrDefault(agent), Basic(username, password));
            && s.result == Success((resp.user, found))
            && (found.None? ==> s.events == [first] && s.io.world == io.world)
            && (found.Some? ==> s.events == [first, Saved(PObject(Json(found.value)))]
                                && s.io.world.file == Some(SaveFile(found.value)))
  {
    assert [] + [] + [Fetch(AgentOrDefault(agent), Basic(username, password))] == [Fetch(AgentOrDefault(agent), Basic(username, password))];
  }

  /** A cookie the manual path saved is what the next legacy login loads and sends. */
  lemma LegacySavedCookieIsSentNextTime(username: Option<string>, password: Option<string>, agent: Option<string>,
                                        io: Io, c: Cookie)
    requires |io.replies| > 0 && io.replies[0].Ok?
    ensures var io1 := io.(world := io.world.(file := Some(SaveFile(c))));
            var s := LegacyLogin.LegacyLogin(username, password, agent, io1);
            && s.result == Success((io.replies[0].response.user, Some(c)))
            && s.events == [Loaded, Fetch(AgentOrDefault(agent), CookieHeader(LegacyHeader(c)))]
  {
    var io1 := io.(world := io.world.(file := Some(SaveFile(c))));
    LegacyCookie.LoadAfterSave(c);
    LegacyDispatch(username, password, agent, io1);
    LegacyCookieAccepted(c, agent, io1);
  }

  // ---- the challenge branch ----

  /** A rejection with an unrecognised reason still leads to one more request with the same
      credentials; when that request succeeds but neither it nor the rejection carried a cookie,
      `cookie.save()` on None raises, nothing is written, and the login is lost. */
  lemma LegacyChallengeWithoutCookie(username: string, password: string, agent: Option<string>, io: Io)
    requires |io.replies| >= 2 && io.replies[0].Rejected? && Classify(io.replies[0].reason).None?
    requires io.replies[1].Ok?
    requires Extract(Some(io.replies[1].response.headers)).None? && Extract(io.replies[0].headers).None?
    ensures var a := AgentOrDefault(agent);
            var cred := Basic(username, password);
            LegacyManualLogin(Some(username), Some(password), agent, io)
              == Step(Failure(NoCookieToSave), io.(replies := io.replies[2..]), [Fetch(a, cred), Fetch(a, cred)])
  {
  }

  /** An email challenge: one code prompt, one call to the email endpoint with the typed code,
      then the request again with the same credentials. */
  lemma LegacyChallengeEmail(username: string, password: string, agent: Option<string>, io: Io, prefix: string, suffix: string)
    requires |io.replies| >= 3 && io.replies[0].Rejected? && io.replies[0].reason == prefix + EmailPhrase + suffix
    requires io.replies[1].Ok?
    requires |io.inputs| > 0
    ensures var s := LegacyManualLogin(Some(username), Some(password), agent, io);
            var a := AgentOrDefault(agent);
            var cred := Basic(username, password);
            |s.events| >= 4
            && s.events[..4] == [Fetch(a, cred), Prompt(CodeField(EmailCode)), Verify(EmailCode, io.inputs[0]), Fetch(a, cred)]
  {
    ClassifyEmailReason(prefix, suffix);
    var a := AgentOrDefault(agent);
    var cred := Basic(username, password);
    var io1 := io.(replies := io.replies[1..]);
    var tf := Resolve(io1, io.replies[0].reason);
    var c := LegacyChallenged(a, cred, io1, io.replies[0].reason, io.replies[0].headers);
    assert c.events[..3] == tf.events + [Fetch(a, cred)];
  }
}
