/** What the new `login` promises, stated over its trace (vrchatapi_extensions/api/authentication/login.py). */
module LoginProperties {
  import opened Wrappers
  import opened Http
  import opened Payload
  import opened Errors
  import opened Store
  import opened Cipher
  import opened CookieVault
  import opened LoginData
  import opened Constants
  import opened Challenge
  import opened Session
  import opened TwoFactor
  import opened Login

  // ---- the retry envelope ----

  /** Every attempt reads the store exactly once, as its first step, and never waits. */
  lemma AttemptLoadsOnce(username: Option<string>, password: Option<string>, agent: string, io: Io, policy: SavePolicy)
    ensures var s := Attempt(username, password, agent, io, policy);
            Count(s.events, TLoad) == 1 && Count(s.events, TWait) == 0
  {
    var s := Attempt(username, password, agent, io, policy);
    AttemptTrace(username, password, agent, io, policy);
    assert s.events == [s.events[0]] + s.events[1..];
    CountConcat([s.events[0]], s.events[1..], TLoad);
    CountConcat([s.events[0]], s.events[1..], TWait);
    CountOne(Loaded, TLoad);
    CountOne(Loaded, TWait);
    InnerCounts(s.events[1..]);
  }

  /** Every wait in `es` lasts `RetryWait` seconds. */
  predicate WaitsAreRetryWait(es: seq<Event>) {
    forall i :: 0 <= i < |es| && es[i].Wait? ==> es[i].seconds == RetryWait
  }

  /** Gluing a failed attempt, one wait and the rest of the run. */
  lemma JoinAttempts(a: seq<Event>, rest: seq<Event>)
    requires Count(a, TLoad) == 1 && Count(a, TWait) == 0 && WaitsAreRetryWait(a) && WaitsAreRetryWait(rest)
    ensures Count(a + [Wait(RetryWait)] + rest, TLoad) == 1 + Count(rest, TLoad)
    ensures Count(a + [Wait(RetryWait)] + rest, TWait) == 1 + Count(rest, TWait)
    ensures WaitsAreRetryWait(a + [Wait(RetryWait)] + rest)
  {
    var mid := a + [Wait(RetryWait)];
    CountConcat(a, [Wait(RetryWait)], TLoad);
    CountConcat(a, [Wait(RetryWait)], TWait);
    CountConcat(mid, rest, TLoad);
    CountConcat(mid, rest, TWait);
    CountOne(Wait(RetryWait), TLoad);
    CountOne(Wait(RetryWait), TWait);
    var all := mid + rest;
    forall i | 0 <= i < |all| && all[i].Wait? ensures all[i].seconds == RetryWait {
      if i < |a| {
        assert all[i] == a[i];
      } else if i > |a| {
        assert all[i] == rest[i - |mid|];
      }
    }
  }

  /** An attempt never waits. */
  lemma AttemptNoWait(username: Option<string>, password: Option<string>, agent: string, io: Io, policy: SavePolicy)
    ensures WaitsAreRetryWait(Attempt(username, password, agent, io, policy).events)
  {
    var s := Attempt(username, password, agent, io, policy);
    AttemptLoadsOnce(username, password, agent, io, policy);
    NoWaits(s.events);
  }

  /** A trace without waits has no wait of another length. */
  lemma NoWaits(es: seq<Event>)
    requires Count(es, TWait) == 0
    ensures WaitsAreRetryWait(es)
  {
    CountZero(es, TWait);
  }

  /** One step of the retry envelope, in terms of the attempt's outcome. */
  lemma RetryStep(attempt: nat, username: Option<string>, password: Option<string>, agent: string,
                  io: Io, policy: SavePolicy, s: Step<LoginResponse>)
    requires 1 <= attempt <= RetryLimit
    requires s == Attempt(username, password, agent, io, policy)
    ensures s.result.Success? ==> Retry(attempt, username, password, agent, io, policy) == Run(Success(s.result.value), s.io, s.events)
    ensures s.result.Failure? && attempt == RetryLimit ==>
              Retry(attempt, username, password, agent, io, policy) == Run(Failure(RetryError(s.result.error)), s.io, s.events)
    ensures s.result.Failure? && attempt < RetryLimit ==>
              var rest := Retry(attempt + 1, username, password, agent, s.io, policy);
              Retry(attempt, username, password, agent, io, policy) == Run(rest.result, rest.io, s.events + [Wait(RetryWait)] + rest.events)
  {
  }

  /** From attempt number `attempt` on: at most the attempts left are made, each begins with its
      own store read, consecutive attempts are separated by one wait, every wait lasts
      `RetryWait` seconds, a failing run uses up every attempt, and the first success ends the run. */
  lemma {:induction false} RetryShape(attempt: nat, username: Option<string>, password: Option<string>, agent: string,
                                      io: Io, policy: SavePolicy)
    requires 1 <= attempt <= RetryLimit
    ensures var r := Retry(attempt, username, password, agent, io, policy);
            var loads := Count(r.events, TLoad);
            && 1 <= loads <= RetryLimit - attempt + 1
            && Count(r.events, TWait) == loads - 1
            && WaitsAreRetryWait(r.events)
            && (r.result.Failure? ==> loads == RetryLimit - attempt + 1)
    ensures var s := Attempt(username, password, agent, io, policy);
            s.result.Success? ==> Retry(attempt, username, password, agent, io, policy) == Run(Success(s.result.value), s.io, s.events)
    decreases RetryLimit - attempt
  {
    var s := Attempt(username, password, agent, io, policy);
    AttemptLoadsOnce(username, password, agent, io, policy);
    AttemptNoWait(username, password, agent, io, policy);
    RetryStep(attempt, username, password, agent, io, policy, s);
    if s.result.Failure? && attempt < RetryLimit {
      var rest := Retry(attempt + 1, username, password, agent, s.io, policy);
      RetryShape(attempt + 1, username, password, agent, s.io, policy);
      JoinAttempts(s.events, rest.events);
    }
  }

  /** `login` makes at most `LOGIN_RETRY_LIMIT` attempts, exactly that many when it fails, with
      one `LOGIN_RETRY_WAIT`-second wait between consecutive attempts; a first attempt that
      succeeds is the whole run. */
  lemma LoginAttempts(username: Option<string>, password: Option<string>, agent: string, io: Io, policy: SavePolicy)
    ensures var r := Login.Login(username, password, agent, io, policy);
            var loads := Count(r.events, TLoad);
            && 1 <= loads <= RetryLimit
            && Count(r.events, TWait) == loads - 1
            && WaitsAreRetryWait(r.events)
            && (r.result.Failure? ==> loads == RetryLimit)
    ensures var s := Attempt(username, password, agent, io, policy);
            s.result.Success? ==> Login.Login(username, password, agent, io, policy) == Run(Success(s.result.value), s.io, s.events)
  {
    RetryShape(1, username, password, agent, io, policy);
  }

  // ---- which path an attempt takes ----

  /** An attempt reads the store once and takes the cookie path exactly when a cookie file exists. */
  lemma AttemptDispatch(username: Option<string>, password: Option<string>, agent: string, io: Io, policy: SavePolicy)
    ensures io.world.file.Some? ==>
              var c := CookieLogin(agent, Load(io.world), io, policy);
              Attempt(username, password, agent, io, policy) == Step(c.result, c.io, [Loaded] + c.events)
    ensures io.world.file.None? ==>
              var m := ManualLogin(username, password, agent, io, policy);
              Attempt(username, password, agent, io, policy) == Step(m.result, m.io, [Loaded] + m.events)
  {
  }

  /** With a cookie file present the supplied credentials play no part: two calls that differ only
      in them behave identically. */
  lemma CookiePathIgnoresCredentials(u1: Option<string>, p1: Option<string>, u2: Option<string>, p2: Option<string>,
                                     agent: string, io: Io, policy: SavePolicy)
    requires io.world.file.Some?
    ensures Attempt(u1, p1, agent, io, policy) == Attempt(u2, p2, agent, io, policy)
  {
    AttemptDispatch(u1, p1, agent, io, policy);
    AttemptDispatch(u2, p2, agent, io, policy);
  }

  // ---- the cookie path ----

  /** The stored header is accepted: one request carrying it, no prompt, no write, the file untouched. */
  lemma CookieLoginAccepted(agent: string, vault: Vault, io: Io, policy: SavePolicy)
    requires SetConfiguration(vault, io.world, io.newKey).0.Success?
    requires |io.replies| > 0 && io.replies[0].Ok?
    ensures var (header, w) := SetConfiguration(vault, io.world, io.newKey);
            var s := CookieLogin(agent, vault, io, policy);
            && s.result == Success(io.replies[0].response)
            && s.events == [Fetch(agent, CookieHeader(header.value))]
            && s.io == io.(world := w, replies := io.replies[1..])
            && s.io.world.file == io.world.file
  {
  }

  /** The stored header is rejected: the run falls back to the manual path with nothing supplied,
      so the next steps are the two prompts and a request with what was typed. */
  lemma CookieLoginRejected(agent: string, vault: Vault, io: Io, policy: SavePolicy)
    requires SetConfiguration(vault, io.world, io.newKey).0.Success?
    requires |io.replies| > 0 && io.replies[0].Rejected?
    ensures var (header, w) := SetConfiguration(vault, io.world, io.newKey);
            var s := CookieLogin(agent, vault, io, policy);
            && |s.events| >= 2
            && s.events[0] == Fetch(agent, CookieHeader(header.value))
            && s.events[1] == Prompt(UsernameField)
            && (|io.inputs| >= 2 ==>
                  |s.events| >= 4 && s.events[2] == Prompt(PasswordField)
                  && s.events[3] == Fetch(agent, Basic(io.inputs[0], io.inputs[1])))
            && (|io.inputs| == 0 ==> s.result == Failure(EndOfInput))
  {
  }

  /** A dict saved by one run is what the next run's cookie path sends: its `auth` and
      `twoFactorAuth` strings, joined into one `Cookie` header. */
  lemma SavedBagIsSentNextTime(username: Option<string>, password: Option<string>, agent: string, io: Io,
                               policy: SavePolicy, d: Dict, saveKey: Key)
    requires IsCredentialBag(d)
    requires Save(io.world, PObject(d), saveKey).0.Success?
    requires |io.replies| > 0 && io.replies[0].Ok?
    ensures var w1 := Save(io.world, PObject(d), saveKey).1;
            var s := Attempt(username, password, agent, io.(world := w1), policy);
            && s.result == Success(io.replies[0].response)
            && s.events == [Loaded, Fetch(agent, CookieHeader(BuildHeader(Some(d[0].1.text), StringValue(Some(d[1].1)))))]
            && s.io.world == w1
  {
    var (v, w1) := Save(io.world, PObject(d), saveKey);
    var io1 := io.(world := w1);
    LoadAfterSave(io.world, PObject(d), saveKey);
    HeaderAfterSave(io.world, d, saveKey, io.newKey);
    BagLookup(d);
    AttemptDispatch(username, password, agent, io1, policy);
    CookieLoginAccepted(agent, v.value, io1, policy);
  }

  /** Reading a credential bag back by key finds the entries `extract` put there. */
  lemma BagLookup(d: Dict)
    requires IsCredentialBag(d)
    ensures Lookup(d, "auth") == Some(d[0].1)
    ensures Lookup(d, "twoFactorAuth") == Some(d[1].1)
  {
    assert "twoFactorAuth" != "auth";
  }

  // ---- the manual path ----

  /** A trace that only prompts for codes never asks for a username or a password. */
  lemma CodePromptsLack(es: seq<Event>)
    requires CodePromptsOnly(es)
    ensures Count(es, TPrompt(UsernameField)) == 0 && Count(es, TPrompt(PasswordField)) == 0
  {
    CountZero(es, TPrompt(UsernameField));
    CountZero(es, TPrompt(PasswordField));
  }

  /** The manual path prompts for the username only when none was supplied, and for the password
      only when none was supplied and the username step did not hit the end of input. */
  lemma ManualPrompts(username: Option<string>, password: Option<string>, agent: string, io: Io, policy: SavePolicy)
    ensures var s := ManualLogin(username, password, agent, io, policy);
            && Count(s.events, TPrompt(UsernameField)) == (if username.None? then 1 else 0)
            && Count(s.events, TPrompt(PasswordField)) == (if password.None? && (username.Some? || |io.inputs| > 0) then 1 else 0)
  {
    ManualPromptCount(username, password, agent, io, policy, UsernameField);
    ManualPromptCount(username, password, agent, io, policy, PasswordField);
  }

  /** How often the manual path prompts for one of the two fields. */
  lemma ManualPromptCount(username: Option<string>, password: Option<string>, agent: string, io: Io, policy: SavePolicy,
                          field: Field)
    requires field == UsernameField || field == PasswordField
    ensures var s := ManualLogin(username, password, agent, io, policy);
            Count(s.events, TPrompt(field)) ==
              if field == UsernameField then (if username.None? then 1 else 0)
              else (if password.None? && (username.Some? || |io.inputs| > 0) then 1 else 0)
  {
    var u := Supplied(username, io, UsernameField);
    SuppliedTrace(username, io, UsernameField);
    if u.result.Success? {
      var p := Supplied(password, u.io, PasswordField);
      SuppliedTrace(password, u.io, PasswordField);
      CountConcat(u.events, p.events, TPrompt(field));
      if p.result.Success? {
        var cred := Basic(u.result.value, p.result.value);
        var f := FirstFetch(agent, cred, p.io, policy);
        FirstFetchTrace(agent, cred, p.io, policy);
        CodePromptsLack(f.events);
        CountConcat(u.events + p.events, f.events, TPrompt(field));
      }
    }
  }


  /** The manual path authenticates with what was supplied or typed, username before password: once
      both are known every request carries them, and the first one follows the prompts directly.
      Running out of input first ends the attempt with no request. */
  lemma ManualCredentials(username: Option<string>, password: Option<string>, agent: string, io: Io, policy: SavePolicy)
    ensures var s := ManualLogin(username, password, agent, io, policy);
            var typed := (if username.None? then 1 else 0) + (if password.None? then 1 else 0);
            && (|io.inputs| >= typed ==>
                  var user := if username.Some? then username.value else io.inputs[0];
                  var pass := if password.Some? then password.value else io.inputs[typed - 1];
                  |s.events| > typed && s.events[typed] == Fetch(agent, Basic(user, pass))
                  && FetchesWith(s.events, agent, Basic(user, pass)))
            && (|io.inputs| < typed ==> s.result == Failure(EndOfInput) && Lacks(s.events, TFetch))
  {
    var s := ManualLogin(username, password, agent, io, policy);
    var u := Supplied(username, io, UsernameField);
    SuppliedTrace(username, io, UsernameField);
    if u.result.Success? {
      var p := Supplied(password, u.io, PasswordField);
      SuppliedTrace(password, u.io, PasswordField);
      ConcatLacks(u.events, p.events, TFetch);
      if p.result.Success? {
        var cred := Basic(u.result.value, p.result.value);
        var f := FirstFetch(agent, cred, p.io, policy);
        FirstFetchTrace(agent, cred, p.io, policy);
        FetchAfter(u.events + p.events, f.events, agent, cred);
        assert s.events == (u.events + p.events) + f.events;
      }
    }
  }

  /** The first request is accepted: the run succeeds with its response, and writes the store
      exactly when the response carried an `auth` cookie. */
  lemma ManualFirstAccepted(username: string, password: string, agent: string, io: Io, policy: SavePolicy)
    requires |io.replies| > 0 && io.replies[0].Ok?
    ensures var resp := io.replies[0].response;
            var bag := Extract(Some(resp.headers));
            var s := ManualLogin(Some(username), Some(password), agent, io, policy);
            var first := Fetch(agent, Basic(username, password));
            && (bag.None? ==> s == Step(Success(resp), io.(replies := io.replies[1..]), [first]))
            && (bag.Some? ==>
                  var (v, w) := Save(io.world, PObject(bag.value), io.newKey);
                  && s.events == [first, Saved(PObject(bag.value))]
                  && s.io.world == w
                  && (s.result.Success? <==> v.Success?)
                  && (s.result.Success? ==> s.result.value == resp))
  {
    assert [] + [] + [Fetch(agent, Basic(username, password))] == [Fetch(agent, Basic(username, password))];
  }

  // ---- the challenge branch ----

  /** With both values supplied the manual path is its first request and what follows it. */
  lemma ManualSupplied(username: string, password: string, agent: string, io: Io, policy: SavePolicy)
    ensures ManualLogin(Some(username), Some(password), agent, io, policy)
              == FirstFetch(agent, Basic(username, password), io, policy)
  {
    var f := FirstFetch(agent, Basic(username, password), io, policy);
    assert [] + [] + f.events == f.events;
  }

  /** A challenge whose reason names no known kind is the re-fetch alone, followed by the save
      when it is accepted. */
  lemma UnrecognisedChallenge(agent: string, cred: Credential, io: Io, reason: string, rejected: Option<Headers>,
                              policy: SavePolicy)
    requires Classify(reason).None?
    ensures var c := Challenged(agent, cred, io, reason, rejected, policy);
            var (reply, io1) := Call(io);
            && (reply.Ok? ==>
                  c.events == [Fetch(agent, cred)] + SaveChallengeBag(io1, ChallengeBag(reply.response.headers, rejected), policy).events)
            && (!reply.Ok? ==> c == Step(Failure(Raised(reply)), io1, [Fetch(agent, cred)]))
  {
    assert [] + [Fetch(agent, cred)] == [Fetch(agent, cred)];
  }

  /** A request, the same request again, then at most one write: two requests, and the trace
      opens with both. */
  lemma TwoFetches(e: Event, saved: seq<Event>)
    requires e.Fetch? && |saved| <= 1 && (|saved| == 1 ==> saved[0].Saved?)
    ensures Count([e] + ([e] + saved), TFetch) == 2
    ensures |[e] + ([e] + saved)| >= 2 && ([e] + ([e] + saved))[..2] == [e, e]
  {
    CountOne(e, TFetch);
    CountConcat([e], saved, TFetch);
    CountConcat([e], [e] + saved, TFetch);
    if |saved| == 1 {
      assert saved == [saved[0]];
      CountOne(saved[0], TFetch);
    }
  }

  /** A rejection whose reason names no known challenge still leads to exactly one more request
      with the same credentials, and a failure of that request is what the attempt raises. */
  lemma ChallengeUnrecognised(username: string, password: string, agent: string, io: Io, policy: SavePolicy)
    requires |io.replies| >= 2 && io.replies[0].Rejected? && Classify(io.replies[0].reason).None?
    ensures var s := ManualLogin(Some(username), Some(password), agent, io, policy);
            var cred := Basic(username, password);
            && |s.events| >= 2 && s.events[..2] == [Fetch(agent, cred), Fetch(agent, cred)]
            && Count(s.events, TFetch) == 2
            && (!io.replies[1].Ok? ==>
                  s == Step(Failure(Raised(io.replies[1])), io.(replies := io.replies[2..]), [Fetch(agent, cred), Fetch(agent, cred)]))
  {
    var cred := Basic(username, password);
    var first := Fetch(agent, cred);
    var io1 := io.(replies := io.replies[1..]);
    ManualSupplied(username, password, agent, io, policy);
    UnrecognisedChallenge(agent, cred, io1, io.replies[0].reason, io.replies[0].headers, policy);
    if io.replies[1].Ok? {
      var io2 := io1.(replies := io1.replies[1..]);
      var saved := SaveChallengeBag(io2, ChallengeBag(io.replies[1].response.headers, io.replies[0].headers), policy);
      TwoFetches(first, saved.events);
    } else {
      TwoFetches(first, []);
      assert [first] + [] == [first];
      assert [first] + [first] == [first, first];
    }
  }

  /** An email challenge: one code prompt, one call to the email endpoint with the typed code, then
      the request again with the same credentials. */
  lemma ChallengeEmail(username: string, password: string, agent: string, io: Io, policy: SavePolicy, prefix: string, suffix: string)
    requires |io.replies| >= 3 && io.replies[0].Rejected? && io.replies[0].reason == prefix + EmailPhrase + suffix
    requires io.replies[1].Ok?
    requires |io.inputs| > 0
    ensures var s := ManualLogin(Some(username), Some(password), agent, io, policy);
            var cred := Basic(username, password);
            |s.events| >= 4
            && s.events[..4] == [Fetch(agent, cred), Prompt(CodeField(EmailCode)), Verify(EmailCode, io.inputs[0]), Fetch(agent, cred)]
  {
    ClassifyEmailReason(prefix, suffix);
    var cred := Basic(username, password);
    var io1 := io.(replies := io.replies[1..]);
    var tf := Resolve(io1, io.replies[0].reason);
    var c := Challenged(agent, cred, io1, io.replies[0].reason, io.replies[0].headers, policy);
    assert c.events[..3] == tf.events + [Fetch(agent, cred)];
  }

  /** Once the second-factor step succeeds and the repeated request is accepted, the challenge
      branch is that step's events, the request, and the save. */
  lemma ChallengedAccepted(agent: string, cred: Credential, io: Io, reason: string, rejected: Option<Headers>, policy: SavePolicy)
    requires Resolve(io, reason).result.Success? && Call(Resolve(io, reason).io).0.Ok?
    ensures var tf := Resolve(io, reason);
            var (reply, io1) := Call(tf.io);
            var saved := SaveChallengeBag(io1, ChallengeBag(reply.response.headers, rejected), policy);
            var s := Challenged(agent, cred, io, reason, rejected, policy);
            && s.events == tf.events + [Fetch(agent, cred)] + saved.events
            && (s.result.Success? ==> s.result.value == reply.response)
  {
  }

  /** What the challenge branch writes once the repeated request is accepted. As written, it writes
      exactly once, the bag or `null`; saving only a found bag writes once or not at all. */
  lemma ChallengeSaves(agent: string, cred: Credential, io: Io, reason: string, rejected: Option<Headers>, policy: SavePolicy)
    requires Resolve(io, reason).result.Success? && Call(Resolve(io, reason).io).0.Ok?
    ensures var s := Challenged(agent, cred, io, reason, rejected, policy);
            var resp := Call(Resolve(io, reason).io).0.response;
            var bag := ChallengeBag(resp.headers, rejected);
            && (policy == AsWritten ==> Count(s.events, TSaved) == 1 && s.events[|s.events| - 1] == Saved(PayloadOf(bag)))
            && (policy == SkipMissing ==>
                  Count(s.events, TSaved) == (if bag.Some? then 1 else 0)
                  && (bag.Some? ==> s.events[|s.events| - 1] == Saved(PObject(bag.value))))
            && (s.result.Success? ==> s.result.value == resp)
  {
    var tf := Resolve(io, reason);
    var (reply, io1) := Call(tf.io);
    var saved := SaveChallengeBag(io1, ChallengeBag(reply.response.headers, rejected), policy);
    ChallengedAccepted(agent, cred, io, reason, rejected, policy);
    ResolveTrace(io, reason);
    WritesLast(tf.events, Fetch(agent, cred), saved.events);
  }

  // ---- the `save(None)` finding ----

  /** A first run (no cookie file, no key) whose credentials are rejected with an unrecognised
      reason and no cookie, then accepted without one. As written, the run succeeds but leaves the
      store holding `null`; saving only a found bag leaves the store as it was. */
  lemma ChallengeWithoutCookie(username: string, password: string, agent: string, io: Io, resp: LoginResponse)
    requires io.world == World(None, None)
    requires |io.replies| >= 2 && io.replies[0].Rejected? && Classify(io.replies[0].reason).None? && io.replies[0].headers.None?
    requires io.replies[1] == Ok(resp) && SetCookieEntry(resp.headers).None?
    ensures var cred := Basic(username, password);
            var s := Attempt(Some(username), Some(password), agent, io, AsWritten);
            && s.result == Success(resp)
            && s.events == [Loaded, Fetch(agent, cred), Fetch(agent, cred), Saved(PNull)]
            && HoldsNull(s.io.world)
    ensures var cred := Basic(username, password);
            Attempt(Some(username), Some(password), agent, io, SkipMissing)
              == Step(Success(resp), io.(replies := io.replies[2..]), [Loaded, Fetch(agent, cred), Fetch(agent, cred)])
  {
    var cred := Basic(username, password);
    var io2 := io.(replies := io.replies[2..]);
    assert ChallengeBag(resp.headers, None).None?;
    SaveNullHoldsNull(io2.world, io2.newKey);
    var c := Challenged(agent, cred, io.(replies := io.replies[1..]), io.replies[0].reason, None, AsWritten);
    assert c.events == [Fetch(agent, cred), Saved(PNull)];
  }

  /** Once the store holds `null`, every later `login` fails: each of the three attempts reads the
      store, finds no mapping, and makes no request, so the run ends in `RetryError` after two waits. */
  lemma PoisonedLogin(username: Option<string>, password: Option<string>, agent: string, io: Io, policy: SavePolicy)
    requires HoldsNull(io.world)
    ensures Login.Login(username, password, agent, io, policy)
              == Run(Failure(RetryError(NotAMapping)), io, [Loaded, Wait(RetryWait), Loaded, Wait(RetryWait), Loaded])
  {
    var s := Attempt(username, password, agent, io, policy);
    HoldsNullHeader(io.world, io.newKey);
    AttemptDispatch(username, password, agent, io, policy);
    assert s == Step(Failure(NotAMapping), io, [Loaded]);
    RetryStep(3, username, password, agent, io, policy, s);
    RetryStep(2, username, password, agent, io, policy, s);
    RetryStep(1, username, password, agent, io, policy, s);
  }

  /** Saving only a found bag, no `login` ever leaves the store holding `null`, so the lock-out
      above cannot arise from a store that did not already hold it. */
  lemma SkipMissingNeverPoisons(username: Option<string>, password: Option<string>, agent: string, io: Io)
    requires NoNullFile(io.world)
    ensures !HoldsNull(Login.Login(username, password, agent, io, SkipMissing).io.world)
    ensures SavesObjects(Login.Login(username, password, agent, io, SkipMissing).events)
  {
    var r := Login.Login(username, password, agent, io, SkipMissing);
    LoginTrace(username, password, agent, io, SkipMissing);
    if HoldsNull(r.io.world) {
      HoldsNullIsNull(r.io.world);
    }
  }
}
