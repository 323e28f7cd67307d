/** `login` and its private helpers (vrchatapi_extensions/api/authentication/login.py).

    One attempt builds a vault, loads it once, and takes the cookie path when the vault is active
    and the manual path otherwise; the retry envelope runs up to `RetryLimit` attempts with a
    `RetryWait`-second pause between two of them. */
module Login {
  import opened Wrappers
  import opened Http
  import opened Payload
  import opened Errors
  import opened Store
  import opened CookieVault
  import opened LoginData
  import opened Constants
  import opened Challenge
  import opened Session
  import opened TwoFactor

  /** What the challenge branch does when neither the new response nor the rejection carried a
      cookie: `AsWritten` calls `vault.save(None)` as the source does, `SkipMissing` saves only a
      bag that was found, like the first-fetch branch. */
  datatype SavePolicy = AsWritten | SkipMissing

  /** The payload `vault.save(bag)` serializes: the bag, or `null` for None. */
  function PayloadOf(bag: Option<Dict>): (p: Payload)
    ensures p.PObject? <==> bag.Some?
  {
    if bag.Some? then PObject(bag.value) else PNull
  }

  /** `vault.save(bag)`: one write to the store, failing only when the keyring is unusable. */
  function SaveBag(io: Io, bag: Option<Dict>): (s: Step<()>)
    ensures s.events == [Saved(PayloadOf(bag))]
    ensures s.io.replies == io.replies && s.io.inputs == io.inputs && s.io.newKey == io.newKey
    ensures s.result.Success? <==> Save(io.world, PayloadOf(bag), io.newKey).0.Success?
    ensures s.io.world == Save(io.world, PayloadOf(bag), io.newKey).1
    ensures s.result.Failure? ==> s.io.world == io.world
  {
    var (v, w) := Save(io.world, PayloadOf(bag), io.newKey);
    Step(if v.Success? then Success(()) else Failure(v.error), io.(world := w), [Saved(PayloadOf(bag))])
  }

  /** `if cookie is not None: vault.save(cookie)`. */
  function SaveIfFound(io: Io, bag: Option<Dict>): (s: Step<()>)
    ensures bag.None? ==> s == Step(Success(()), io, [])
    ensures bag.Some? ==> s == SaveBag(io, bag)
    ensures |s.events| <= 1 && (|s.events| == 1 ==> s.events[0].Saved?)
    ensures s.io.newKey == io.newKey
  {
    if bag.Some? then SaveBag(io, bag) else Step(Success(()), io, [])
  }

  /** The challenge branch's `vault.save(cookie)` under either policy. */
  function SaveChallengeBag(io: Io, bag: Option<Dict>, policy: SavePolicy): (s: Step<()>)
    ensures |s.events| <= 1 && (|s.events| == 1 ==> s.events[0].Saved?)
    ensures s.io.newKey == io.newKey
  {
    if policy == AsWritten then SaveBag(io, bag) else SaveIfFound(io, bag)
  }

  /** The bag the challenge branch saves: from the new response, else from the rejection. */
  function ChallengeBag(headers: Headers, rejected: Option<Headers>): (bag: Option<Dict>)
    ensures Extract(Some(headers)).Some? ==> bag == Extract(Some(headers))
    ensures Extract(Some(headers)).None? ==> bag == Extract(rejected)
    ensures bag.Some? ==> IsCredentialBag(bag.value)
  {
    if Extract(Some(headers)).Some? then Extract(Some(headers)) else Extract(rejected)
  }

  /** `x if x is not None else input(...)`: a supplied value, or a prompted one. */
  function Supplied(given: Option<string>, io: Io, field: Field): (s: Step<string>)
    ensures given.Some? ==> s == Step(Success(given.value), io, [])
    ensures given.None? ==> s == Ask(io, field)
  {
    if given.Some? then Step(Success(given.value), io, []) else Ask(io, field)
  }

  /** The `UnauthorizedException` branch of `__manual_login`: the second-factor step, one
      re-fetch whose failure is not caught, then the challenge save. */
  function Challenged(agent: string, cred: Credential, io: Io, reason: string, rejected: Option<Headers>,
                      policy: SavePolicy): (s: Step<LoginResponse>)
    ensures s.io.newKey == io.newKey
  {
    var tf := Resolve(io, reason);
    if tf.result.Failure? then Step(Failure(tf.result.error), tf.io, tf.events)
    else
      var (reply, io1) := Call(tf.io);
      var fetched := tf.events + [Fetch(agent, cred)];
      match reply
      case Ok(resp) =>
        var saved := SaveChallengeBag(io1, ChallengeBag(resp.headers, rejected), policy);
        Step(if saved.result.Success? then Success(resp) else Failure(saved.result.error), saved.io, fetched + saved.events)
      case _ => Step(Failure(Raised(reply)), io1, fetched)
  }

  /** The `try` block of `__manual_login`: the current-user request and, on success, the save of
      the bag extracted from its headers. */
  function FirstFetch(agent: string, cred: Credential, io: Io, policy: SavePolicy): (s: Step<LoginResponse>)
    ensures |s.events| > 0 && s.events[0] == Fetch(agent, cred)
    ensures s.io.newKey == io.newKey
  {
    var (reply, io1) := Call(io);
    match reply
    case Ok(resp) =>
      var saved := SaveIfFound(io1, Extract(Some(resp.headers)));
      Step(if saved.result.Success? then Success(resp) else Failure(saved.result.error), saved.io, [Fetch(agent, cred)] + saved.events)
    case Rejected(reason, rejected) =>
      var c := Challenged(agent, cred, io1, reason, rejected, policy);
      Step(c.result, c.io, [Fetch(agent, cred)] + c.events)
    case Broken(message) => Step(Failure(ApiFailure(message)), io1, [Fetch(agent, cred)])
  }

  /** `__manual_login(username, password, agent, vault)`. */
  function ManualLogin(username: Option<string>, password: Option<string>, agent: string, io: Io,
                       policy: SavePolicy): (s: Step<LoginResponse>)
    ensures s.io.newKey == io.newKey
  {
    var u := Supplied(username, io, UsernameField);
    if u.result.Failure? then Step(Failure(u.result.error), u.io, u.events)
    else
      var p := Supplied(password, u.io, PasswordField);
      if p.result.Failure? then Step(Failure(p.result.error), p.io, u.events + p.events)
      else
        var f := FirstFetch(agent, Basic(u.result.value, p.result.value), p.io, policy);
        Step(f.result, f.io, u.events + p.events + f.events)
  }

  /** `__cookie_login(agent, vault)`: the vault's header is installed before the one request; a
      rejection falls back to `__manual_login` with no credentials. */
  function CookieLogin(agent: string, vault: Vault, io: Io, policy: SavePolicy): (s: Step<LoginResponse>)
    ensures s.io.newKey == io.newKey
  {
    var (header, w) := SetConfiguration(vault, io.world, io.newKey);
    if header.Failure? then Step(Failure(header.error), io.(world := w), [])
    else
      var (reply, io1) := Call(io.(world := w));
      var fetched := [Fetch(agent, CookieHeader(header.value))];
      match reply
      case Ok(resp) => Step(Success(resp), io1, fetched)
      case Rejected(_, _) =>
        var m := ManualLogin(None, None, agent, io1, policy);
        Step(m.result, m.io, fetched + m.events)
      case Broken(message) => Step(Failure(ApiFailure(message)), io1, fetched)
  }

  /** The body of `login`: a fresh vault, one `load`, then the path the vault selects. */
  function Attempt(username: Option<string>, password: Option<string>, agent: string, io: Io,
                   policy: SavePolicy): (s: Step<LoginResponse>)
    ensures |s.events| > 0 && s.events[0] == Loaded
    ensures s.io.newKey == io.newKey
  {
    var vault := Load(io.world);
    var s := if vault.IsActive() then CookieLogin(agent, vault, io, policy)
             else ManualLogin(username, password, agent, io, policy);
    Step(s.result, s.io, [Loaded] + s.events)
  }

  /** tenacity's `RetryError`, wrapping the failure of the last attempt. */
  datatype RetryError = RetryError(lastAttempt: Error)

  datatype Run = Run(result: Result<LoginResponse, RetryError>, io: Io, events: seq<Event>)

  /** The retry envelope from attempt number `attempt` on: any failure is retried after a wait,
      up to `RetryLimit` attempts; the first success ends the run. */
  function Retry(attempt: nat, username: Option<string>, password: Option<string>, agent: string, io: Io,
                 policy: SavePolicy): (r: Run)
    requires 1 <= attempt <= RetryLimit
    ensures r.io.newKey == io.newKey
    decreases RetryLimit - attempt
  {
    var s := Attempt(username, password, agent, io, policy);
    if s.result.Success? then Run(Success(s.result.value), s.io, s.events)
    else if attempt == RetryLimit then Run(Failure(RetryError(s.result.error)), s.io, s.events)
    else
      var rest := Retry(attempt + 1, username, password, agent, s.io, policy);
      Run(rest.result, rest.io, s.events + [Wait(RetryWait)] + rest.events)
  }

  /** `login(username, password, agent)`. */
  function Login(username: Option<string>, password: Option<string>, agent: string, io: Io,
                 policy: SavePolicy): (r: Run)
    ensures r.io.newKey == io.newKey
  {
    Retry(1, username, password, agent, io, policy)
  }

  // ---- what the traces contain ----

  /** A found bag is written as a mapping and nothing else happens; a file no key decrypts to
      `null` stays so. */
  lemma SaveIfFoundTrace(io: Io, bag: Option<Dict>)
    ensures var s := SaveIfFound(io, bag);
            && Inner(s.events) && SavesObjects(s.events)
            && (NoNullFile(io.world) ==> NoNullFile(s.io.world))
  {
    if bag.Some? {
      SaveObjectNoNull(io.world, bag.value, io.newKey);
      TraceOne(Saved(PObject(bag.value)));
    }
  }

  /** The challenge save writes at most once; saving only a found bag writes only mappings. */
  lemma SaveChallengeBagTrace(io: Io, bag: Option<Dict>, policy: SavePolicy)
    ensures var s := SaveChallengeBag(io, bag, policy);
            && Inner(s.events)
            && (policy == SkipMissing ==> SavesObjects(s.events))
            && (policy == SkipMissing && NoNullFile(io.world) ==> NoNullFile(s.io.world))
  {
    SaveIfFoundTrace(io, bag);
    TraceOne(Saved(PayloadOf(bag)));
  }

  /** Supplying or prompting for a value reads no store, requests nothing and writes nothing; it
      prompts for `field` once exactly when no value was given, and for nothing else. */
  lemma SuppliedTrace(given: Option<string>, io: Io, field: Field)
    ensures var s := Supplied(given, io, field);
            && Inner(s.events) && SavesObjects(s.events) && Lacks(s.events, TFetch)
            && s.io.world == io.world
            && Count(s.events, TPrompt(field)) == (if given.None? then 1 else 0)
            && forall other :: other != field ==> Count(s.events, TPrompt(other)) == 0
  {
    TraceOne(Prompt(field));
    CountOne(Prompt(field), TPrompt(field));
    forall other | other != field
      ensures Count(Supplied(given, io, field).events, TPrompt(other)) == 0
    {
      CountOne(Prompt(field), TPrompt(other));
    }
    assert [Prompt(field)][0] == Prompt(field);
  }

  /** The challenge branch stays inside the attempt, requests only with the credential it was
      given and prompts only for codes; saving only a found bag writes only mappings. */
  lemma ChallengedTrace(agent: string, cred: Credential, io: Io, reason: string, rejected: Option<Headers>,
                        policy: SavePolicy)
    ensures var s := Challenged(agent, cred, io, reason, rejected, policy);
            && Inner(s.events)
            && (policy == SkipMissing ==> SavesObjects(s.events))
            && FetchesWith(s.events, agent, cred) && CodePromptsOnly(s.events)
            && (policy == SkipMissing && NoNullFile(io.world) ==> NoNullFile(s.io.world))
  {
    var tf := Resolve(io, reason);
    ResolveTrace(io, reason);
    if tf.result.Success? {
      var (reply, io1) := Call(tf.io);
      var fetched := tf.events + [Fetch(agent, cred)];
      OneRequest(agent, cred);
      ConcatInner(tf.events, [Fetch(agent, cred)], policy == SkipMissing);
      ConcatRequests(tf.events, [Fetch(agent, cred)], agent, cred);
      if reply.Ok? {
        var bag := ChallengeBag(reply.response.headers, rejected);
        var saved := SaveChallengeBag(io1, bag, policy);
        SaveChallengeBagTrace(io1, bag, policy);
        SavesOnly(saved.events, agent, cred);
        ConcatInner(fetched, saved.events, policy == SkipMissing);
        ConcatRequests(fetched, saved.events, agent, cred);
      }
    }
  }

  /** The first request and what follows it stay inside the attempt, request only with `cred` and
      prompt only for codes; saving only a found bag writes only mappings. */
  lemma FirstFetchTrace(agent: string, cred: Credential, io: Io, policy: SavePolicy)
    ensures var s := FirstFetch(agent, cred, io, policy);
            && Inner(s.events)
            && (policy == SkipMissing ==> SavesObjects(s.events))
            && FetchesWith(s.events, agent, cred) && CodePromptsOnly(s.events)
            && (policy == SkipMissing && NoNullFile(io.world) ==> NoNullFile(s.io.world))
  {
    var (reply, io1) := Call(io);
    OneRequest(agent, cred);
    match reply
    case Ok(resp) =>
      var bag := Extract(Some(resp.headers));
      var saved := SaveIfFound(io1, bag);
      SaveIfFoundTrace(io1, bag);
      SavesOnly(saved.events, agent, cred);
      ConcatInner([Fetch(agent, cred)], saved.events, true);
      ConcatRequests([Fetch(agent, cred)], saved.events, agent, cred);
    case Rejected(reason, rejected) =>
      var c := Challenged(agent, cred, io1, reason, rejected, policy);
      ChallengedTrace(agent, cred, io1, reason, rejected, policy);
      ConcatInner([Fetch(agent, cred)], c.events, policy == SkipMissing);
      ConcatRequests([Fetch(agent, cred)], c.events, agent, cred);
    case Broken(_) =>
  }

  /** The manual path stays inside the attempt; saving only a found bag writes only mappings. */
  lemma ManualLoginTrace(username: Option<string>, password: Option<string>, agent: string, io: Io, policy: SavePolicy)
    ensures var s := ManualLogin(username, password, agent, io, policy);
            && Inner(s.events)
            && (policy == SkipMissing ==> SavesObjects(s.events))
            && (policy == SkipMissing && NoNullFile(io.world) ==> NoNullFile(s.io.world))
  {
    var u := Supplied(username, io, UsernameField);
    SuppliedTrace(username, io, UsernameField);
    if u.result.Success? {
      var p := Supplied(password, u.io, PasswordField);
      SuppliedTrace(password, u.io, PasswordField);
      ConcatInner(u.events, p.events, true);
      if p.result.Success? {
        var cred := Basic(u.result.value, p.result.value);
        var f := FirstFetch(agent, cred, p.io, policy);
        FirstFetchTrace(agent, cred, p.io, policy);
        ConcatInner(u.events + p.events, f.events, policy == SkipMissing);
      }
    }
  }

  /** The cookie path stays inside the attempt; saving only a found bag writes only mappings. */
  lemma CookieLoginTrace(agent: string, vault: Vault, io: Io, policy: SavePolicy)
    ensures var s := CookieLogin(agent, vault, io, policy);
            && Inner(s.events)
            && (policy == SkipMissing ==> SavesObjects(s.events))
            && (policy == SkipMissing && NoNullFile(io.world) ==> NoNullFile(s.io.world))
  {
    var (header, w) := SetConfiguration(vault, io.world, io.newKey);
    if header.Success? {
      var (reply, io1) := Call(io.(world := w));
      var fetched := [Fetch(agent, CookieHeader(header.value))];
      OneRequest(agent, CookieHeader(header.value));
      if reply.Rejected? {
        var m := ManualLogin(None, None, agent, io1, policy);
        ManualLoginTrace(None, None, agent, io1, policy);
        ConcatInner(fetched, m.events, policy == SkipMissing);
      }
    }
  }

  /** After its one store read an attempt stays inside itself; saving only a found bag writes
      only mappings. */
  lemma AttemptTrace(username: Option<string>, password: Option<string>, agent: string, io: Io, policy: SavePolicy)
    ensures var s := Attempt(username, password, agent, io, policy);
            && Inner(s.events[1..])
            && (policy == SkipMissing ==> SavesObjects(s.events))
            && (policy == SkipMissing && NoNullFile(io.world) ==> NoNullFile(s.io.world))
  {
    var vault := Load(io.world);
    var s := if vault.IsActive() then CookieLogin(agent, vault, io, policy)
             else ManualLogin(username, password, agent, io, policy);
    if vault.IsActive() {
      CookieLoginTrace(agent, vault, io, policy);
    } else {
      ManualLoginTrace(username, password, agent, io, policy);
    }
    assert ([Loaded] + s.events)[1..] == s.events;
    TraceOne(Loaded);
    ConcatSaves([Loaded], s.events, policy == SkipMissing);
  }

  /** Saving only a found bag, a run writes only mappings and never leaves a file that decrypts
      to `null`. */
  lemma {:induction false} RetryTrace(attempt: nat, username: Option<string>, password: Option<string>, agent: string,
                                      io: Io, policy: SavePolicy)
    requires 1 <= attempt <= RetryLimit
    ensures var r := Retry(attempt, username, password, agent, io, policy);
            && (policy == SkipMissing ==> SavesObjects(r.events))
            && (policy == SkipMissing && NoNullFile(io.world) ==> NoNullFile(r.io.world))
    decreases RetryLimit - attempt
  {
    var s := Attempt(username, password, agent, io, policy);
    AttemptTrace(username, password, agent, io, policy);
    if s.result.Failure? && attempt < RetryLimit {
      var rest := Retry(attempt + 1, username, password, agent, s.io, policy);
      RetryTrace(attempt + 1, username, password, agent, s.io, policy);
      TraceOne(Wait(RetryWait));
      ConcatSaves(s.events, [Wait(RetryWait)], policy == SkipMissing);
      ConcatSaves(s.events + [Wait(RetryWait)], rest.events, policy == SkipMissing);
    }
  }

  /** `login` saving only a found bag writes only mappings and never leaves a file that decrypts
      to `null`. */
  lemma LoginTrace(username: Option<string>, password: Option<string>, agent: string, io: Io, policy: SavePolicy)
    ensures var r := Login(username, password, agent, io, policy);
            && (policy == SkipMissing ==> SavesObjects(r.events))
            && (policy == SkipMissing && NoNullFile(io.world) ==> NoNullFile(r.io.world))
  {
    RetryTrace(1, username, password, agent, io, policy);
  }
}
