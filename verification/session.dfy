/** What one login run sees of the outside world, and what it leaves behind.

    The provider is a script of replies, one per remote call, consumed in order; the terminal is a
    script of typed lines. A run returns its result together with the rest of both scripts, the
    cookie file and keyring afterwards, and the trace of the observable steps it took. */
module Session {
  import opened Wrappers
  import opened Http
  import opened Payload
  import opened Errors
  import opened Store
  import opened Cipher
  import opened LoginData
  import opened Challenge

  /** The provider's answer to one remote call: a response, an `UnauthorizedException` with the
      server's reason and headers, or any other failure. */
  datatype Reply =
    | Ok(response: LoginResponse)
    | Rejected(reason: string, headers: Option<Headers>)
    | Broken(message: string)

  /** What a current-user request authenticates with. */
  datatype Credential =
    | Basic(username: string, password: string)
    | CookieHeader(header: string)

  datatype Field = UsernameField | PasswordField | CodeField(kind: Kind)

  datatype Event =
    | Loaded                                  // the cookie store is read
    | Fetch(agent: string, credential: Credential)  // a current-user request
    | Verify(kind: Kind, code: string)        // a second-factor verify request
    | Prompt(field: Field)                    // the terminal is asked for a line
    | Saved(payload: Payload)                 // the cookie store is written
    | Wait(seconds: nat)                      // the retry envelope sleeps
    | CheckToken(agent: string, header: string)     // a verify-auth-token request

  /** The remaining scripts, the persistent state, and the key `Fernet.generate_key()` would give. */
  datatype Io = Io(replies: seq<Reply>, inputs: seq<string>, world: World, newKey: Key)

  datatype Step<T> = Step(result: Result<T, Error>, io: Io, events: seq<Event>)

  // ---- counting events ----

  datatype Tag = TLoad | TFetch | TVerify | TPrompt(field: Field) | TSaved | TWait | TCheck

  function TagOf(e: Event): Tag {
    match e
    case Loaded => TLoad
    case Fetch(_, _) => TFetch
    case Verify(_, _) => TVerify
    case Prompt(f) => TPrompt(f)
    case Saved(_) => TSaved
    case Wait(_) => TWait
    case CheckToken(_, _) => TCheck
  }

  /** The number of events with tag `t`. */
  function Count(es: seq<Event>, t: Tag): nat
    decreases |es|
  {
    if |es| == 0 then 0 else (if TagOf(es[0]) == t then 1 else 0) + Count(es[1..], t)
  }

  lemma {:induction false} CountConcat(a: seq<Event>, b: seq<Event>, t: Tag)
    ensures Count(a + b, t) == Count(a, t) + Count(b, t)
    decreases |a|
  {
    if |a| == 0 {
      assert a + b == b;
    } else {
      assert (a + b)[0] == a[0];
      assert (a + b)[1..] == a[1..] + b;
      CountConcat(a[1..], b, t);
    }
  }

  /** No event with tag `t`. */
  predicate Lacks(es: seq<Event>, t: Tag) {
    forall i :: 0 <= i < |es| ==> TagOf(es[i]) != t
  }

  lemma {:induction false} CountZero(es: seq<Event>, t: Tag)
    ensures Count(es, t) == 0 <==> Lacks(es, t)
    decreases |es|
  {
    if |es| > 0 {
      CountZero(es[1..], t);
      assert forall i :: 1 <= i < |es| ==> es[i] == es[1..][i - 1];
    }
  }

  lemma CountOne(e: Event, t: Tag)
    ensures Count([e], t) == if TagOf(e) == t then 1 else 0
  {
    assert [e][1..] == [];
  }

  lemma CountTwo(a: Event, b: Event, t: Tag)
    ensures Count([a, b], t) == Count([a], t) + Count([b], t)
  {
    CountConcat([a], [b], t);
    assert [a] + [b] == [a, b];
  }

  /** The events one login attempt can produce on its own: no store read, no retry wait, no
      token check. */
  predicate Inner(es: seq<Event>) {
    Lacks(es, TLoad) && Lacks(es, TWait) && Lacks(es, TCheck)
  }

  /** Every write to the cookie store writes a mapping, never `null`. */
  predicate SavesObjects(es: seq<Event>) {
    forall i :: 0 <= i < |es| && es[i].Saved? ==> es[i].payload.PObject?
  }

  /** Every current-user request in `es` is sent with `agent` and `cred`. */
  predicate FetchesWith(es: seq<Event>, agent: string, cred: Credential) {
    forall i :: 0 <= i < |es| && es[i].Fetch? ==> es[i] == Fetch(agent, cred)
  }

  /** The only prompts in `es` ask for second-factor codes. */
  predicate CodePromptsOnly(es: seq<Event>) {
    forall i :: 0 <= i < |es| && es[i].Prompt? ==> es[i].field.CodeField?
  }

  /** Where `a + b` reads from. */
  lemma ConcatIndex(a: seq<Event>, b: seq<Event>)
    ensures forall i :: 0 <= i < |a + b| ==> (a + b)[i] == if i < |a| then a[i] else b[i - |a|]
  {
  }

  /** Only mappings written, in both parts, when `keep` asks for it. */
  lemma ConcatSaves(a: seq<Event>, b: seq<Event>, keep: bool)
    requires keep ==> SavesObjects(a) && SavesObjects(b)
    ensures keep ==> SavesObjects(a + b)
  {
    ConcatIndex(a, b);
  }

  /** Two inner traces make an inner trace. */
  lemma ConcatInner(a: seq<Event>, b: seq<Event>, keep: bool)
    requires Inner(a) && Inner(b)
    requires keep ==> SavesObjects(a) && SavesObjects(b)
    ensures Inner(a + b)
    ensures keep ==> SavesObjects(a + b)
  {
    ConcatIndex(a, b);
  }

  /** Two parts that request with the same credential and prompt only for codes. */
  lemma ConcatRequests(a: seq<Event>, b: seq<Event>, agent: string, cred: Credential)
    requires FetchesWith(a, agent, cred) && FetchesWith(b, agent, cred)
    requires CodePromptsOnly(a) && CodePromptsOnly(b)
    ensures FetchesWith(a + b, agent, cred) && CodePromptsOnly(a + b)
  {
    ConcatIndex(a, b);
  }

  /** No event with tag `t` in either part, so none in both. */
  lemma ConcatLacks(a: seq<Event>, b: seq<Event>, t: Tag)
    requires Lacks(a, t) && Lacks(b, t)
    ensures Lacks(a + b, t)
  {
    ConcatIndex(a, b);
  }

  /** A request-free prefix followed by a trace that starts with a request and requests only with
      `cred`: the first request comes right after the prefix, and every request uses `cred`. */
  lemma FetchAfter(pre: seq<Event>, f: seq<Event>, agent: string, cred: Credential)
    requires Lacks(pre, TFetch)
    requires |f| > 0 && f[0] == Fetch(agent, cred) && FetchesWith(f, agent, cred)
    ensures |pre + f| > |pre| && (pre + f)[|pre|] == Fetch(agent, cred)
    ensures FetchesWith(pre + f, agent, cred)
  {
    ConcatIndex(pre, f);
  }

  /** A write-free prefix, one event that is no write, then at most one write: the number of
      writes is the length of the last part, and a write there ends the trace. */
  lemma WritesLast(pre: seq<Event>, e: Event, saved: seq<Event>)
    requires Lacks(pre, TSaved) && !e.Saved?
    requires |saved| <= 1 && (|saved| == 1 ==> saved[0].Saved?)
    ensures Count(pre + [e] + saved, TSaved) == |saved|
    ensures |saved| == 1 ==> (pre + [e] + saved)[|pre + [e] + saved| - 1] == saved[0]
  {
    CountZero(pre, TSaved);
    CountOne(e, TSaved);
    CountConcat(pre, [e], TSaved);
    CountConcat(pre + [e], saved, TSaved);
    if |saved| == 1 {
      assert saved == [saved[0]];
      CountOne(saved[0], TSaved);
    }
  }

  /** Two short traces joined, written out event by event. */
  lemma JoinTwoTwo(a: Event, b: Event, c: Event, d: Event)
    ensures [a, b] + [c, d] == [a, b, c, d]
  {
  }

  /** A request, four events and one more write, written out event by event. */
  lemma JoinOneFourOne(e: Event, a: Event, b: Event, c: Event, d: Event, x: Event)
    ensures [e] + ([a, b, c, d] + [x]) == [e, a, b, c, d, x]
  {
  }

  /** A single event lacks tag `t` exactly when it has another tag. */
  lemma LacksOne(e: Event, t: Tag)
    ensures Lacks([e], t) <==> TagOf(e) != t
  {
    assert [e][0] == e;
  }

  /** What the trace predicates say of a single event. */
  lemma TraceOne(e: Event)
    ensures Inner([e]) <==> !e.Loaded? && !e.Wait? && !e.CheckToken?
    ensures SavesObjects([e]) <==> (e.Saved? ==> e.payload.PObject?)
    ensures CodePromptsOnly([e]) <==> (e.Prompt? ==> e.field.CodeField?)
  {
    assert [e][0] == e;
  }

  /** A single request with `cred`. */
  lemma OneRequest(agent: string, cred: Credential)
    ensures Inner([Fetch(agent, cred)]) && SavesObjects([Fetch(agent, cred)])
    ensures FetchesWith([Fetch(agent, cred)], agent, cred) && CodePromptsOnly([Fetch(agent, cred)])
  {
  }

  /** A trace of at most one write requests nothing and prompts for nothing. */
  lemma SavesOnly(es: seq<Event>, agent: string, cred: Credential)
    requires |es| <= 1 && (|es| == 1 ==> es[0].Saved?)
    ensures FetchesWith(es, agent, cred) && CodePromptsOnly(es)
  {
  }

  lemma InnerCounts(es: seq<Event>)
    requires Inner(es)
    ensures Count(es, TLoad) == 0 && Count(es, TWait) == 0 && Count(es, TCheck) == 0
  {
    CountZero(es, TLoad);
    CountZero(es, TWait);
    CountZero(es, TCheck);
  }

  // ---- the scripts ----

  /** `input(...)` or `getpass.getpass(...)`: the next typed line, or `EOFError` when the
      terminal has none left. Either way the prompt is shown. */
  function Ask(io: Io, field: Field): (s: Step<string>)
    ensures s.events == [Prompt(field)]
    ensures s.io.replies == io.replies && s.io.world == io.world && s.io.newKey == io.newKey
    ensures s.result.Success? <==> |io.inputs| > 0
    ensures s.result.Success? ==> s.result.value == io.inputs[0] && io.inputs == [s.result.value] + s.io.inputs
    ensures s.result.Failure? ==> s.result.error == EndOfInput && s.io == io
  {
    if |io.inputs| == 0 then Step(Failure(EndOfInput), io, [Prompt(field)])
    else Step(Success(io.inputs[0]), io.(inputs := io.inputs[1..]), [Prompt(field)])
  }

  /** The provider's reply to the next remote call. A script that has run out stands for a
      transport failure. */
  function Call(io: Io): (r: (Reply, Io))
    ensures r.1.inputs == io.inputs && r.1.world == io.world && r.1.newKey == io.newKey
    ensures |io.replies| > 0 ==> io.replies == [r.0] + r.1.replies
    ensures |io.replies| == 0 ==> r.0.Broken? && r.1 == io
  {
    if |io.replies| == 0 then (Broken("no reply"), io)
    else (io.replies[0], io.(replies := io.replies[1..]))
  }

  /** The exception a rejected or failed call raises. */
  function Raised(reply: Reply): (e: Error)
    requires !reply.Ok?
    ensures reply.Rejected? ==> e == Unauthorized(reply.reason, reply.headers)
    ensures reply.Broken? ==> e == ApiFailure(reply.message)
  {
    match reply
    case Rejected(reason, headers) => Unauthorized(reason, headers)
    case Broken(message) => ApiFailure(message)
  }
}
