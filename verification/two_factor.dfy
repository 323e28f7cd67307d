/** `__two_factor_auth`: the second-factor step, identical in the three login modules that carry it. */
module TwoFactor {
  import opened Wrappers
  import opened Errors
  import opened Challenge
  import opened Session

  /** An unrecognised reason makes no prompt and no call. A recognised one prompts for a code
      and sends it to the matching endpoint, email before generic; a failing verify call raises. */
  function Resolve(io: Io, reason: string): (s: Step<()>)
    ensures s.io.world == io.world && s.io.newKey == io.newKey
    ensures Classify(reason).None? ==> s == Step(Success(()), io, [])
    ensures Classify(reason).Some? ==> |s.events| > 0 && s.events[0] == Prompt(CodeField(Classify(reason).value))
    ensures Classify(reason).Some? && |io.inputs| == 0 ==> s == Step(Failure(EndOfInput), io, [Prompt(CodeField(Classify(reason).value))])
    ensures Classify(reason).Some? && |io.inputs| > 0 ==>
              && s.events == [Prompt(CodeField(Classify(reason).value)), Verify(Classify(reason).value, io.inputs[0])]
              && s.io.inputs == io.inputs[1..]
              && s.io.replies == (if |io.replies| > 0 then io.replies[1..] else [])
              && (s.result.Success? <==> |io.replies| > 0 && io.replies[0].Ok?)
              && (|io.replies| > 0 && !io.replies[0].Ok? ==> s.result == Failure(Raised(io.replies[0])))
  {
    match Classify(reason)
    case None => Step(Success(()), io, [])
    case Some(kind) =>
      var code := Ask(io, CodeField(kind));
      if code.result.Failure? then Step(Failure(code.result.error), code.io, code.events)
      else
        var (reply, io1) := Call(code.io);
        var events := [Prompt(CodeField(kind)), Verify(kind, code.result.value)];
        if reply.Ok? then Step(Success(()), io1, events)
        else Step(Failure(Raised(reply)), io1, events)
  }

  /** The second-factor step reads no store, waits for nothing, checks no token, requests no
      user and writes nothing; its only prompt asks for a code. */
  lemma ResolveTrace(io: Io, reason: string)
    ensures var s := Resolve(io, reason);
            && Inner(s.events) && SavesObjects(s.events) && Lacks(s.events, TFetch) && Lacks(s.events, TSaved)
            && CodePromptsOnly(s.events)
  {
  }
}
