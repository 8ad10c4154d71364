/** Runs of the app and the script together, and what every run guarantees. */
module BridgeRun {
  import opened Bytes
  import opened Frames
  import opened FrameDecoding
  import opened FrameWriting
  import opened GameMemory
  import opened TransportRules
  import opened BridgeHistory
  import opened BridgeLink
  import opened BridgeApp
  import opened BridgeScript
  import opened BridgeSystem
  import opened BridgeSteps

  const FIRST_LOG: Log := Log(AppLog(0, [], EMPTY_WRITER), ScriptLog(0, [], [], 0, 0, [], AfterQueue(EMPTY_WRITER, Lua.SCRIPT_HELLO)))

  lemma NothingIsOnTheWay()
    ensures OnTheWay([], 0, EMPTY_DECODER, [], EMPTY_WRITER)
  {
    CarriesNothing();
    var none: seq<Frame> := [];
    assert none[..0] == none;
  }

  lemma HelloIsQueued()
    ensures Queues(EMPTY_WRITER, Lua.SCRIPT_HELLO) && ValidWriter(AfterQueue(EMPTY_WRITER, Lua.SCRIPT_HELLO))
    ensures OnTheWay([Lua.SCRIPT_HELLO], 0, EMPTY_DECODER, [], AfterQueue(EMPTY_WRITER, Lua.SCRIPT_HELLO))
  {
    NothingIsOnTheWay();
    QueuedOnTheWay([], 0, EMPTY_DECODER, [], EMPTY_WRITER, Lua.SCRIPT_HELLO);
    assert [] + [Lua.SCRIPT_HELLO] == [Lua.SCRIPT_HELLO];
    QueuedUnsent(EMPTY_WRITER, Encode(Lua.SCRIPT_HELLO));
  }

  lemma ConnectSides(memory: seq<byte>, v: AppVersion)
    requires |memory| == U32_LIMIT
    ensures IsSystem(Connect(memory, v)) && Sides(Connect(memory, v), FIRST_LOG)
  {
    HelloIsQueued();
    assert Requests([]) == [] && Effect(memory, []) == memory;
  }

  lemma ConnectExplains(memory: seq<byte>, v: AppVersion)
    requires |memory| == U32_LIMIT
    ensures Explains(Connect(memory, v), FIRST_LOG) && IsTidy(Connect(memory, v), FIRST_LOG)
  {
    ConnectSides(memory, v);
    HelloIsQueued();
    NothingIsOnTheWay();
    assert ScriptSaid(memory, [], 0, []) == [Lua.SCRIPT_HELLO];
  }

  lemma {:induction false} RunIsExplained(b: System, log: Log, steps: seq<Step>) returns (g: Log)
    requires Explains(b, log)
    ensures Explains(Run(b, steps), g)
    decreases |steps|
  {
    if steps == [] {
      g := log;
    } else {
      g := NextExplains(b, log, steps[0]);
      NextIsSystem(b, steps[0]);
      g := RunIsExplained(Next(b, steps[0]), g, steps[1..]);
    }
  }

  // ----- Every run

  /** The first `good` requests were answered, in order, each with memory as all writes before it left it. Every other
      request has failed or is pending, once. What was executed is a part of the requests in their order, the answered
      ones first and as a whole, and memory is what that made of it. */
  ghost predicate IsSequential(b: System, memory: seq<byte>, good: nat, accepted: seq<MemoryRequest>, done: seq<Done>) {
    && |memory| == U32_LIMIT && AllSendable(b.requests) && AllDone(done)
    && Accounts(b.handed + b.app.results, b.app.pending, b.requests, memory, good)
    && IsSubsequence(accepted, b.requests)
    && |done| <= |accepted| && Requests(done) == accepted[..|done|]
    && BeginsWhole(done, b.requests, good)
    && b.memory == Effect(memory, done)
  }

  /** What was executed, up to the job that has begun. */
  function Executed(s: Lua.Script, log: ScriptLog): seq<Done>
    requires |log.done| <= |log.accepted|
  {
    if s.phase == Lua.Online then Halted(s.jobs, log).done else log.done
  }

  lemma ScriptIsSequential(s: Lua.Script, memory: seq<byte>, start: seq<byte>, rs: seq<MemoryRequest>, log: ScriptLog, n: nat)
    requires |start| == U32_LIMIT && AllSendable(rs) && ScriptSide(s, memory, start, rs, log) && n <= log.answered
    ensures var done := Executed(s, log);
            && AllDone(done) && IsSubsequence(log.accepted, rs) && |done| <= |log.accepted|
            && Requests(done) == log.accepted[..|done|] && BeginsWhole(done, rs, n) && memory == Effect(start, done)
  {
    SubsequenceOfMore(log.accepted, rs, log.seen);
    if s.phase == Lua.Online {
      HaltedIsRecord(s.jobs, memory, start, rs, log);
    }
  }

  lemma AppIsSequential(t: Transport, handed: seq<MemoryResult>, rs: seq<MemoryRequest>, start: seq<byte>, log: AppLog)
    requires |start| == U32_LIMIT && AllSendable(rs) && AppSide(t, handed, rs, start, log)
    ensures Accounts(handed + t.results, t.pending, rs, start, Good(log))
  {
    if !IsClosing(t) {
      OpenAccounts(t, handed, rs, start, log);
    }
  }

  lemma ExplainedIsSequential(b: System, log: Log)
    requires Sides(b, log)
    ensures IsSequential(b, b.start, Good(log.app), log.script.accepted, Executed(b.script, log.script))
  {
    AppIsSequential(b.app, b.handed, b.requests, b.start, log.app);
    ScriptIsSequential(b.script, b.memory, b.start, b.requests, log.script, Good(log.app));
  }

  /** The main result: whatever callers submit, whatever the network does to the bytes and to the connection, whatever is
      refused, overflows or fails. */
  lemma BridgeIsSequential(memory: seq<byte>, v: AppVersion, steps: seq<Step>)
    returns (good: nat, accepted: seq<MemoryRequest>, done: seq<Done>)
    requires |memory| == U32_LIMIT
    ensures IsSystem(Connect(memory, v))
    ensures IsSequential(Run(Connect(memory, v), steps), memory, good, accepted, done)
  {
    ConnectExplains(memory, v);
    var log := RunIsExplained(Connect(memory, v), FIRST_LOG, steps);
    ExplainedIsSequential(Run(Connect(memory, v), steps), log);
    good, accepted, done := Good(log.app), log.script.accepted, Executed(Run(Connect(memory, v), steps).script, log.script);
  }

  // ----- Calm runs

  ghost predicate AllCalm(b: System, steps: seq<Step>)
    requires IsSystem(b)
    decreases |steps|
  {
    if steps == [] then true
    else
      NextIsSystem(b, steps[0]);
      IsCalm(b, steps[0]) && AllCalm(Next(b, steps[0]), steps[1..])
  }

  lemma {:induction false} CalmRunIsTidy(b: System, log: Log, steps: seq<Step>) returns (g: Log)
    requires Explains(b, log) && IsTidy(b, log) && AllCalm(b, steps)
    ensures Explains(Run(b, steps), g) && IsTidy(Run(b, steps), g)
    decreases |steps|
  {
    if steps == [] {
      g := log;
    } else {
      g := NextExplains(b, log, steps[0]);
      NextIsSystem(b, steps[0]);
      g := CalmRunIsTidy(Next(b, steps[0]), g, steps[1..]);
    }
  }

  /** Neither side has begun to close the connection. */
  predicate StaysOpen(b: System) {
    && !IsClosing(b.app) && b.app.client.value.decoder.error == NoError
    && b.script.phase in {Lua.AwaitingHello, Lua.Online} && b.script.decoder.error == NoError
  }

  /** Every result so far is the answer to the next request, and the others are pending. */
  ghost predicate AnsweredInOrder(b: System, memory: seq<byte>) {
    var results := b.handed + b.app.results;
    && |memory| == U32_LIMIT && AllSendable(b.requests) && |results| <= |b.requests|
    && results == AnswerResults(memory, b.requests, |results|)
    && PendingIs(b.app.pending, b.requests[|results|..])
  }

  /** Memory is what the first `n` requests made of it, but for one more that has begun. */
  ghost predicate AppliedInOrder(b: System, memory: seq<byte>, n: nat, partial: nat) {
    && |memory| == U32_LIMIT && AllSendable(b.requests) && |b.handed + b.app.results| <= n <= |b.requests|
    && var base := After(memory, b.requests[..n]);
       if b.script.jobs == [] then b.memory == base
       else n < |b.requests| && !b.script.jobs[0].failed
            && IsJobOf(b.script.jobs[0], b.requests[n], base, b.memory, partial)
  }

  lemma TidyIsAnswered(b: System, log: Log)
    requires Sides(b, log) && IsTidy(b, log)
    ensures AnsweredInOrder(b, b.start) && |b.handed + b.app.results| == Good(log.app)
  {
    if log.app.taken == 0 {
      assert b.handed + b.app.results == [] && b.requests[0..] == [];
    }
  }

  lemma TidyIsApplied(b: System, log: Log)
    requires Sides(b, log) && IsTidy(b, log)
    ensures AppliedInOrder(b, b.start, log.script.answered, log.script.partial)
  {
    TidyIsAnswered(b, log);
    if b.script.phase == Lua.Online {
      WholeBase(b.start, b.requests, log.script);
      if b.script.jobs != [] {
        assert b.script.jobs[0] in b.script.jobs;
        NextIsWaiting(b.requests, log.script);
      }
    } else {
      assert b.requests[..0] == [];
    }
  }

  lemma TidyStaysOpen(b: System, log: Log)
    requires Explains(b, log) && IsTidy(b, log)
    ensures StaysOpen(b)
  {
  }

  /** For callers that keep to the limits nothing is refused and nothing fails, as long as the script's decoder has room,
      its memory calls work, and the connection is not lost. */
  lemma CalmBridge(memory: seq<byte>, v: AppVersion, steps: seq<Step>) returns (n: nat, partial: nat)
    requires |memory| == U32_LIMIT && (IsSystem(Connect(memory, v)) ==> AllCalm(Connect(memory, v), steps))
    ensures IsSystem(Connect(memory, v))
    ensures var b := Run(Connect(memory, v), steps);
            && StaysOpen(b) && AnsweredInOrder(b, memory) && AppliedInOrder(b, memory, n, partial)
            && (IsDrained(b) ==> && b.handed + b.app.results == AnswerResults(memory, b.requests, |b.requests|)
                                 && b.memory == After(memory, b.requests) && b.app.pending == map[])
  {
    ConnectExplains(memory, v);
    var log := CalmRunIsTidy(Connect(memory, v), FIRST_LOG, steps);
    var b := Run(Connect(memory, v), steps);
    TidyStaysOpen(b, log);
    TidyIsAnswered(b, log);
    TidyIsApplied(b, log);
    if IsDrained(b) {
      DrainedBridge(b, log);
    }
    n, partial := log.script.answered, log.script.partial;
  }

  /** Everything is delivered and worked off. */
  predicate IsDrained(b: System) {
    && b.script.phase == Lua.Online && b.script.jobs == [] && b.up == [] && b.down == []
    && b.app.client.Some? && Unsent(b.app.client.value.writer) == [] && Unsent(b.script.outgoing) == []
  }

  lemma AllIsHeard(said: seq<Frame>, at: nat, d: Decoder, w: Writer)
    requires OnTheWay(said, at, d, [], w) && Idle(d) && Unsent(w) == []
    ensures at == |said|
  {
    CarriesDrained(said, said[..at], d, w);
    assert said[..at] + [] == said[..at];
  }

  lemma DrainedHistory(b: System, log: Log)
    requires Explains(b, log) && IsTidy(b, log) && IsDrained(b)
    ensures log.script.answered == |b.requests| == Good(log.app) && log.script.seen == |b.requests|
  {
    AllIsHeard(AppSaid(log.app, b.version, b.requests), Heard(b.script, log.script), b.script.decoder, log.app.queue);
    AllIsHeard(ScriptSaid(b.start, b.requests, log.script.answered, []), log.app.taken, b.app.client.value.decoder,
               log.script.queue);
    SaidLength(b.start, b.requests, log.script.answered);
  }

  lemma DrainedIsComplete(b: System, log: Log)
    requires Sides(b, log) && IsTidy(b, log) && b.script.phase == Lua.Online && b.script.jobs == []
    requires log.script.answered == |b.requests| == Good(log.app)
    ensures b.handed + b.app.results == AnswerResults(b.start, b.requests, |b.requests|)
    ensures b.memory == After(b.start, b.requests) && b.app.pending == map[]
  {
    TidyIsAnswered(b, log);
    WholeBase(b.start, b.requests, log.script);
    assert b.requests[..|b.requests|] == b.requests && b.requests[|b.requests|..] == [];
  }

  /** Once a calm run is drained, every request is answered and memory has all the writes. */
  lemma DrainedBridge(b: System, log: Log)
    requires Explains(b, log) && IsTidy(b, log) && IsDrained(b)
    ensures b.handed + b.app.results == AnswerResults(b.start, b.requests, |b.requests|)
    ensures b.memory == After(b.start, b.requests) && b.app.pending == map[]
  {
    DrainedHistory(b, log);
    DrainedIsComplete(b, log);
  }
}
