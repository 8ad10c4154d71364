/** The worker thread and its callers, as interleavings of atomic steps.

    A step is what happens between two points where another thread can run: a load or store of the flag, a section
    under a lock, or a call into the runtime. Waiting may end at any time. */
module SessionWorker {
  const MAX_PENDING_COMMANDS: nat := 256

  datatype WorkerState = Running | Stopping | Stopped | Failed
  datatype Publication = Publication(revision: nat, state: WorkerState)

  /** Calls into the runtime. */
  datatype Call = StartCall | HandleCall(command: nat) | TickCall | StopCall

  /** Where the worker thread is; a command is a number. */
  datatype Pc =
    | Starting
    | FirstPublish
    | LoopCheck
    | Waiting
    | Taken
    | Handling
    | Ticking
    | Publishing
    | Closing
    | SayStopping
    | StopRuntime
    | SayLast
    | Done

  /** `inHand` are the commands that the worker has taken; `checked` the callers that are past the first test of
      the flag in `Submit`, with their commands. */
  datatype Worker = Worker(
    pc: Pc, final: WorkerState, accepting: bool, stopRequested: bool, queue: seq<nat>, inHand: seq<nat>,
    checked: map<nat, nat>, accepted: seq<nat>, handled: seq<nat>, published: seq<Publication>, nextRevision: nat,
    calls: seq<Call>)

  const CONSTRUCTED: Worker := Worker(Starting, Stopped, true, false, [], [], map[], [], [], [], 1, [])

  datatype Step =
    | WorkerStep(throws: bool)
    | CheckFlag(caller: nat, command: nat)
    | Push(caller: nat)
    | ClearFlag
    | RequestStop

  // ----- The steps

  function Publish(w: Worker, state: WorkerState): Worker {
    w.(published := w.published + [Publication(w.nextRevision, state)], nextRevision := w.nextRevision + 1)
  }

  function Calling(w: Worker, call: Call): Worker {
    w.(calls := w.calls + [call])
  }

  /** An exception, or the end of the loop: what is in hand is dropped. */
  function WindDown(w: Worker, final: WorkerState): Worker {
    w.(pc := Closing, inHand := [], final := final)
  }

  /** The next step of the thread; `throws` says that the runtime does. */
  function RunNext(w: Worker, throws: bool): Worker {
    match w.pc
    case Starting =>
      var t := Calling(w, StartCall);
      if throws then WindDown(t, Failed) else t.(pc := FirstPublish)
    case FirstPublish => if throws then WindDown(w, Failed) else Publish(w, Running).(pc := LoopCheck)
    case LoopCheck => if w.stopRequested then WindDown(w, Stopped) else w.(pc := Waiting)
    case Waiting => w.(pc := Taken, inHand := w.queue, queue := [])
    case Taken => if w.stopRequested then WindDown(w, Stopped) else w.(pc := Handling)
    case Handling =>
      if w.inHand == [] then w.(pc := Ticking)
      else
        var t := Calling(w, HandleCall(w.inHand[0])).(handled := w.handled + [w.inHand[0]], inHand := w.inHand[1..]);
        if throws then WindDown(t, Failed) else t
    case Ticking =>
      var t := Calling(w, TickCall);
      if throws then WindDown(t, Failed) else t.(pc := Publishing)
    case Publishing => if throws then WindDown(w, Failed) else Publish(w, Running).(pc := LoopCheck)
    case Closing => w.(pc := SayStopping, accepting := false)
    case SayStopping => Publish(w, Stopping).(pc := StopRuntime)
    case StopRuntime => Calling(w, StopCall).(pc := SayLast, final := if throws then Failed else w.final)
    case SayLast => Publish(w, w.final).(pc := Done)
    case Done => w
  }

  /** The locked part of `Submit`. */
  predicate Accepts(w: Worker, caller: nat) {
    caller in w.checked && w.accepting && |w.queue| < MAX_PENDING_COMMANDS
  }

  function Next(w: Worker, step: Step): Worker {
    match step
    case WorkerStep(throws) => RunNext(w, throws)
    case CheckFlag(caller, command) => if w.accepting then w.(checked := w.checked[caller := command]) else w
    case Push(caller) =>
      var t := w.(checked := w.checked - {caller});
      if Accepts(w, caller) then
        t.(queue := w.queue + [w.checked[caller]], accepted := w.accepted + [w.checked[caller]])
      else t
    case ClearFlag => w.(accepting := false)
    case RequestStop => w.(stopRequested := true)
  }

  function Run(w: Worker, steps: seq<Step>): Worker
    decreases |steps|
  {
    if steps == [] then w else Run(Next(w, steps[0]), steps[1..])
  }

  // ----- What always holds

  predicate IsWindingDown(pc: Pc) {
    pc == Closing || pc == SayStopping || pc == StopRuntime || pc == SayLast || pc == Done
  }

  predicate HasStopped(pc: Pc) {
    pc == SayLast || pc == Done
  }

  predicate NoStopIn(calls: seq<Call>) {
    forall i :: 0 <= i < |calls| ==> calls[i] != StopCall
  }

  predicate Numbered(published: seq<Publication>) {
    forall i :: 0 <= i < |published| ==> published[i].revision == i + 1
  }

  predicate ValidWorker(w: Worker) {
    && |w.queue| <= MAX_PENDING_COMMANDS
    && (if IsWindingDown(w.pc) then w.inHand == [] && w.handled <= w.accepted
        else w.handled + w.inHand + w.queue == w.accepted)
    && (w.inHand != [] ==> w.pc == Taken || w.pc == Handling)
    && Numbered(w.published) && w.nextRevision == |w.published| + 1
    && (if HasStopped(w.pc) then w.calls != [] && w.calls[|w.calls| - 1] == StopCall && NoStopIn(w.calls[..|w.calls| - 1])
        else NoStopIn(w.calls))
    && (if w.pc == Starting then w.calls == [] else w.calls != [] && w.calls[0] == StartCall)
    && (IsWindingDown(w.pc) && w.pc != Closing ==> !w.accepting)
    && (w.final == Stopped || w.final == Failed)
    && (w.pc == StopRuntime || w.pc == SayLast ==>
          w.published != [] && w.published[|w.published| - 1].state == Stopping)
    && (w.pc == Done ==> w.published != [] && w.published[|w.published| - 1].state == w.final)
  }

  lemma HandlingIsValid(w: Worker, throws: bool)
    requires ValidWorker(w) && w.pc == Handling && w.inHand != []
    ensures ValidWorker(RunNext(w, throws))
  {
    MoveOne(w.handled, w.inHand, w.queue);
  }

  lemma MoveOne(handled: seq<nat>, inHand: seq<nat>, queue: seq<nat>)
    requires inHand != []
    ensures handled + [inHand[0]] + inHand[1..] + queue == handled + inHand + queue
    ensures handled + [inHand[0]] <= handled + inHand + queue
  {
    assert inHand == [inHand[0]] + inHand[1..];
  }

  lemma WindDownIsValid(w: Worker, final: WorkerState)
    requires ValidWorker(w) && !IsWindingDown(w.pc) && w.pc != Starting && final in {Stopped, Failed}
    ensures ValidWorker(WindDown(w, final))
  {
    assert w.handled <= w.handled + w.inHand + w.queue;
  }

  lemma StopIsLast(w: Worker, throws: bool)
    requires ValidWorker(w) && w.pc == StopRuntime
    ensures ValidWorker(RunNext(w, throws))
  {
    assert (w.calls + [StopCall])[..|w.calls|] == w.calls;
  }

  lemma TakingIsValid(w: Worker, throws: bool)
    requires ValidWorker(w) && w.pc == Waiting
    ensures ValidWorker(RunNext(w, throws))
  {
    assert w.handled + [] + w.queue == w.handled + w.queue + [];
  }

  lemma CallIsValid(w: Worker, throws: bool)
    requires ValidWorker(w) && (w.pc == Starting || w.pc == Ticking)
    ensures ValidWorker(RunNext(w, throws))
  {
    assert w.handled <= w.handled + w.inHand + w.queue;
  }

  lemma PublishIsValid(w: Worker, throws: bool)
    requires ValidWorker(w) && (w.pc == FirstPublish || w.pc == Publishing)
    ensures ValidWorker(RunNext(w, throws))
  {
    assert w.handled <= w.handled + w.inHand + w.queue;
  }

  lemma EndingIsValid(w: Worker, throws: bool)
    requires ValidWorker(w) && IsWindingDown(w.pc) && w.pc != StopRuntime
    ensures ValidWorker(RunNext(w, throws))
  {
  }

  lemma RunNextIsValid(w: Worker, throws: bool)
    requires ValidWorker(w)
    ensures ValidWorker(RunNext(w, throws))
  {
    match w.pc
    case Handling =>
      if w.inHand != [] {
        HandlingIsValid(w, throws);
      }
    case Waiting => TakingIsValid(w, throws);
    case StopRuntime => StopIsLast(w, throws);
    case LoopCheck => WindDownIsValid(w, Stopped);
    case Taken => WindDownIsValid(w, Stopped);
    case Starting => CallIsValid(w, throws);
    case FirstPublish => PublishIsValid(w, throws);
    case Ticking => CallIsValid(w, throws);
    case Publishing => PublishIsValid(w, throws);
    case _ => EndingIsValid(w, throws);
  }

  lemma NextIsValid(w: Worker, step: Step)
    requires ValidWorker(w)
    ensures ValidWorker(Next(w, step))
  {
    if step.WorkerStep? {
      RunNextIsValid(w, step.throws);
    }
  }

  lemma {:induction false} RunIsValid(w: Worker, steps: seq<Step>)
    requires ValidWorker(w)
    ensures ValidWorker(Run(w, steps))
    decreases |steps|
  {
    if steps != [] {
      NextIsValid(w, steps[0]);
      RunIsValid(Next(w, steps[0]), steps[1..]);
    }
  }

  function Count(calls: seq<Call>, call: Call): nat {
    if calls == [] then 0 else Count(calls[..|calls| - 1], call) + if calls[|calls| - 1] == call then 1 else 0
  }

  lemma {:induction false} NoneCounted(calls: seq<Call>)
    requires NoStopIn(calls)
    ensures Count(calls, StopCall) == 0
  {
    if calls != [] {
      NoneCounted(calls[..|calls| - 1]);
    }
  }

  /** The worker over all interleavings of callers and thread: commands are handled in the order of their acceptance,
      at most 256 wait, revisions increase, and the runtime is stopped once, as the last call, by the end. */
  lemma WorkerIsSafe(steps: seq<Step>)
    ensures var w := Run(CONSTRUCTED, steps);
            && w.handled <= w.accepted && |w.queue| <= MAX_PENDING_COMMANDS
            && (forall i, j :: 0 <= i < j < |w.published| ==> w.published[i].revision < w.published[j].revision)
            && Count(w.calls, StopCall) == (if HasStopped(w.pc) then 1 else 0)
            && (HasStopped(w.pc) ==> w.calls[|w.calls| - 1] == StopCall)
            && (w.pc == Done ==> && !w.accepting && w.published != []
                                 && w.published[|w.published| - 1].state in {Stopped, Failed})
  {
    RunIsValid(CONSTRUCTED, steps);
    var w := Run(CONSTRUCTED, steps);
    if HasStopped(w.pc) {
      NoneCounted(w.calls[..|w.calls| - 1]);
    } else {
      NoneCounted(w.calls);
    }
  }

  /** Once the flag is cleared nothing more is accepted. */
  lemma {:induction false} NothingAcceptedAfterwards(w: Worker, steps: seq<Step>)
    requires !w.accepting
    ensures Run(w, steps).accepted == w.accepted && !Run(w, steps).accepting
    decreases |steps|
  {
    if steps != [] {
      NothingAcceptedAfterwards(Next(w, steps[0]), steps[1..]);
    }
  }

  /** Once the thread winds down, no command is handled, and what it has in hand and in the queue is dropped. */
  lemma {:induction false} NothingHandledAfterwards(w: Worker, steps: seq<Step>)
    requires IsWindingDown(w.pc)
    ensures Run(w, steps).handled == w.handled && IsWindingDown(Run(w, steps).pc)
    decreases |steps|
  {
    if steps != [] {
      NothingHandledAfterwards(Next(w, steps[0]), steps[1..]);
    }
  }

  // ----- What is published

  /** The thread's next step is a call into the runtime. */
  predicate CallsRuntime(w: Worker) {
    || w.pc == Starting || w.pc == FirstPublish || w.pc == Ticking || w.pc == Publishing || w.pc == StopRuntime
    || (w.pc == Handling && w.inHand != [])
  }

  /** In the course of the steps a call into the runtime throws. */
  predicate Throws(w: Worker, steps: seq<Step>)
    decreases |steps|
  {
    && steps != []
    && ((steps[0].WorkerStep? && steps[0].throws && CallsRuntime(w)) || Throws(Next(w, steps[0]), steps[1..]))
  }

  lemma {:induction false} FailedMeansThrown(w: Worker, steps: seq<Step>)
    requires w.final in {Stopped, Failed}
    requires !IsWindingDown(w.pc) ==> w.final == Stopped
    ensures Run(w, steps).final == if w.final == Failed || Throws(w, steps) then Failed else Stopped
    decreases |steps|
  {
    if steps != [] {
      FailedMeansThrown(Next(w, steps[0]), steps[1..]);
    }
  }

  predicate AllRunning(published: seq<Publication>, n: nat) {
    n <= |published| && forall i :: 0 <= i < n ==> published[i].state == Running
  }

  /** Running any number of times, then Stopping, then the final state. */
  predicate InOrder(w: Worker) {
    var n := |w.published|;
    if w.pc == Done then
      n >= 2 && AllRunning(w.published, n - 2) && w.published[n - 2].state == Stopping && w.published[n - 1].state == w.final
    else if w.pc == StopRuntime || w.pc == SayLast then
      n >= 1 && AllRunning(w.published, n - 1) && w.published[n - 1].state == Stopping
    else AllRunning(w.published, n)
  }

  lemma ThreadIsInOrder(w: Worker, throws: bool)
    requires InOrder(w)
    ensures InOrder(RunNext(w, throws))
  {
  }

  lemma NextIsInOrder(w: Worker, step: Step)
    requires InOrder(w)
    ensures InOrder(Next(w, step))
  {
    if step.WorkerStep? {
      ThreadIsInOrder(w, step.throws);
    }
  }

  lemma {:induction false} RunIsInOrder(w: Worker, steps: seq<Step>)
    requires InOrder(w)
    ensures InOrder(Run(w, steps))
    decreases |steps|
  {
    if steps != [] {
      NextIsInOrder(w, steps[0]);
      RunIsInOrder(Next(w, steps[0]), steps[1..]);
    }
  }

  /** What a worker publishes: Running, Stopping, and at the end Failed if and only if a call into the runtime threw. */
  lemma LastStateIsRight(steps: seq<Step>)
    ensures var w := Run(CONSTRUCTED, steps);
            && InOrder(w)
            && (w.pc == Done ==>
                  w.published[|w.published| - 1].state == if Throws(CONSTRUCTED, steps) then Failed else Stopped)
  {
    RunIsInOrder(CONSTRUCTED, steps);
    FailedMeansThrown(CONSTRUCTED, steps);
  }

  // ----- Stopping ends

  /** How many steps the thread still has to make once a stop was requested. */
  function StepsLeft(w: Worker): nat {
    match w.pc
    case Starting => 10
    case FirstPublish => 9
    case Handling => 8 + |w.inHand|
    case Ticking => 7
    case Publishing => 6
    case LoopCheck => 5
    case Waiting => 6
    case Taken => 5
    case Closing => 4
    case SayStopping => 3
    case StopRuntime => 2
    case SayLast => 1
    case Done => 0
  }

  /** After a request to stop, every step of the thread brings it closer to its end, and no other step moves it away:
      `Stop`, which waits for that end, returns. */
  lemma StopIsReached(w: Worker, step: Step)
    requires w.stopRequested
    ensures Next(w, step).stopRequested
    ensures step.WorkerStep? && w.pc != Done ==> StepsLeft(Next(w, step)) < StepsLeft(w)
    ensures !step.WorkerStep? ==> StepsLeft(Next(w, step)) == StepsLeft(w)
  {
    if step.WorkerStep? && w.pc == Handling && w.inHand != [] {
      assert |w.inHand[1..]| < |w.inHand|;
    }
  }

  // ----- The shared object

  class SessionWorker {
    var pc: Pc
    var final: WorkerState
    var accepting: bool
    var stopRequested: bool
    var queue: seq<nat>
    var inHand: seq<nat>
    var checked: map<nat, nat>
    var published: seq<Publication>
    var nextRevision: nat
    ghost var accepted: seq<nat>
    ghost var handled: seq<nat>
    ghost var calls: seq<Call>

    ghost function State(): Worker
      reads this
    {
      Worker(pc, final, accepting, stopRequested, queue, inHand, checked, accepted, handled, published, nextRevision, calls)
    }

    constructor ()
      ensures State() == CONSTRUCTED
    {
      pc, final, accepting, stopRequested, queue, inHand, checked := Starting, Stopped, true, false, [], [], map[];
      published, nextRevision, accepted, handled, calls := [], 1, [], [], [];
    }

    /** The first test in `Submit`, without the lock. */
    method TestFlag(caller: nat, command: nat) returns (goOn: bool)
      modifies this`checked
      ensures goOn == accepting && State() == Next(old(State()), CheckFlag(caller, command))
    {
      if !accepting {
        return false;
      }
      checked := checked[caller := command];
      return true;
    }

    /** The rest of `Submit`, under the lock; the command is accepted if and only if it returns true. */
    method PushLocked(caller: nat) returns (ok: bool)
      requires caller in checked
      modifies this`checked, this`queue, this`accepted
      ensures ok <==> Accepts(old(State()), caller)
      ensures State() == Next(old(State()), Push(caller))
    {
      var command := checked[caller];
      checked := checked - {caller};
      if !accepting || |queue| >= MAX_PENDING_COMMANDS {
        return false;
      }
      queue := queue + [command];
      accepted := accepted + [command];
      return true;
    }

    /** The two stores of `Stop`, before it waits for the thread. */
    method StopAccepting()
      modifies this`accepting
      ensures State() == Next(old(State()), ClearFlag)
    {
      accepting := false;
    }

    method AskToStop()
      modifies this`stopRequested
      ensures State() == Next(old(State()), RequestStop)
    {
      stopRequested := true;
    }

    method PublishLocked(state: WorkerState)
      modifies this`published, this`nextRevision
      ensures State() == Publish(old(State()), state)
    {
      published := published + [Publication(nextRevision, state)];
      nextRevision := nextRevision + 1;
    }

    /** Leaves the loop, by its end or by an exception. */
    method Leave(state: WorkerState)
      modifies this`pc, this`inHand, this`final
      ensures State() == WindDown(old(State()), state)
    {
      pc, inHand, final := Closing, [], state;
    }

    /** A call into the runtime, which may throw. */
    method CallRuntime(ghost call: Call, throws: bool, next: Pc)
      modifies this`calls, this`pc, this`inHand, this`final
      ensures var t := Calling(old(State()), call); State() == if throws then WindDown(t, Failed) else t.(pc := next)
    {
      calls := calls + [call];
      if throws {
        Leave(Failed);
      } else {
        pc := next;
      }
    }

    method PublishRunning(throws: bool)
      modifies this
      ensures State() == if throws then WindDown(old(State()), Failed) else Publish(old(State()), Running).(pc := LoopCheck)
    {
      if throws {
        Leave(Failed);
        return;
      }
      PublishLocked(Running);
      pc := LoopCheck;
    }

    method HandleNext(throws: bool)
      requires pc == Handling
      modifies this
      ensures State() == RunNext(old(State()), throws)
    {
      if inHand == [] {
        pc := Ticking;
        return;
      }
      ghost var command := inHand[0];
      handled := handled + [inHand[0]];
      inHand := inHand[1..];
      CallRuntime(HandleCall(command), throws, Handling);
    }

    /** One step of `Run`. */
    method Advance(throws: bool)
      modifies this
      ensures State() == RunNext(old(State()), throws)
    {
      match pc
      case Starting => CallRuntime(StartCall, throws, FirstPublish);
      case FirstPublish => PublishRunning(throws);
      case LoopCheck =>
        if stopRequested {
          Leave(Stopped);
        } else {
          pc := Waiting;
        }
      case Waiting =>
        inHand, queue := queue, [];
        pc := Taken;
      case Taken =>
        if stopRequested {
          Leave(Stopped);
        } else {
          pc := Handling;
        }
      case Handling => HandleNext(throws);
      case Ticking => CallRuntime(TickCall, throws, Publishing);
      case Publishing => PublishRunning(throws);
      case Closing => WindUp(throws);
      case SayStopping => WindUp(throws);
      case StopRuntime => WindUp(throws);
      case SayLast => WindUp(throws);
      case Done =>
    }

    /** The part of `Run` behind the loop. */
    method WindUp(throws: bool)
      requires pc == Closing || pc == SayStopping || pc == StopRuntime || pc == SayLast
      modifies this
      ensures State() == RunNext(old(State()), throws)
    {
      if pc == Closing {
        accepting := false;
        pc := SayStopping;
      } else if pc == SayStopping {
        PublishLocked(Stopping);
        pc := StopRuntime;
      } else if pc == StopRuntime {
        calls := calls + [StopCall];
        final := if throws then Failed else final;
        pc := SayLast;
      } else {
        PublishLocked(final);
        pc := Done;
      }
    }
  }
}
