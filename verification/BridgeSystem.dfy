/** The app and the script as one system, joined by two byte streams that deliver in arbitrary pieces.

    A run is that of one connection: from the script's connecting on, through refusals, overflows, failing memory calls
    and lost connections, until both programs have left. */
module BridgeSystem {
  import opened Bags
  import opened Bytes
  import opened Frames
  import opened FrameDecoding
  import opened FrameWriting
  import opened GameMemory
  import opened TransportRules
  import opened BridgeHistory
  import opened BridgeLink
  import opened BridgeApp
  import opened BridgeScript

  /** Both programs, what is on the wires, and the memory; besides the memory at the start, the requests that the
      transport put on the wire, and the results that it has handed out. */
  datatype System = System(
    app: Transport, up: seq<byte>, script: Lua.Script, down: seq<byte>, memory: seq<byte>, version: AppVersion,
    start: seq<byte>, requests: seq<MemoryRequest>, handed: seq<MemoryResult>)

  /** Just after the script has connected. */
  function Connect(memory: seq<byte>, v: AppVersion): System {
    System(AfterAccepting(NEW_TRANSPORT, 1), [],
           Lua.Script(Lua.AwaitingHello, EMPTY_DECODER, [], 0, AfterQueue(EMPTY_WRITER, Lua.SCRIPT_HELLO)), [],
           memory, v, memory, [], [])
  }

  /** One step of either program or of the network. `order` is how the hash table lists what is pending. */
  datatype Step =
    | Submit(request: MemoryRequest)
    | AppSend(n: nat)
    | AppReceive(n: nat, text: seq<byte>, order: seq<u32>)
    | AppLoses(order: seq<u32>)
    | HandOut
    | ScriptReceive(n: nat)
    | ScriptWork(calls: seq<Lua.EmulatorCall>)
    | ScriptSend(n: nat)
    | ScriptLoses

  ghost predicate IsSystem(b: System) {
    ValidTransport(b.app) && Lua.ValidScript(b.script) && |b.memory| == U32_LIMIT
  }

  // ----- Steps of the app

  predicate Submits(b: System, r: MemoryRequest) {
    CanSubmit(b.app, r) && Sendable(r)
  }

  function WithRequest(b: System, r: MemoryRequest): System
    requires Submits(b, r)
  {
    b.(app := Submitted(b.app, r), requests := b.requests + [r])
  }

  function AppHanded(b: System): System {
    b.(app := b.app.(results := []), handed := b.handed + b.app.results)
  }

  /** A client that is to close is dropped once its queue is empty. */
  function Flushed(t: Transport): Transport {
    if t.client.Some? && t.client.value.closeAfterWrite && Unsent(t.client.value.writer) == []
    then t.(client := None) else t
  }

  /** Bytes leave a send queue, as many as the socket takes. */
  function SentCount(w: Writer, n: nat): (count: nat)
    ensures count <= |Pending(w)|
  {
    Min(n, |Pending(w)|)
  }

  lemma SendIsCounted(w: Writer, n: nat)
    requires ValidWriter(w)
    ensures SentCount(w, n) <= w.queuedBytes && ValidWriter(Consumed(w, SentCount(w, n)))
  {
    ConsumedUnsent(w, SentCount(w, n));
  }

  ghost function AppSent(b: System, n: nat): System
    requires IsSystem(b) && b.app.client.Some?
  {
    var w := b.app.client.value.writer;
    SendIsCounted(w, n);
    b.(app := Flushed(WithWriter(b.app, Consumed(w, SentCount(w, n)))), up := b.up + Pending(w)[..SentCount(w, n)])
  }

  /** How many bytes one receive takes. */
  function Taken(n: nat, wire: seq<byte>): (count: nat)
    ensures count <= |wire| && count <= RECEIVE_CHUNK
  {
    Min(n, Min(|wire|, RECEIVE_CHUNK))
  }

  ghost function AppReceived(b: System, n: nat, text: seq<byte>, order: seq<u32>): System
    requires IsSystem(b) && !IsClosing(b.app) && n <= |b.down|
  {
    var turn := BytesArrive(b.app, b.down[..n], b.version, text);
    if turn.abandon.Some? && !Lists(order, turn.t.pending.Keys) then b
    else b.(app := Settled(turn, order), down := b.down[n..])
  }

  ghost function AppLost(b: System, order: seq<u32>): System {
    if b.app.client.None? || !Lists(order, b.app.pending.Keys) then b else b.(app := Settled(Dropped(b.app), order))
  }

  // ----- Steps of the script

  ghost function ScriptReceived(b: System, n: nat): System
    requires IsSystem(b) && n <= |b.up|
  {
    b.(script := Lua.BytesArrive(b.script, b.up[..n]), up := b.up[n..])
  }

  lemma WorkIsValid(b: System, calls: seq<Lua.EmulatorCall>)
    requires IsSystem(b)
    ensures Lua.ValidWork(Lua.Work(b.script, b.memory, 0, 0, calls))
  {
  }

  ghost function Worked(b: System, calls: seq<Lua.EmulatorCall>): System
    requires IsSystem(b)
  {
    WorkIsValid(b, calls);
    var w := Lua.RunJobs(Lua.Work(b.script, b.memory, 0, 0, calls));
    b.(script := w.script, memory := w.memory)
  }

  ghost function ScriptSent(b: System, n: nat): System
    requires IsSystem(b)
  {
    var w := b.script.outgoing;
    SendIsCounted(w, n);
    b.(script := b.script.(outgoing := Consumed(w, SentCount(w, n))), down := b.down + Pending(w)[..SentCount(w, n)])
  }

  function ScriptLost(b: System): System {
    b.(script := Lua.OFFLINE)
  }

  predicate IsAppStep(step: Step) {
    step.Submit? || step.AppSend? || step.AppReceive? || step.AppLoses? || step.HandOut?
  }

  ghost function AppNext(b: System, step: Step): System
    requires IsSystem(b) && IsAppStep(step)
  {
    match step
    case Submit(r) => if Submits(b, r) then WithRequest(b, r) else b
    case AppSend(n) => if b.app.client.Some? then AppSent(b, n) else b
    case AppReceive(n, text, order) => if IsClosing(b.app) then b else AppReceived(b, Taken(n, b.down), text, order)
    case AppLoses(order) => AppLost(b, order)
    case HandOut => AppHanded(b)
  }

  ghost function ScriptNext(b: System, step: Step): System
    requires IsSystem(b) && !IsAppStep(step)
  {
    match step
    case ScriptReceive(n) => if b.script.phase == Lua.Offline then b else ScriptReceived(b, Taken(n, b.up))
    case ScriptWork(calls) => if b.script.phase == Lua.Online then Worked(b, calls) else b
    case ScriptSend(n) => if b.script.phase == Lua.Offline then b else ScriptSent(b, n)
    case ScriptLoses => ScriptLost(b)
  }

  /** A step that is impossible in the present state changes nothing. */
  ghost function Next(b: System, step: Step): System
    requires IsSystem(b)
  {
    if IsAppStep(step) then AppNext(b, step) else ScriptNext(b, step)
  }

  lemma FlushedIsValid(t: Transport, w: Writer)
    requires ValidTransport(t) && t.client.Some? && ValidWriter(w)
    ensures ValidTransport(Flushed(WithWriter(t, w)))
  {
  }

  lemma SettledIsValid(turn: Turn, order: seq<u32>)
    requires IsSound(turn)
    ensures ValidTransport(Settled(turn, order)) && (IsClosing(Settled(turn, order)) <==> turn.abandon.Some?)
    ensures turn.abandon.None? ==> Settled(turn, order) == turn.t
  {
  }

  lemma DroppedIsSound(t: Transport)
    requires ValidTransport(t)
    ensures IsSound(Dropped(t))
  {
  }

  lemma SentIsValid(s: Lua.Script, w: Writer)
    requires Lua.ValidScript(s) && ValidWriter(w)
    ensures Lua.ValidScript(s.(outgoing := w))
  {
  }

  lemma AppStepIsValid(b: System, step: Step)
    requires IsSystem(b)
    requires IsAppStep(step)
    ensures IsSystem(AppNext(b, step)) && AppNext(b, step).start == b.start
  {
    match step
    case Submit(r) =>
      if Submits(b, r) {
        SubmittedIsValid(b.app, r);
      }
    case AppSend(n) =>
      if b.app.client.Some? {
        var w := b.app.client.value.writer;
        SendIsCounted(w, n);
        FlushedIsValid(b.app, Consumed(w, SentCount(w, n)));
      }
    case AppReceive(n, text, order) =>
      if !IsClosing(b.app) {
        BytesArriveIsSound(b.app, b.down[..Taken(n, b.down)], b.version, text);
        SettledIsValid(BytesArrive(b.app, b.down[..Taken(n, b.down)], b.version, text), order);
      }
    case AppLoses(order) =>
      DroppedIsSound(b.app);
      SettledIsValid(Dropped(b.app), order);
    case HandOut =>
  }

  lemma ScriptStepIsValid(b: System, step: Step)
    requires IsSystem(b)
    requires !IsAppStep(step)
    ensures IsSystem(ScriptNext(b, step)) && ScriptNext(b, step).start == b.start
  {
    match step
    case ScriptReceive(n) =>
      if b.script.phase != Lua.Offline {
        Lua.BytesArriveIsValid(b.script, b.up[..Taken(n, b.up)]);
      }
    case ScriptWork(calls) =>
    case ScriptSend(n) =>
      SendIsCounted(b.script.outgoing, n);
      SentIsValid(b.script, Consumed(b.script.outgoing, SentCount(b.script.outgoing, n)));
    case ScriptLoses => Lua.OfflineIsValid();
  }

  lemma NextIsSystem(b: System, step: Step)
    requires IsSystem(b)
    ensures IsSystem(Next(b, step)) && Next(b, step).start == b.start
  {
    if IsAppStep(step) {
      AppStepIsValid(b, step);
    } else {
      ScriptStepIsValid(b, step);
    }
  }

  ghost function Run(b: System, steps: seq<Step>): (r: System)
    requires IsSystem(b)
    ensures IsSystem(r) && r.start == b.start
    decreases |steps|
  {
    if steps == [] then b
    else
      NextIsSystem(b, steps[0]);
      Run(Next(b, steps[0]), steps[1..])
  }

  // ----- The invariant

  datatype Log = Log(app: AppLog, script: ScriptLog)

  /** The histories of both ends. */
  ghost predicate Sides(b: System, log: Log) {
    && |b.start| == U32_LIMIT && AllSendable(b.requests)
    && AppSide(b.app, b.handed, b.requests, b.start, log.app)
    && ScriptSide(b.script, b.memory, b.start, b.requests, log.script)
    && Good(log.app) <= log.script.answered
  }

  predicate Idle(d: Decoder) {
    d.frames == [] && d.error == NoError
  }

  predicate Listens(s: Lua.Script) {
    s.phase in {Lua.AwaitingHello, Lua.Online}
  }

  /** A script that listens hears what the app says. */
  ghost predicate Upward(b: System, log: Log)
    requires AllSendable(b.requests)
  {
    Listens(b.script) ==>
      && Idle(b.script.decoder)
      && OnTheWay(AppSaid(log.app, b.version, b.requests), Heard(b.script, log.script), b.script.decoder, b.up, log.app.queue)
  }

  /** An app that is not closing hears what the script says. */
  ghost predicate Downward(b: System, log: Log)
    requires |b.start| == U32_LIMIT && AllSendable(b.requests)
  {
    !IsClosing(b.app) ==>
      && Idle(b.app.client.value.decoder)
      && log.app.taken <= log.script.answered + 1 && log.script.answered <= |b.requests|
      && OnTheWay(ScriptSaid(b.start, b.requests, log.script.answered, log.script.tail), log.app.taken,
                  b.app.client.value.decoder, b.down, log.script.queue)
  }

  ghost predicate Explains(b: System, log: Log) {
    IsSystem(b) && Sides(b, log) && Upward(b, log) && Downward(b, log)
  }
}
