/** What happens to a caller that does not keep to the limits of the script's operation queue. */
module BridgeLimits {
  import opened Bags
  import opened Bytes
  import opened Frames
  import opened FrameDecoding
  import opened FrameWriting
  import opened GameMemory
  import opened TransportRules
  import opened BridgeHistory
  import opened BridgeLink
  import opened BridgeApp
  import opened BridgeScript
  import opened BridgeSystem
  import opened BridgeSteps
  import opened BridgeRun

  // ----- Mild runs: no overflow, no failing memory call, no lost connection

  ghost predicate IsMild(b: System, step: Step)
    requires IsSystem(b)
  {
    step.Submit? || IsCalm(b, step)
  }

  ghost predicate AllMild(b: System, steps: seq<Step>)
    requires IsSystem(b)
    decreases |steps|
  {
    if steps == [] then true
    else
      NextIsSystem(b, steps[0]);
      IsMild(b, steps[0]) && AllMild(Next(b, steps[0]), steps[1..])
  }

  /** The steps are mild and end in `c`. */
  ghost predicate Leads(b: System, steps: seq<Step>, c: System) {
    IsSystem(b) && AllMild(b, steps) && Run(b, steps) == c
  }

  lemma LeadsOne(b: System, step: Step, c: System)
    requires IsSystem(b) && IsMild(b, step) && Next(b, step) == c
    ensures Leads(b, [step], c) && IsSystem(c)
  {
    NextIsSystem(b, step);
    assert [step][1..] == [];
    assert Run(c, []) == c && AllMild(c, []);
  }

  lemma FirstStep(b: System, steps: seq<Step>) returns (c: System)
    requires IsSystem(b) && steps != []
    ensures IsSystem(c) && Run(b, steps) == Run(c, steps[1..])
    ensures c == Next(b, steps[0]) && (AllMild(b, steps) <==> IsMild(b, steps[0]) && AllMild(c, steps[1..]))
  {
    c := Next(b, steps[0]);
    NextIsSystem(b, steps[0]);
  }

  /** Both runs begin with the same step. */
  lemma SameFirstStep(b: System, x: seq<Step>, y: seq<Step>) returns (c: System)
    requires IsSystem(b) && x != []
    ensures IsSystem(c) && Run(b, x) == Run(c, x[1..]) && Run(b, x + y) == Run(c, x[1..] + y)
    ensures AllMild(b, x) && AllMild(c, x[1..] + y) ==> AllMild(b, x + y)
    ensures AllMild(b, x) ==> AllMild(c, x[1..])
  {
    assert (x + y)[0] == x[0] && (x + y)[1..] == x[1..] + y;
    c := FirstStep(b, x);
    var d := FirstStep(b, x + y);
  }

  lemma {:induction false} MildConcat(b: System, x: seq<Step>, y: seq<Step>)
    requires IsSystem(b) && AllMild(b, x) && AllMild(Run(b, x), y)
    ensures Run(b, x + y) == Run(Run(b, x), y) && AllMild(b, x + y)
    decreases |x|
  {
    if x == [] {
      assert x + y == y;
    } else {
      var c := SameFirstStep(b, x, y);
      MildConcat(c, x[1..], y);
    }
  }

  lemma LeadsOn(b: System, x: seq<Step>, c: System, y: seq<Step>, d: System)
    requires Leads(b, x, c) && Leads(c, y, d)
    ensures Leads(b, x + y, d)
  {
    MildConcat(b, x, y);
  }

  // ----- Callers that keep to the limits

  lemma RequestsGrow(b: System, step: Step)
    requires IsSystem(b)
    ensures b.requests <= Next(b, step).requests
    ensures step.Submit? && Submits(b, step.request) ==> Next(b, step).requests == b.requests + [step.request]
  {
  }

  lemma {:induction false} RunRequestsGrow(b: System, steps: seq<Step>)
    requires IsSystem(b)
    ensures b.requests <= Run(b, steps).requests
    decreases |steps|
  {
    if steps != [] {
      NextIsSystem(b, steps[0]);
      RequestsGrow(b, steps[0]);
      RunRequestsGrow(Next(b, steps[0]), steps[1..]);
    }
  }

  lemma AffordableSlice(rs: seq<MemoryRequest>, i: nat, j: nat)
    requires i <= j <= |rs| && Affordable(rs)
    ensures Affordable(rs[i..j])
  {
    TotalSlice(rs, i, j);
  }

  /** What is unanswered, with one more request, is a slice of all the requests. */
  lemma UnansweredIsAffordable(b: System, r: MemoryRequest, rs: seq<MemoryRequest>)
    requires b.requests + [r] <= rs && Affordable(rs)
    ensures Affordable(Unanswered(b) + [r])
  {
    var n, all := |b.handed| + |b.app.results|, |b.requests| + 1;
    var from := if n <= |b.requests| then n else |b.requests|;
    AffordableSlice(rs, from, all);
    assert rs[..all] == b.requests + [r];
    assert rs[from..all] == (b.requests + [r])[from..] == Unanswered(b) + [r];
  }

  /** A mild run with affordable requests is calm. */
  lemma {:induction false} MildIsCalm(b: System, steps: seq<Step>, rs: seq<MemoryRequest>)
    requires IsSystem(b) && AllMild(b, steps) && Run(b, steps).requests <= rs && Affordable(rs)
    ensures AllCalm(b, steps)
    decreases |steps|
  {
    if steps != [] {
      NextIsSystem(b, steps[0]);
      RequestsGrow(b, steps[0]);
      RunRequestsGrow(Next(b, steps[0]), steps[1..]);
      if steps[0].Submit? && Submits(b, steps[0].request) {
        UnansweredIsAffordable(b, steps[0].request, rs);
      }
      MildIsCalm(Next(b, steps[0]), steps[1..], rs);
    }
  }

  // ----- A caller that floods the script

  function FreshJobs(rs: seq<MemoryRequest>): (jobs: seq<Lua.Job>)
    ensures |jobs| == |rs|
  {
    if rs == [] then [] else FreshJobs(rs[..|rs| - 1]) + [FreshJob(rs[|rs| - 1])]
  }

  /** Both queues and both wires are empty, and every request is a job that has not begun. */
  function Flooded(memory: seq<byte>, v: AppVersion, rs: seq<MemoryRequest>): System {
    System(Transport(Connected, Some(Peer(EMPTY_DECODER, EMPTY_WRITER, true, false)), PendingFor(rs), []), [],
           Lua.Script(Lua.Online, EMPTY_DECODER, FreshJobs(rs), TotalRequestSize(rs), EMPTY_WRITER), [],
           memory, v, memory, rs, [])
  }

  /** A queue with a single frame is sent at once. */
  lemma SingleIsSent(f: Frame)
    requires ValidFrame(f)
    ensures var w := AfterQueue(EMPTY_WRITER, f);
            && Queues(EMPTY_WRITER, f) && ValidWriter(w) && Pending(w) == Encode(f)
            && SentCount(w, |Encode(f)|) == |Encode(f)| == w.queuedBytes
            && Pending(w)[..|Encode(f)|] == Encode(f) && Consumed(w, |Encode(f)|) == EMPTY_WRITER
  {
    QueuedUnsent(EMPTY_WRITER, Encode(f));
    var w := AfterQueue(EMPTY_WRITER, f);
    assert w.wires == [Encode(f)] && w.wires[1..] == [];
  }

  lemma AppSendsSingle(b: System, f: Frame) returns (steps: seq<Step>)
    requires IsSystem(b) && ValidFrame(f) && !IsClosing(b.app)
    requires b.app.client.value.writer == AfterQueue(EMPTY_WRITER, f)
    ensures Leads(b, steps, b.(app := WithWriter(b.app, EMPTY_WRITER), up := b.up + Encode(f)))
  {
    SingleIsSent(f);
    steps := [AppSend(|Encode(f)|)];
    LeadsOne(b, steps[0], b.(app := WithWriter(b.app, EMPTY_WRITER), up := b.up + Encode(f)));
  }

  lemma ScriptSendsSingle(b: System, f: Frame) returns (steps: seq<Step>)
    requires IsSystem(b) && ValidFrame(f) && b.script.phase != Lua.Offline
    requires b.script.outgoing == AfterQueue(EMPTY_WRITER, f)
    ensures Leads(b, steps, b.(script := b.script.(outgoing := EMPTY_WRITER), down := b.down + Encode(f)))
  {
    SingleIsSent(f);
    steps := [ScriptSend(|Encode(f)|)];
    LeadsOne(b, steps[0], b.(script := b.script.(outgoing := EMPTY_WRITER), down := b.down + Encode(f)));
  }

  /** The last bytes of a frame give the frame. */
  lemma LastBytes(d: Decoder, s: seq<byte>, f: Frame)
    requires ValidDecoder(d) && d == Decoder(d.buffer, [], 0, NoError) && ValidFrame(f)
    requires d.buffer + s == Encode(f) && s != []
    ensures Feed(d, s).frames == [f] && Feed(d, s).error == NoError && Polled(Feed(d, s)) == EMPTY_DECODER
  {
    EncodedFrameParses(f);
    FeedFinishesFrame(d, s);
    assert [] + [f] == [f];
  }

  /** Fewer bytes are only buffered. */
  lemma FirstBytes(d: Decoder, s: seq<byte>, rest: seq<byte>, f: Frame)
    requires ValidDecoder(d) && d.error == NoError && ValidFrame(f)
    requires d.buffer + s + rest == Encode(f) && rest != []
    ensures Feed(d, s) == d.(buffer := d.buffer + s)
  {
    EncodedFrameParses(f);
    var buffer := d.buffer + s;
    if |buffer| >= LENGTH_SIZE {
      assert buffer[..4] == Encode(f)[..4];
    }
    FeedBuffers(d, s);
  }

  lemma OneFrameArrives(s: Lua.Script, f: Frame)
    requires s.phase != Lua.Offline
    ensures Lua.FramesArrive(s, [f]) == Lua.FrameArrives(s, f)
  {
    assert [f][1..] == [];
  }

  /** What the script is once it has received `f`. */
  function HasReceived(b: System, f: Frame): System {
    b.(script := Lua.FrameArrives(b.script.(decoder := EMPTY_DECODER), f), up := [])
  }

  /** The script is in the middle of a frame, the rest of which is on the wire. */
  ghost predicate IsReceiving(b: System, f: Frame) {
    && IsSystem(b) && b.script.phase != Lua.Offline && ValidFrame(f)
    && b.script.decoder == Decoder(b.script.decoder.buffer, [], 0, NoError)
    && b.script.decoder.buffer + b.up == Encode(f) && b.up != []
  }

  lemma ScriptReceivesRest(b: System, f: Frame)
    requires IsReceiving(b, f) && |b.up| <= RECEIVE_CHUNK
    ensures Leads(b, [ScriptReceive(RECEIVE_CHUNK)], HasReceived(b, f))
  {
    assert b.up[..|b.up|] == b.up && b.up[|b.up|..] == [];
    LastBytes(b.script.decoder, b.up, f);
    OneFrameArrives(b.script.(decoder := EMPTY_DECODER), f);
    LeadsOne(b, ScriptReceive(RECEIVE_CHUNK), HasReceived(b, f));
  }

  lemma ScriptReceivesPart(b: System, f: Frame) returns (c: System)
    requires IsReceiving(b, f) && |b.up| > RECEIVE_CHUNK
    ensures Leads(b, [ScriptReceive(RECEIVE_CHUNK)], c) && IsReceiving(c, f) && |c.up| < |b.up|
    ensures HasReceived(c, f) == HasReceived(b, f)
  {
    var s, rest := b.up[..RECEIVE_CHUNK], b.up[RECEIVE_CHUNK..];
    assert b.up == s + rest && b.script.decoder.buffer + s + rest == Encode(f);
    FirstBytes(b.script.decoder, s, rest, f);
    c := b.(script := b.script.(decoder := b.script.decoder.(buffer := b.script.decoder.buffer + s)), up := rest);
    LeadsOne(b, ScriptReceive(RECEIVE_CHUNK), c);
  }

  /** The script receives the rest of a frame, chunk by chunk. */
  lemma {:induction false} ScriptReceivesFrame(b: System, f: Frame) returns (steps: seq<Step>)
    requires IsReceiving(b, f)
    ensures Leads(b, steps, HasReceived(b, f))
    decreases |b.up|
  {
    steps := [ScriptReceive(RECEIVE_CHUNK)];
    if |b.up| <= RECEIVE_CHUNK {
      ScriptReceivesRest(b, f);
    } else {
      var c := ScriptReceivesPart(b, f);
      var more := ScriptReceivesFrame(c, f);
      LeadsOn(b, steps, c, more, HasReceived(b, f));
      steps := steps + more;
    }
  }

  // ----- The greetings

  lemma HandshakeUp(memory: seq<byte>, v: AppVersion) returns (steps: seq<Step>)
    requires |memory| == U32_LIMIT
    ensures Leads(Connect(memory, v), steps, Offered(memory, v))
  {
    ConnectExplains(memory, v);
    ClientHelloBijection(Lua.SCRIPT_HELLO, ClientHello(PROTOCOL_MAJOR, PROTOCOL_MINOR, SCRIPT_VERSION));
    steps := ScriptSendsSingle(Connect(memory, v), Lua.SCRIPT_HELLO);
    assert [] + Encode(Lua.SCRIPT_HELLO) == Encode(Lua.SCRIPT_HELLO);
  }

  /** The script's greeting is on the wire. */
  function Offered(memory: seq<byte>, v: AppVersion): System {
    var b := Connect(memory, v);
    b.(script := b.script.(outgoing := EMPTY_WRITER), down := Encode(Lua.SCRIPT_HELLO))
  }

  /** The app has queued its own. */
  function Greeted(memory: seq<byte>, v: AppVersion): System {
    var p := Peer(EMPTY_DECODER, AfterQueue(EMPTY_WRITER, Greeting(v)), true, false);
    Offered(memory, v).(app := Transport(Connected, Some(p), map[], []), down := [])
  }

  /** The app after a receive of all that is on the wire. */
  function AllReceived(b: System, turn: Turn, order: seq<u32>): System {
    b.(app := Settled(turn, order), down := [])
  }

  lemma WholeIsReceived(b: System, text: seq<byte>, order: seq<u32>, turn: Turn)
    requires IsSystem(b) && !IsClosing(b.app) && turn == BytesArrive(b.app, b.down, b.version, text)
    requires (turn.abandon.Some? ==> Lists(order, turn.t.pending.Keys)) && |b.down| <= RECEIVE_CHUNK
    ensures Next(b, AppReceive(RECEIVE_CHUNK, text, order)) == AllReceived(b, turn, order)
  {
    assert b.down[..|b.down|] == b.down && b.down[|b.down|..] == [];
  }

  lemma AppReceivesFrame(b: System, f: Frame, text: seq<byte>, order: seq<u32>, turn: Turn) returns (steps: seq<Step>)
    requires IsSystem(b) && !IsClosing(b.app) && ValidFrame(f) && b.down == Encode(f) && |Encode(f)| <= RECEIVE_CHUNK
    requires b.app.client.value.decoder == EMPTY_DECODER && turn == FrameArrives(b.app, f, b.version, text)
    requires turn.abandon.Some? ==> Lists(order, turn.t.pending.Keys)
    ensures Leads(b, steps, AllReceived(b, turn, order))
  {
    steps := [AppReceive(RECEIVE_CHUNK, text, order)];
    OneFrameIsTaken(b.app, f, b.version, text);
    WholeIsReceived(b, text, order, turn);
    LeadsOne(b, steps[0], AllReceived(b, turn, order));
  }

  lemma OneFrameIsTaken(t: Transport, f: Frame, v: AppVersion, text: seq<byte>)
    requires ValidTransport(t) && !IsClosing(t) && ValidFrame(f) && t.client.value.decoder == EMPTY_DECODER
    ensures BytesArrive(t, Encode(f), v, text) == FrameArrives(t, f, v, text)
  {
    var d := Feed(EMPTY_DECODER, Encode(f));
    assert [] + Encode(f) == Encode(f);
    LastBytes(EMPTY_DECODER, Encode(f), f);
    BytesArriveIs(t, Encode(f), v, text, d);
    assert WithDecoder(t, EMPTY_DECODER) == t && [f][1..] == [];
    AppFramesStep(Turn(t, None), [f], FrameArrives(t, f, v, text), v, text);
    AppFramesEnd(FrameArrives(t, f, v, text), [], v, text);
  }

  lemma GreetingIsMade(memory: seq<byte>, v: AppVersion)
    requires |memory| == U32_LIMIT
    ensures FrameArrives(Offered(memory, v).app, Lua.SCRIPT_HELLO, v, []) == Turn(Greeted(memory, v).app, None)
  {
    ClientHelloBijection(Lua.SCRIPT_HELLO, ClientHello(PROTOCOL_MAJOR, PROTOCOL_MINOR, SCRIPT_VERSION));
    GreetingIsAccepted(v);
  }

  lemma HelloIsSmall()
    ensures ValidFrame(Lua.SCRIPT_HELLO) && |Encode(Lua.SCRIPT_HELLO)| <= RECEIVE_CHUNK
  {
    ClientHelloBijection(Lua.SCRIPT_HELLO, ClientHello(PROTOCOL_MAJOR, PROTOCOL_MINOR, SCRIPT_VERSION));
  }

  lemma HandshakeDown(memory: seq<byte>, v: AppVersion) returns (steps: seq<Step>)
    requires |memory| == U32_LIMIT && IsSystem(Offered(memory, v))
    ensures Leads(Offered(memory, v), steps, Greeted(memory, v))
  {
    HelloIsSmall();
    GreetingIsMade(memory, v);
    steps := AppReceivesFrame(Offered(memory, v), Lua.SCRIPT_HELLO, [], [], Turn(Greeted(memory, v).app, None));
  }

  /** The app sends a single frame, and the script receives it. */
  lemma FrameIsCarried(b: System, f: Frame, t: Lua.Script) returns (steps: seq<Step>)
    requires IsSystem(b) && ValidFrame(f) && !IsClosing(b.app) && b.up == []
    requires b.app.client.value.writer == AfterQueue(EMPTY_WRITER, f)
    requires b.script.phase != Lua.Offline && b.script.decoder == EMPTY_DECODER && Lua.FrameArrives(b.script, f) == t
    ensures Leads(b, steps, b.(app := WithWriter(b.app, EMPTY_WRITER), script := t))
  {
    var c := b.(app := WithWriter(b.app, EMPTY_WRITER), up := Encode(f));
    assert [] + Encode(f) == Encode(f);
    var x := AppSendsSingle(b, f);
    assert c.script.(decoder := EMPTY_DECODER) == c.script && [] + Encode(f) == Encode(f);
    LeadsToSystem(b, x, c);
    var y := ScriptReceivesFrame(c, f);
    LeadsOn(b, x, c, y, c.(script := t, up := []));
    steps := x + y;
  }

  lemma HandshakeEnds(memory: seq<byte>, v: AppVersion) returns (steps: seq<Step>)
    requires |memory| == U32_LIMIT && IsSystem(Greeted(memory, v))
    ensures Leads(Greeted(memory, v), steps, Flooded(memory, v, []))
  {
    var b := Greeted(memory, v);
    GreetingIsAccepted(v);
    GreetingArrives(b.script, v);
    steps := FrameIsCarried(b, Greeting(v), b.script.(phase := Lua.Online));
  }

  lemma LeadsToSystem(b: System, steps: seq<Step>, c: System)
    requires Leads(b, steps, c)
    ensures IsSystem(c)
  {
  }

  lemma Handshake(memory: seq<byte>, v: AppVersion) returns (steps: seq<Step>)
    requires |memory| == U32_LIMIT
    ensures Leads(Connect(memory, v), steps, Flooded(memory, v, []))
  {
    var x := HandshakeUp(memory, v);
    LeadsToSystem(Connect(memory, v), x, Offered(memory, v));
    var y := HandshakeDown(memory, v);
    LeadsToSystem(Offered(memory, v), y, Greeted(memory, v));
    var z := HandshakeEnds(memory, v);
    LeadsOn(Connect(memory, v), x, Offered(memory, v), y, Greeted(memory, v));
    LeadsOn(Connect(memory, v), x + y, Greeted(memory, v), z, Flooded(memory, v, []));
    steps := x + y + z;
  }

  // ----- One more request

  lemma {:induction false} IdIsPending(rs: seq<MemoryRequest>, i: nat)
    requires i < |rs|
    ensures rs[i].id in PendingFor(rs)
    decreases |rs|
  {
    if i > 0 {
      IdIsPending(rs[1..], i - 1);
    }
  }

  /** A request is not pending yet when those before it are. */
  lemma {:induction false} NextIsNew(rs: seq<MemoryRequest>, k: nat)
    requires k < |rs| && DistinctIds(rs)
    ensures PendingIs(PendingFor(rs[..k]), rs[..k]) && rs[k].id !in PendingFor(rs[..k])
    decreases k
  {
    if k > 0 {
      NextIsNew(rs[1..], k - 1);
      assert rs[..k][1..] == rs[1..][..k - 1];
      IdIsPending(rs[1..], k - 1);
      assert PendingFor(rs[..k]).Keys == PendingFor(rs[1..][..k - 1]).Keys + {rs[0].id};
      SmallerPending(rs[1..], k - 1);
    }
  }

  lemma {:induction false} SmallerPending(rs: seq<MemoryRequest>, k: nat)
    requires k <= |rs|
    ensures PendingFor(rs[..k]).Keys <= PendingFor(rs).Keys
    decreases k
  {
    if k > 0 {
      SmallerPending(rs[1..], k - 1);
      assert rs[..k][1..] == rs[1..][..k - 1];
    }
  }

  /** The app has queued the next request. */
  function Asked(memory: seq<byte>, v: AppVersion, rs: seq<MemoryRequest>, r: MemoryRequest): System
    requires Sendable(r)
  {
    var p := Peer(EMPTY_DECODER, AfterQueue(EMPTY_WRITER, FrameOf(r)), true, false);
    Flooded(memory, v, rs).(app := Transport(Connected, Some(p), PendingFor(rs + [r]), []), requests := rs + [r])
  }

  lemma RequestIsAsked(memory: seq<byte>, v: AppVersion, rs: seq<MemoryRequest>, r: MemoryRequest) returns (steps: seq<Step>)
    requires Sendable(r) && IsSystem(Flooded(memory, v, rs)) && DistinctIds(rs) && r.id !in PendingFor(rs)
    ensures Leads(Flooded(memory, v, rs), steps, Asked(memory, v, rs, r))
  {
    var b := Flooded(memory, v, rs);
    SingleIsSent(FrameOf(r));
    PendingSnoc(PendingFor(rs), rs, r);
    steps := [Submit(r)];
    LeadsOne(b, steps[0], Asked(memory, v, rs, r));
  }

  lemma JobIsQueued(memory: seq<byte>, v: AppVersion, rs: seq<MemoryRequest>, r: MemoryRequest)
    requires Sendable(r) && Affordable(rs + [r])
    ensures Lua.FrameArrives(Flooded(memory, v, rs).script, FrameOf(r)) == Flooded(memory, v, rs + [r]).script
  {
    RequestArrival(Flooded(memory, v, rs).script, r);
    TotalConcat(rs, [r]);
    TotalOne(r);
    assert (rs + [r])[..|rs|] == rs;
  }

  lemma FloodOne(memory: seq<byte>, v: AppVersion, rs: seq<MemoryRequest>, r: MemoryRequest) returns (steps: seq<Step>)
    requires Sendable(r) && IsSystem(Flooded(memory, v, rs)) && DistinctIds(rs) && r.id !in PendingFor(rs)
    requires Affordable(rs + [r])
    ensures Leads(Flooded(memory, v, rs), steps, Flooded(memory, v, rs + [r]))
  {
    var x := RequestIsAsked(memory, v, rs, r);
    LeadsToSystem(Flooded(memory, v, rs), x, Asked(memory, v, rs, r));
    JobIsQueued(memory, v, rs, r);
    var y := FrameIsCarried(Asked(memory, v, rs, r), FrameOf(r), Flooded(memory, v, rs + [r]).script);
    LeadsOn(Flooded(memory, v, rs), x, Asked(memory, v, rs, r), y, Flooded(memory, v, rs + [r]));
    steps := x + y;
  }

  /** Requests that keep to the limits all become jobs. */
  lemma {:induction false} Flood(memory: seq<byte>, v: AppVersion, rs: seq<MemoryRequest>, k: nat) returns (steps: seq<Step>)
    requires |memory| == U32_LIMIT && AllSendable(rs) && DistinctIds(rs) && k <= |rs| && Affordable(rs[..k])
    ensures Leads(Connect(memory, v), steps, Flooded(memory, v, rs[..k]))
    decreases k
  {
    if k == 0 {
      steps := Handshake(memory, v);
      assert rs[..0] == [];
    } else {
      AffordableSlice(rs[..k], 0, k - 1);
      assert rs[..k][0..k - 1] == rs[..k - 1] && rs[..k] == rs[..k - 1] + [rs[k - 1]];
      assert rs[k - 1] in rs && Sendable(rs[k - 1]);
      var x := Flood(memory, v, rs, k - 1);
      LeadsToSystem(Connect(memory, v), x, Flooded(memory, v, rs[..k - 1]));
      NextIsNew(rs, k - 1);
      var y := FloodOne(memory, v, rs[..k - 1], rs[k - 1]);
      LeadsOn(Connect(memory, v), x, Flooded(memory, v, rs[..k - 1]), y, Flooded(memory, v, rs[..k]));
      steps := x + y;
    }
  }

  // ----- One request too many

  /** The script has refused a request. */
  function Refused(memory: seq<byte>, v: AppVersion, rs: seq<MemoryRequest>, r: MemoryRequest): System
    requires Sendable(r)
  {
    var b := Asked(memory, v, rs, r);
    b.(app := WithWriter(b.app, EMPTY_WRITER), script := b.script.(outgoing := AfterQueue(EMPTY_WRITER, FullError(r.id))))
  }

  lemma FullErrorIsValid(id: u32)
    ensures ValidFrame(FullError(id)) && |Encode(FullError(id))| <= RECEIVE_CHUNK && FullError(id).kind == ERROR
  {
  }

  lemma JobIsRefused(memory: seq<byte>, v: AppVersion, rs: seq<MemoryRequest>, r: MemoryRequest)
    requires Sendable(r) && !Affordable(rs + [r])
    ensures Lua.FrameArrives(Flooded(memory, v, rs).script, FrameOf(r)) == Refused(memory, v, rs, r).script
  {
    RequestArrival(Flooded(memory, v, rs).script, r);
    TotalConcat(rs, [r]);
    TotalOne(r);
    FullErrorIsValid(r.id);
    SingleIsSent(FullError(r.id));
  }

  lemma RequestIsRefused(memory: seq<byte>, v: AppVersion, rs: seq<MemoryRequest>, r: MemoryRequest)
    returns (steps: seq<Step>)
    requires Sendable(r) && IsSystem(Flooded(memory, v, rs)) && DistinctIds(rs) && r.id !in PendingFor(rs)
    requires !Affordable(rs + [r])
    ensures Leads(Flooded(memory, v, rs), steps, Refused(memory, v, rs, r))
  {
    var x := RequestIsAsked(memory, v, rs, r);
    LeadsToSystem(Flooded(memory, v, rs), x, Asked(memory, v, rs, r));
    JobIsRefused(memory, v, rs, r);
    var y := FrameIsCarried(Asked(memory, v, rs, r), FrameOf(r), Refused(memory, v, rs, r).script);
    LeadsOn(Flooded(memory, v, rs), x, Asked(memory, v, rs, r), y, Refused(memory, v, rs, r));
    steps := x + y;
  }

  /** An error closes the app, whatever it says. */
  lemma ErrorCloses(t: Transport, f: Frame, v: AppVersion)
    requires t.client.Some? && t.client.value.handshakeAccepted && f.kind == ERROR
    ensures var turn := FrameArrives(t, f, v, []); turn.abandon.Some? && IsClosing(turn.t)
  {
  }

  /** Any finite set can be listed. */
  lemma {:induction false} ListOf(keys: set<u32>) returns (order: seq<u32>)
    ensures Lists(order, keys)
    decreases |keys|
  {
    if keys == {} {
      order := [];
    } else {
      var k :| k in keys;
      var rest := ListOf(keys - {k});
      order := [k] + rest;
    }
  }

  /** The refusal reaches the app, which closes. */
  lemma RefusalCloses(memory: seq<byte>, v: AppVersion, rs: seq<MemoryRequest>, r: MemoryRequest)
    returns (steps: seq<Step>, c: System)
    requires Sendable(r) && IsSystem(Refused(memory, v, rs, r))
    ensures Leads(Refused(memory, v, rs, r), steps, c) && c.requests == rs + [r] && c.handed == [] && IsClosing(c.app)
  {
    var b, f := Refused(memory, v, rs, r), FullError(r.id);
    FullErrorIsValid(r.id);
    var sent := b.(script := b.script.(outgoing := EMPTY_WRITER), down := Encode(f));
    assert [] + Encode(f) == Encode(f);
    var x := ScriptSendsSingle(b, f);
    LeadsToSystem(b, x, sent);
    ErrorCloses(sent.app, f, v);
    var turn := FrameArrives(sent.app, f, v, []);
    var order := ListOf(turn.t.pending.Keys);
    var y := AppReceivesFrame(sent, f, [], order, turn);
    c := sent.(app := Settled(turn, order), down := []);
    LeadsOn(b, x, sent, y, c);
    steps := x + y;
  }

  lemma {:induction false} FirstUnaffordable(rs: seq<MemoryRequest>, n: nat) returns (k: nat)
    requires n <= |rs| && !Affordable(rs[..n])
    ensures k < n && Affordable(rs[..k]) && !Affordable(rs[..k + 1])
    decreases n
  {
    assert rs[..0] == [];
    if Affordable(rs[..n - 1]) {
      k := n - 1;
    } else {
      k := FirstUnaffordable(rs, n - 1);
    }
  }

  /** There is a run that submits the requests, or the first of them, in which no decoder overflows, no memory call fails
      and no connection is lost, and still the app closes. */
  ghost predicate CanBeRefused(memory: seq<byte>, v: AppVersion, rs: seq<MemoryRequest>) {
    exists steps, c :: Leads(Connect(memory, v), steps, c) && c.requests <= rs && IsClosing(c.app)
  }

  lemma UnaffordableIsRefused(memory: seq<byte>, v: AppVersion, rs: seq<MemoryRequest>)
    returns (steps: seq<Step>, c: System)
    requires |memory| == U32_LIMIT && AllSendable(rs) && DistinctIds(rs) && !Affordable(rs)
    ensures Leads(Connect(memory, v), steps, c) && c.requests <= rs && IsClosing(c.app)
  {
    assert rs[..|rs|] == rs;
    var k := FirstUnaffordable(rs, |rs|);
    assert rs[..k + 1] == rs[..k] + [rs[k]];
    assert rs[k] in rs && Sendable(rs[k]);
    NextIsNew(rs, k);
    var x := Flood(memory, v, rs, k);
    LeadsToSystem(Connect(memory, v), x, Flooded(memory, v, rs[..k]));
    var y := RequestIsRefused(memory, v, rs[..k], rs[k]);
    LeadsToSystem(Flooded(memory, v, rs[..k]), y, Refused(memory, v, rs[..k], rs[k]));
    var z;
    z, c := RefusalCloses(memory, v, rs[..k], rs[k]);
    LeadsOn(Connect(memory, v), x, Flooded(memory, v, rs[..k]), y, Refused(memory, v, rs[..k], rs[k]));
    LeadsOn(Connect(memory, v), x + y, Refused(memory, v, rs[..k], rs[k]), z, c);
    steps := x + y + z;
  }

  lemma AffordableIsNotRefused(memory: seq<byte>, v: AppVersion, rs: seq<MemoryRequest>, steps: seq<Step>, c: System)
    requires |memory| == U32_LIMIT && Affordable(rs)
    requires Leads(Connect(memory, v), steps, c) && c.requests <= rs
    ensures !IsClosing(c.app)
  {
    MildIsCalm(Connect(memory, v), steps, rs);
    var n, partial := CalmBridge(memory, v, steps);
  }

  /** The exact condition: requests that the app accepts can be refused if and only if, all of them unanswered, they do not
      fit the operation queue. */
  lemma RefusedIffUnaffordable(memory: seq<byte>, v: AppVersion, rs: seq<MemoryRequest>)
    requires |memory| == U32_LIMIT && AllSendable(rs) && DistinctIds(rs)
    ensures CanBeRefused(memory, v, rs) <==> !Affordable(rs)
  {
    if CanBeRefused(memory, v, rs) && Affordable(rs) {
      var steps, c :| Leads(Connect(memory, v), steps, c) && c.requests <= rs && IsClosing(c.app);
      AffordableIsNotRefused(memory, v, rs, steps, c);
    }
    if !Affordable(rs) {
      var steps, c := UnaffordableIsRefused(memory, v, rs);
    }
  }

  // ----- An example

  /** The largest read that fits a frame. */
  const LARGE: nat := MAX_BODY - BODY_HEADER_SIZE

  function LargeRead(id: u32): MemoryRequest {
    MemoryRequest(id, Read, 0x08000000, [], LARGE)
  }

  function LargeReads(n: nat): seq<MemoryRequest>
    requires n < U32_LIMIT
  {
    if n == 0 then [] else [LargeRead(n)] + LargeReads(n - 1)
  }

  lemma LargeReadIsSendable(id: u32)
    requires id != 0
    ensures Sendable(LargeRead(id))
  {
    assert READABLE[5].begin <= 0x08000000 && 0x08000000 + LARGE <= READABLE[5].end;
  }

  lemma {:induction false} LargeReadsAre(n: nat)
    requires n < U32_LIMIT
    ensures AllSendable(LargeReads(n)) && DistinctIds(LargeReads(n)) && |LargeReads(n)| == n
    ensures forall id <- PendingFor(LargeReads(n)) :: id <= n
    ensures TotalRequestSize(LargeReads(n)) == n * LARGE
  {
    if n != 0 {
      LargeReadsAre(n - 1);
      LargeReadIsSendable(n);
      assert LargeReads(n)[1..] == LargeReads(n - 1);
      assert n * LARGE == (n - 1) * LARGE + LARGE;
    }
  }

  /** Five reads, far fewer than the 256 that a session may have outstanding, can be refused; four cannot. */
  lemma FiveLargeReads(memory: seq<byte>, v: AppVersion)
    requires |memory| == U32_LIMIT
    ensures CanBeRefused(memory, v, LargeReads(5)) && !CanBeRefused(memory, v, LargeReads(4))
  {
    LargeReadsAre(5);
    LargeReadsAre(4);
    RefusedIffUnaffordable(memory, v, LargeReads(5));
    RefusedIffUnaffordable(memory, v, LargeReads(4));
  }
}
