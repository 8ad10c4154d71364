/** Every step of either program and of the network keeps the histories. */
module BridgeSteps {
  import opened Bags
  import opened Bytes
  import opened Frames
  import opened FrameDecoding
  import opened FrameWriting
  import opened GameMemory
  import opened TransportRules
  import opened BridgeHistory
  import opened BridgeLink
  import opened BridgeApp
  import opened BridgeScript
  import opened BridgeSystem

  /** Nothing was refused, nothing has failed, nobody is closing, and what is unanswered keeps to the limits. */
  ghost predicate IsTidy(b: System, log: Log) {
    && !IsClosing(b.app) && IsOrderly(b.script, log.script)
    && Good(log.app) <= |b.requests| && Affordable(b.requests[Good(log.app)..])
  }

  // ----- A request is submitted

  lemma {:induction false} SubmitIsAnswered(start: seq<byte>, rs: seq<MemoryRequest>, r: MemoryRequest, n: nat)
    requires |start| == U32_LIMIT && AllSendable(rs) && Sendable(r) && n <= |rs|
    ensures AllSendable(rs + [r]) && AnswerResults(start, rs + [r], n) == AnswerResults(start, rs, n)
    decreases n
  {
    if n != 0 {
      SubmitIsAnswered(start, rs, r, n - 1);
      AnswerStays(start, rs, r, n - 1);
    }
  }

  function SubmittedLog(log: AppLog, r: MemoryRequest): AppLog
    requires Sendable(r)
  {
    log.(queue := AfterQueue(log.queue, FrameOf(r)))
  }

  lemma SubmitApp(t: Transport, handed: seq<MemoryResult>, rs: seq<MemoryRequest>, start: seq<byte>, log: AppLog,
                  r: MemoryRequest)
    requires |start| == U32_LIMIT && AllSendable(rs) && AppOpen(t, handed, rs, start, log)
    requires CanSubmit(t, r) && Sendable(r)
    ensures AllSendable(rs + [r]) && AppOpen(Submitted(t, r), handed, rs + [r], start, SubmittedLog(log, r))
    ensures 0 < log.taken && Queues(log.queue, FrameOf(r))
  {
    SubmitIsAnswered(start, rs, r, Good(log));
    PendingSnoc(t.pending, rs[Good(log)..], r);
    assert (rs + [r])[Good(log)..] == rs[Good(log)..] + [r];
  }

  lemma SubmitIsSaid(log: AppLog, v: AppVersion, rs: seq<MemoryRequest>, start: seq<byte>, r: MemoryRequest)
    requires |start| == U32_LIMIT && AllSendable(rs) && Sendable(r) && 0 < log.taken && log.closers == []
    ensures AllSendable(rs + [r])
    ensures AppSaid(SubmittedLog(log, r), v, rs + [r]) == AppSaid(log, v, rs) + [FrameOf(r)]
  {
    FramesGrow(rs, r);
  }

  lemma SubmitScript(s: Lua.Script, memory: seq<byte>, start: seq<byte>, rs: seq<MemoryRequest>, log: ScriptLog,
                     r: MemoryRequest)
    requires |start| == U32_LIMIT && AllSendable(rs) && Sendable(r) && ScriptSide(s, memory, start, rs, log)
    ensures AllSendable(rs + [r]) && ScriptSide(s, memory, start, rs + [r], log)
    ensures log.answered <= |rs|
    ensures ScriptSaid(start, rs + [r], log.answered, log.tail) == ScriptSaid(start, rs, log.answered, log.tail)
  {
    AnswersStay(start, rs, r, log.answered);
    assert (rs + [r])[..log.seen] == rs[..log.seen];
  }

  lemma SubmitUpward(b: System, c: System, log: Log, g: Log, f: Frame)
    requires AllSendable(b.requests) && AllSendable(c.requests) && Upward(b, log)
    requires c.script == b.script && c.up == b.up && g.script == log.script && Queues(log.app.queue, f)
    requires g.app.queue == AfterQueue(log.app.queue, f)
    requires AppSaid(g.app, c.version, c.requests) == AppSaid(log.app, b.version, b.requests) + [f]
    ensures Upward(c, g)
  {
    if Listens(b.script) {
      QueuedOnTheWay(AppSaid(log.app, b.version, b.requests), Heard(b.script, log.script), b.script.decoder, b.up,
                     log.app.queue, f);
    }
  }

  /** The downward link looks only at what the script has said and the app has heard. */
  lemma DownwardStays(b: System, c: System, log: Log, g: Log)
    requires |b.start| == U32_LIMIT && AllSendable(b.requests) && AllSendable(c.requests) && c.start == b.start
    requires Downward(b, log) && c.down == b.down
    requires !IsClosing(c.app) ==> !IsClosing(b.app) && c.app.client.value.decoder == b.app.client.value.decoder
    requires !IsClosing(c.app) ==> g.app.taken == log.app.taken && g.script == log.script
    requires !IsClosing(c.app) ==> log.script.answered <= |b.requests| && log.script.answered <= |c.requests|
                                   && ScriptSaid(c.start, c.requests, log.script.answered, log.script.tail)
                                      == ScriptSaid(b.start, b.requests, log.script.answered, log.script.tail)
    ensures Downward(c, g)
  {
  }

  lemma SubmitExplains(b: System, log: Log, r: MemoryRequest) returns (g: Log)
    requires Explains(b, log) && Submits(b, r)
    ensures Explains(WithRequest(b, r), g) && g.app.taken == log.app.taken && g.script == log.script
  {
    g := log.(app := SubmittedLog(log.app, r));
    var c := WithRequest(b, r);
    SubmittedIsValid(b.app, r);
    SubmitApp(b.app, b.handed, b.requests, b.start, log.app, r);
    SubmitIsSaid(log.app, b.version, b.requests, b.start, r);
    SubmitScript(b.script, b.memory, b.start, b.requests, log.script, r);
    SubmitUpward(b, c, log, g, FrameOf(r));
    DownwardStays(b, c, log, g);
  }

  // ----- The app sends

  lemma SentApp(t: Transport, handed: seq<MemoryResult>, rs: seq<MemoryRequest>, start: seq<byte>, log: AppLog, w: Writer)
    requires |start| == U32_LIMIT && AllSendable(rs) && AppSide(t, handed, rs, start, log) && t.client.Some?
    requires log.taken == 0 && !IsClosing(t) ==> w == EMPTY_WRITER
    ensures AppSide(Flushed(WithWriter(t, w)), handed, rs, start, log.(queue := w))
    ensures IsClosing(Flushed(WithWriter(t, w))) <==> IsClosing(t)
  {
  }

  lemma SentUpward(b: System, c: System, log: Log, g: Log, n: nat)
    requires AllSendable(b.requests) && Upward(b, log) && n <= |Pending(log.app.queue)| && n <= log.app.queue.queuedBytes
    requires c.script == b.script && c.up == b.up + Pending(log.app.queue)[..n] && c.requests == b.requests
    requires c.version == b.version && g == log.(app := log.app.(queue := Consumed(log.app.queue, n)))
    ensures Upward(c, g)
  {
    if Listens(b.script) {
      SentOnTheWay(AppSaid(log.app, b.version, b.requests), Heard(b.script, log.script), b.script.decoder, b.up,
                   log.app.queue, n);
    }
  }

  lemma AppSendExplains(b: System, log: Log, n: nat) returns (g: Log)
    requires Explains(b, log) && b.app.client.Some?
    ensures Explains(AppSent(b, n), g) && g.app.taken == log.app.taken && g.script == log.script
    ensures !IsClosing(b.app) ==> !IsClosing(AppSent(b, n).app)
  {
    var w := log.app.queue;
    SendIsCounted(w, n);
    var c, after := AppSent(b, n), Consumed(w, SentCount(w, n));
    g := log.(app := log.app.(queue := after));
    FlushedIsValid(b.app, after);
    SentApp(b.app, b.handed, b.requests, b.start, log.app, after);
    SentUpward(b, c, log, g, SentCount(w, n));
    DownwardStays(b, c, log, g);
  }

  // ----- The app receives

  lemma AppReceiveLinks(b: System, c: System, log: Log, g: Log, more: seq<Frame>)
    requires AllSendable(b.requests) && Upward(b, log) && c.script == b.script && c.up == b.up
    requires c.requests == b.requests && c.version == b.version && g.script == log.script
    requires Says(log.app.queue, more, g.app.queue)
    requires AppSaid(g.app, b.version, b.requests) == AppSaid(log.app, b.version, b.requests) + more
    ensures Upward(c, g)
  {
    if Listens(b.script) {
      SaidOnTheWay(AppSaid(log.app, b.version, b.requests), more, Heard(b.script, log.script), b.script.decoder, b.up,
                   log.app.queue, g.app.queue);
    }
  }

  lemma WithDecoderOpen(t: Transport, d: Decoder, handed: seq<MemoryResult>, rs: seq<MemoryRequest>, start: seq<byte>,
                        log: AppLog)
    requires |start| == U32_LIMIT && AllSendable(rs) && AppOpen(t, handed, rs, start, log)
    ensures AppOpen(WithDecoder(t, d), handed, rs, start, log)
  {
  }

  /** A decoder overflows. */
  lemma AppOverflows(t: Transport, d: Decoder, v: AppVersion, text: seq<byte>, handed: seq<MemoryResult>,
                     rs: seq<MemoryRequest>, start: seq<byte>, log: AppLog) returns (turn: Turn, g: AppLog, more: seq<Frame>)
    requires |start| == U32_LIMIT && AllSendable(rs) && AppOpen(t, handed, rs, start, log)
    ensures turn == ProtocolClosed(WithDecoder(t, d), MALFORMED_FRAME, text) && turn.abandon.Some?
    ensures g.taken == log.taken
    ensures AppTurn(turn, handed, rs, start, g) && Says(log.queue, more, g.queue)
    ensures AppSaid(g, v, rs) == AppSaid(log, v, rs) + more
  {
    var u := WithDecoder(t, d);
    turn := ProtocolClosed(u, MALFORMED_FRAME, text);
    WithDecoderOpen(t, d, handed, rs, start, log);
    more := ProtocolClosedCloses(u, MALFORMED_FRAME, text);
    AppCloses(u, turn, more, handed, rs, start, log);
    ClosersAreSaid(turn.t, more, log, v, rs);
    g := ClosingLog(turn.t, more, log);
  }

  lemma SaidLength(start: seq<byte>, rs: seq<MemoryRequest>, answered: nat)
    requires |start| == U32_LIMIT && AllSendable(rs) && answered <= |rs|
    ensures |ScriptSaid(start, rs, answered, [])| == answered + 1
  {
  }

  /** The frames of a decoder that did not overflow. */
  lemma AppHearsDecoded(t: Transport, d: Decoder, v: AppVersion, text: seq<byte>, handed: seq<MemoryResult>,
                        rs: seq<MemoryRequest>, start: seq<byte>, answered: nat, tail: seq<Frame>, log: AppLog)
    returns (turn: Turn, g: AppLog, more: seq<Frame>)
    requires |start| == U32_LIMIT && AllSendable(rs) && answered <= |rs| && IsTail(tail)
    requires AppOpen(t, handed, rs, start, log) && log.taken <= answered + 1 && d.error == NoError
    requires Continues(ScriptSaid(start, rs, answered, tail), log.taken, d.frames)
    ensures turn == FramesArrive(Turn(WithDecoder(t, Polled(d)), None), d.frames, v, text)
    ensures AppTurn(turn, handed, rs, start, g) && Says(log.queue, more, g.queue)
    ensures AppSaid(g, v, rs) == AppSaid(log, v, rs) + more
    ensures turn.abandon.None? ==> g.taken == log.taken + |d.frames| && turn.t.client.value.decoder == Polled(d)
    ensures tail == [] ==> turn.abandon.None?
    ensures g.taken <= answered + 1
  {
    WithDecoderOpen(t, Polled(d), handed, rs, start, log);
    SaidLength(start, rs, answered);
    turn, g, more := AppHearsAll(WithDecoder(t, Polled(d)), d.frames, v, text, handed, rs, start, answered, tail, log);
  }

  lemma BytesArriveIs(t: Transport, bytes: seq<byte>, v: AppVersion, text: seq<byte>, d: Decoder)
    requires ValidTransport(t) && t.client.Some? && d == Feed(t.client.value.decoder, bytes)
    ensures BytesArrive(t, bytes, v, text)
         == if d.error != NoError then ProtocolClosed(WithDecoder(t, d), MALFORMED_FRAME, text)
            else FramesArrive(Turn(WithDecoder(t, Polled(d)), None), d.frames, v, text)
  {
  }

  /** Bytes arrive at an open app: it stays open and has heard all of their frames, or it closes. */
  lemma AppHearsBytes(t: Transport, bytes: seq<byte>, d: Decoder, v: AppVersion, text: seq<byte>,
                      handed: seq<MemoryResult>, rs: seq<MemoryRequest>, start: seq<byte>, answered: nat,
                      tail: seq<Frame>, log: AppLog) returns (turn: Turn, g: AppLog, more: seq<Frame>)
    requires |start| == U32_LIMIT && AllSendable(rs) && answered <= |rs| && IsTail(tail) && ValidTransport(t)
    requires AppOpen(t, handed, rs, start, log) && log.taken <= answered + 1
    requires d == Feed(t.client.value.decoder, bytes)
    requires Continues(ScriptSaid(start, rs, answered, tail), log.taken, d.frames)
    ensures turn == BytesArrive(t, bytes, v, text)
    ensures AppTurn(turn, handed, rs, start, g) && Says(log.queue, more, g.queue)
    ensures AppSaid(g, v, rs) == AppSaid(log, v, rs) + more
    ensures turn.abandon.None? ==> d.error == NoError && g.taken == log.taken + |d.frames|
                                   && turn.t.client.value.decoder == Polled(d)
    ensures tail == [] && d.error == NoError ==> turn.abandon.None?
    ensures g.taken <= answered + 1
  {
    BytesArriveIs(t, bytes, v, text, d);
    if d.error != NoError {
      turn, g, more := AppOverflows(t, d, v, text, handed, rs, start, log);
    } else {
      turn, g, more := AppHearsDecoded(t, d, v, text, handed, rs, start, answered, tail, log);
    }
  }

  lemma DownwardContinues(b: System, log: Log, n: nat, d: Decoder)
    requires |b.start| == U32_LIMIT && AllSendable(b.requests) && Downward(b, log) && !IsClosing(b.app) && n <= |b.down|
    requires ValidDecoder(b.app.client.value.decoder) && d == Feed(b.app.client.value.decoder, b.down[..n])
    ensures Continues(ScriptSaid(b.start, b.requests, log.script.answered, log.script.tail), log.app.taken, d.frames)
  {
    HeardOnTheWay(ScriptSaid(b.start, b.requests, log.script.answered, log.script.tail), log.app.taken,
                  b.app.client.value.decoder, b.down, log.script.queue, n, d);
  }

  lemma HearsOn(b: System, log: Log, n: nat, d: Decoder, t: Transport, a: AppLog)
    requires |b.start| == U32_LIMIT && AllSendable(b.requests) && Downward(b, log) && !IsClosing(b.app) && n <= |b.down|
    requires ValidDecoder(b.app.client.value.decoder) && d == Feed(b.app.client.value.decoder, b.down[..n])
    requires !IsClosing(t) ==> d.error == NoError && a.taken == log.app.taken + |d.frames| <= log.script.answered + 1
                               && t.client.value.decoder == Polled(d)
    ensures Downward(b.(app := t, down := b.down[n..]), log.(app := a))
  {
    HeardOnTheWay(ScriptSaid(b.start, b.requests, log.script.answered, log.script.tail), log.app.taken,
                  b.app.client.value.decoder, b.down, log.script.queue, n, d);
  }

  /** The app after a receive that is possible. */
  lemma AppMoves(b: System, log: Log, turn: Turn, order: seq<u32>, down: seq<byte>, a: AppLog, more: seq<Frame>)
    requires IsSystem(b) && Sides(b, log) && Upward(b, log) && IsSound(turn)
    requires turn.abandon.Some? ==> Lists(order, turn.t.pending.Keys)
    requires AppTurn(turn, b.handed, b.requests, b.start, a) && Says(log.app.queue, more, a.queue)
    requires AppSaid(a, b.version, b.requests) == AppSaid(log.app, b.version, b.requests) + more
    requires a.taken <= log.script.answered + 1
    ensures var c, g := b.(app := Settled(turn, order), down := down), log.(app := a);
            IsSystem(c) && Sides(c, g) && Upward(c, g) && (IsClosing(c.app) <==> turn.abandon.Some?)
  {
    SettledIsValid(turn, order);
    TurnSettles(turn, order, b.handed, b.requests, b.start, a);
    AppReceiveLinks(b, b.(app := Settled(turn, order), down := down), log, log.(app := a), more);
  }

  lemma OpenAppMoves(b: System, log: Log, bytes: seq<byte>, d: Decoder, down: seq<byte>, text: seq<byte>, order: seq<u32>)
    returns (turn: Turn, a: AppLog)
    requires IsSystem(b) && Sides(b, log) && Upward(b, log) && !IsClosing(b.app)
    requires log.app.taken <= log.script.answered + 1 && log.script.answered <= |b.requests|
    requires d == Feed(b.app.client.value.decoder, bytes)
    requires Continues(ScriptSaid(b.start, b.requests, log.script.answered, log.script.tail), log.app.taken, d.frames)
    ensures turn == BytesArrive(b.app, bytes, b.version, text)
    ensures turn.abandon.None? || Lists(order, turn.t.pending.Keys) ==>
              var c, g := b.(app := Settled(turn, order), down := down), log.(app := a);
              && IsSystem(c) && Sides(c, g) && Upward(c, g)
              && (!IsClosing(c.app) ==> d.error == NoError && a.taken == log.app.taken + |d.frames| <= log.script.answered + 1
                                        && c.app.client.value.decoder == Polled(d))
              && (log.script.tail == [] && d.error == NoError ==> !IsClosing(c.app))
  {
    var more;
    turn, a, more := AppHearsBytes(b.app, bytes, d, b.version, text, b.handed, b.requests, b.start,
                                   log.script.answered, log.script.tail, log.app);
    BytesArriveIsSound(b.app, bytes, b.version, text);
    if turn.abandon.None? || Lists(order, turn.t.pending.Keys) {
      AppMoves(b, log, turn, order, down, a, more);
      SettledIsValid(turn, order);
    }
  }

  /** The next state of the system, after a receive that is possible. */
  function AppAdvanced(b: System, turn: Turn, order: seq<u32>, n: nat): System
    requires n <= |b.down|
  {
    b.(app := Settled(turn, order), down := b.down[n..])
  }

  lemma AppReceivedIs(b: System, n: nat, text: seq<byte>, order: seq<u32>, turn: Turn)
    requires IsSystem(b) && !IsClosing(b.app) && n <= |b.down| && turn == BytesArrive(b.app, b.down[..n], b.version, text)
    ensures AppReceived(b, n, text, order)
         == if turn.abandon.None? || Lists(order, turn.t.pending.Keys) then AppAdvanced(b, turn, order, n) else b
  {
  }

  lemma AppReceiveExplains(b: System, log: Log, n: nat, text: seq<byte>, order: seq<u32>, d: Decoder) returns (g: Log)
    requires Explains(b, log) && !IsClosing(b.app) && n <= |b.down| && d == Feed(b.app.client.value.decoder, b.down[..n])
    ensures Explains(AppReceived(b, n, text, order), g) && g.script == log.script
    ensures log.script.tail == [] && d.error == NoError ==> !IsClosing(AppReceived(b, n, text, order).app)
    ensures !IsClosing(AppReceived(b, n, text, order).app) ==> log.app.taken <= g.app.taken
  {
    DownwardContinues(b, log, n, d);
    var turn, a := OpenAppMoves(b, log, b.down[..n], d, b.down[n..], text, order);
    g := log;
    if turn.abandon.None? || Lists(order, turn.t.pending.Keys) {
      g := log.(app := a);
      HearsOn(b, log, n, d, Settled(turn, order), a);
      assert Explains(AppAdvanced(b, turn, order, n), g);
    }
    AppReceivedIs(b, n, text, order, turn);
  }

  // ----- The app loses its connection, or hands out its results

  lemma DroppedTurn(t: Transport, handed: seq<MemoryResult>, rs: seq<MemoryRequest>, start: seq<byte>, log: AppLog)
    requires |start| == U32_LIMIT && AllSendable(rs) && AppSide(t, handed, rs, start, log)
    ensures AppTurn(Dropped(t), handed, rs, start, log) && Dropped(t).t.pending == t.pending
  {
    if !IsClosing(t) {
      OpenAccounts(t, handed, rs, start, log);
    }
  }

  lemma AppLosesExplains(b: System, log: Log, order: seq<u32>)
    requires Explains(b, log)
    ensures Explains(AppLost(b, order), log)
  {
    if b.app.client.Some? && Lists(order, b.app.pending.Keys) {
      var c := AppLost(b, order);
      DroppedIsSound(b.app);
      SettledIsValid(Dropped(b.app), order);
      DroppedTurn(b.app, b.handed, b.requests, b.start, log.app);
      TurnSettles(Dropped(b.app), order, b.handed, b.requests, b.start, log.app);
      UpwardStays(b, c, log);
    }
  }

  lemma UpwardStays(b: System, c: System, log: Log)
    requires AllSendable(b.requests) && Upward(b, log) && c.script == b.script && c.up == b.up
    requires c.requests == b.requests && c.version == b.version
    ensures Upward(c, log)
  {
  }

  lemma HandOutApp(t: Transport, handed: seq<MemoryResult>, rs: seq<MemoryRequest>, start: seq<byte>, log: AppLog)
    requires |start| == U32_LIMIT && AllSendable(rs) && AppSide(t, handed, rs, start, log)
    ensures AppSide(t.(results := []), handed + t.results, rs, start, log)
  {
    assert handed + t.results + [] == handed + t.results;
  }

  lemma HandOutExplains(b: System, log: Log)
    requires Explains(b, log)
    ensures Explains(AppHanded(b), log)
  {
    HandOutApp(b.app, b.handed, b.requests, b.start, log.app);
    UpwardStays(b, AppHanded(b), log);
    DownwardStays(b, AppHanded(b), log, log);
  }

  // ----- The script receives

  /** The downward link once the script has said more. */
  lemma ScriptSaysMore(b: System, c: System, log: Log, g: Log, more: seq<Frame>)
    requires |b.start| == U32_LIMIT && AllSendable(b.requests) && Downward(b, log)
    requires c.app == b.app && c.down == b.down && c.start == b.start && c.requests == b.requests
    requires g.app == log.app && Goes(log.script, c.script, c.memory, b.start, b.requests, g.script, more)
    ensures Downward(c, g)
  {
    if !IsClosing(b.app) {
      SaidOnTheWay(ScriptSaid(b.start, b.requests, log.script.answered, log.script.tail), more, log.app.taken,
                   b.app.client.value.decoder, b.down, log.script.queue, g.script.queue);
    }
  }

  lemma ScriptOverflows(s: Lua.Script, text: seq<byte>, memory: seq<byte>, start: seq<byte>, rs: seq<MemoryRequest>,
                        log: ScriptLog) returns (g: ScriptLog, more: seq<Frame>)
    requires |start| == U32_LIMIT && AllSendable(rs) && ScriptSide(s, memory, start, rs, log) && s.phase != Lua.Offline
    ensures var t := Lua.ProtocolClose(s, text);
            Goes(log, t, memory, start, rs, g, more) && t.phase in {Lua.Closing, Lua.Offline}
  {
    more := ProtocolCloseLeaves(s, text);
    LeavingIsRecord(s, Lua.ProtocolClose(s, text), more, memory, start, rs, log);
    g := LeftLog(s, Lua.ProtocolClose(s, text), more, log);
    TailGrows(start, rs, log.answered, log.tail, more);
  }

  lemma ScriptBytesAre(s: Lua.Script, bytes: seq<byte>, d: Decoder)
    requires ValidDecoder(s.decoder) && d == Feed(s.decoder, bytes)
    ensures Lua.BytesArrive(s, bytes)
         == if d.error != NoError then Lua.ProtocolClose(s.(decoder := d), Lua.DecoderText(d.error))
            else Lua.FramesArrive(s.(decoder := Polled(d)), d.frames)
  {
  }

  lemma OtherDecoder(s: Lua.Script, d: Decoder, memory: seq<byte>, start: seq<byte>, rs: seq<MemoryRequest>, log: ScriptLog)
    requires |start| == U32_LIMIT && AllSendable(rs) && ScriptSide(s, memory, start, rs, log)
    ensures ScriptSide(s.(decoder := d), memory, start, rs, log)
  {
  }

  lemma PolledIsValid(s: Lua.Script, d: Decoder)
    requires Lua.ValidScript(s) && ValidDecoder(d) && d.error == NoError
    ensures Lua.ValidScript(s.(decoder := Polled(d))) && AllValid(d.frames)
  {
    assert TotalSize([]) == 0;
  }

  /** A closing script hears bytes, whatever they are. */
  lemma ClosingHearsBytes(s: Lua.Script, bytes: seq<byte>, memory: seq<byte>, start: seq<byte>, rs: seq<MemoryRequest>,
                          log: ScriptLog) returns (g: ScriptLog, more: seq<Frame>)
    requires |start| == U32_LIMIT && AllSendable(rs) && ScriptSide(s, memory, start, rs, log)
    requires ValidDecoder(s.decoder) && s.phase == Lua.Closing
    ensures var t := Lua.BytesArrive(s, bytes);
            Goes(log, t, memory, start, rs, g, more) && t.phase in {Lua.Closing, Lua.Offline}
  {
    var d := Feed(s.decoder, bytes);
    ScriptBytesAre(s, bytes, d);
    if d.error != NoError {
      OtherDecoder(s, d, memory, start, rs, log);
      g, more := ScriptOverflows(s.(decoder := d), Lua.DecoderText(d.error), memory, start, rs, log);
    } else {
      OtherDecoder(s, Polled(d), memory, start, rs, log);
      g, more := ClosingHearsAll(s.(decoder := Polled(d)), d.frames, memory, start, rs, log);
    }
  }

  predicate KeepsToLimits(s: Lua.Script, log: ScriptLog, alog: AppLog, rs: seq<MemoryRequest>, first: nat)
    requires first <= |rs|
  {
    IsOrderly(s, log) && alog.closers == [] && first <= log.answered && Affordable(rs[first..])
  }

  lemma ListeningHearsDecoded(s: Lua.Script, d: Decoder, memory: seq<byte>, start: seq<byte>, rs: seq<MemoryRequest>,
                              v: AppVersion, alog: AppLog, log: ScriptLog, first: nat)
    returns (t: Lua.Script, g: ScriptLog, more: seq<Frame>)
    requires |start| == U32_LIMIT && AllSendable(rs) && ScriptSide(s, memory, start, rs, log) && Lua.ValidScript(s)
    requires Listens(s) && AllClosers(alog.closers) && (alog.taken == 0 ==> rs == []) && first <= |rs|
    requires ValidDecoder(d) && d.error == NoError && Continues(AppSaid(alog, v, rs), Heard(s, log), d.frames)
    ensures t == Lua.FramesArrive(s.(decoder := Polled(d)), d.frames) && Goes(log, t, memory, start, rs, g, more)
    ensures Listens(t) ==> t.decoder == Polled(d) && Heard(t, g) == Heard(s, log) + |d.frames|
    ensures KeepsToLimits(s, log, alog, rs, first) ==> IsOrderly(t, g)
  {
    OtherDecoder(s, Polled(d), memory, start, rs, log);
    PolledIsValid(s, d);
    t, g, more := ScriptHearsAll(s.(decoder := Polled(d)), d.frames, memory, start, rs, v, alog, log, first);
  }

  /** A listening script hears bytes. */
  lemma ListeningHearsBytes(s: Lua.Script, bytes: seq<byte>, d: Decoder, memory: seq<byte>, start: seq<byte>,
                            rs: seq<MemoryRequest>, v: AppVersion, alog: AppLog, log: ScriptLog, first: nat)
    returns (t: Lua.Script, g: ScriptLog, more: seq<Frame>)
    requires |start| == U32_LIMIT && AllSendable(rs) && ScriptSide(s, memory, start, rs, log) && Lua.ValidScript(s)
    requires Listens(s) && AllClosers(alog.closers) && (alog.taken == 0 ==> rs == []) && first <= |rs|
    requires d == Feed(s.decoder, bytes)
    requires d.error == NoError ==> Continues(AppSaid(alog, v, rs), Heard(s, log), d.frames)
    ensures t == Lua.BytesArrive(s, bytes) && Goes(log, t, memory, start, rs, g, more)
    ensures Listens(t) ==> t.decoder == Polled(d) && d.error == NoError && Heard(t, g) == Heard(s, log) + |d.frames|
    ensures d.error == NoError && KeepsToLimits(s, log, alog, rs, first) ==> IsOrderly(t, g)
  {
    ScriptBytesAre(s, bytes, d);
    if d.error != NoError {
      t := Lua.BytesArrive(s, bytes);
      OtherDecoder(s, d, memory, start, rs, log);
      g, more := ScriptOverflows(s.(decoder := d), Lua.DecoderText(d.error), memory, start, rs, log);
    } else {
      t, g, more := ListeningHearsDecoded(s, d, memory, start, rs, v, alog, log, first);
    }
  }

  /** The script has moved on; whether it still listens to the app is another matter. */
  lemma ScriptMoves(b: System, t: Lua.Script, up: seq<byte>, memory: seq<byte>, log: Log, s: ScriptLog, more: seq<Frame>)
    requires IsSystem(b) && Sides(b, log) && Downward(b, log) && Lua.ValidScript(t) && |memory| == U32_LIMIT
    requires Goes(log.script, t, memory, b.start, b.requests, s, more)
    ensures var c, g := b.(script := t, up := up, memory := memory), log.(script := s);
            IsSystem(c) && Sides(c, g) && Downward(c, g)
  {
    ScriptSaysMore(b, b.(script := t, up := up, memory := memory), log, log.(script := s), more);
  }

  lemma UpwardContinues(b: System, log: Log, n: nat, d: Decoder)
    requires AllSendable(b.requests) && Upward(b, log) && Listens(b.script) && n <= |b.up|
    requires ValidDecoder(b.script.decoder) && d == Feed(b.script.decoder, b.up[..n])
    ensures Continues(AppSaid(log.app, b.version, b.requests), Heard(b.script, log.script), d.frames)
  {
    HeardOnTheWay(AppSaid(log.app, b.version, b.requests), Heard(b.script, log.script), b.script.decoder, b.up,
                  log.app.queue, n, d);
  }

  lemma ListensOn(b: System, log: Log, n: nat, d: Decoder, t: Lua.Script, s: ScriptLog)
    requires AllSendable(b.requests) && Upward(b, log) && Listens(b.script) && n <= |b.up|
    requires ValidDecoder(b.script.decoder) && d == Feed(b.script.decoder, b.up[..n])
    requires Listens(t) ==>
               t.decoder == Polled(d) && d.error == NoError && Heard(t, s) == Heard(b.script, log.script) + |d.frames|
    ensures Upward(b.(script := t, up := b.up[n..]), log.(script := s))
  {
    HeardOnTheWay(AppSaid(log.app, b.version, b.requests), Heard(b.script, log.script), b.script.decoder, b.up,
                  log.app.queue, n, d);
  }

  lemma ListeningMoves(b: System, log: Log, bytes: seq<byte>, d: Decoder, up: seq<byte>)
    returns (t: Lua.Script, s: ScriptLog)
    requires IsSystem(b) && Sides(b, log) && Downward(b, log) && Listens(b.script) && d == Feed(b.script.decoder, bytes)
    requires Continues(AppSaid(log.app, b.version, b.requests), Heard(b.script, log.script), d.frames)
    ensures t == Lua.BytesArrive(b.script, bytes)
    ensures var c, g := b.(script := t, up := up), log.(script := s); IsSystem(c) && Sides(c, g) && Downward(c, g)
    ensures Listens(t) ==>
              t.decoder == Polled(d) && d.error == NoError && Heard(t, s) == Heard(b.script, log.script) + |d.frames|
    ensures IsTidy(b, log) && d.error == NoError ==> IsOrderly(t, s)
  {
    var more;
    t, s, more := ListeningHearsBytes(b.script, bytes, d, b.memory, b.start, b.requests, b.version, log.app,
                                      log.script, FirstUnanswered(b, log));
    Lua.BytesArriveIsValid(b.script, bytes);
    ScriptMoves(b, t, up, b.memory, log, s, more);
  }

  lemma ListeningScriptExplains(b: System, log: Log, n: nat, d: Decoder) returns (g: Log)
    requires Explains(b, log) && Listens(b.script) && n <= |b.up| && d == Feed(b.script.decoder, b.up[..n])
    ensures Explains(ScriptReceived(b, n), g) && g.app == log.app
    ensures IsTidy(b, log) && d.error == NoError ==> IsOrderly(ScriptReceived(b, n).script, g.script)
  {
    UpwardContinues(b, log, n, d);
    var t, s := ListeningMoves(b, log, b.up[..n], d, b.up[n..]);
    g := log.(script := s);
    ListensOn(b, log, n, d, t, s);
  }

  lemma ClosingMoves(b: System, log: Log, bytes: seq<byte>, up: seq<byte>) returns (t: Lua.Script, s: ScriptLog)
    requires IsSystem(b) && Sides(b, log) && Downward(b, log) && b.script.phase == Lua.Closing
    ensures t == Lua.BytesArrive(b.script, bytes) && !Listens(t)
    ensures var c, g := b.(script := t, up := up), log.(script := s); IsSystem(c) && Sides(c, g) && Downward(c, g)
  {
    var more;
    t := Lua.BytesArrive(b.script, bytes);
    s, more := ClosingHearsBytes(b.script, bytes, b.memory, b.start, b.requests, log.script);
    Lua.BytesArriveIsValid(b.script, bytes);
    ScriptMoves(b, t, up, b.memory, log, s, more);
  }

  lemma ClosingScriptExplains(b: System, log: Log, n: nat) returns (g: Log)
    requires Explains(b, log) && b.script.phase == Lua.Closing && n <= |b.up|
    ensures Explains(ScriptReceived(b, n), g) && g.app == log.app
  {
    var t, s := ClosingMoves(b, log, b.up[..n], b.up[n..]);
    g := log.(script := s);
  }

  /** The requests from here on are unanswered. */
  ghost function FirstUnanswered(b: System, log: Log): (n: nat)
    ensures n <= |b.requests|
  {
    if Good(log.app) <= |b.requests| then Good(log.app) else 0
  }

  // ----- The script works, sends, or loses its connection

  lemma WorkExplains(b: System, log: Log, calls: seq<Lua.EmulatorCall>) returns (g: Log)
    requires Explains(b, log) && b.script.phase == Lua.Online
    ensures Explains(Worked(b, calls), g) && g.app == log.app
    ensures calls == [] && IsOrderly(b.script, log.script) ==> IsOrderly(Worked(b, calls).script, g.script)
  {
    WorkIsValid(b, calls);
    var w := Lua.Work(b.script, b.memory, 0, 0, calls);
    var s, more := WorkAll(w, b.start, b.requests, log.script);
    g := log.(script := s);
    ScriptMoves(b, Worked(b, calls).script, b.up, Worked(b, calls).memory, log, s, more);
  }

  lemma ScriptSentDownward(b: System, s: Lua.Script, log: Log, n: nat)
    requires |b.start| == U32_LIMIT && AllSendable(b.requests) && Downward(b, log)
    requires n <= |Pending(log.script.queue)| && n <= log.script.queue.queuedBytes
    ensures Downward(b.(script := s, down := b.down + Pending(log.script.queue)[..n]),
                     log.(script := log.script.(queue := Consumed(log.script.queue, n))))
  {
    if !IsClosing(b.app) {
      SentOnTheWay(ScriptSaid(b.start, b.requests, log.script.answered, log.script.tail), log.app.taken,
                   b.app.client.value.decoder, b.down, log.script.queue, n);
    }
  }

  lemma ScriptSentSide(s: Lua.Script, w: Writer, memory: seq<byte>, start: seq<byte>, rs: seq<MemoryRequest>, log: ScriptLog)
    requires |start| == U32_LIMIT && AllSendable(rs) && ScriptSide(s, memory, start, rs, log)
    requires Lua.ValidScript(s) && ValidWriter(w)
    ensures ScriptSide(s.(outgoing := w), memory, start, rs, log.(queue := w)) && Lua.ValidScript(s.(outgoing := w))
  {
  }

  lemma ScriptSentUpward(b: System, w: Writer, down: seq<byte>, log: Log)
    requires AllSendable(b.requests) && Upward(b, log)
    ensures Upward(b.(script := b.script.(outgoing := w), down := down), log.(script := log.script.(queue := w)))
  {
  }

  lemma ScriptSendExplains(b: System, log: Log, n: nat) returns (g: Log)
    requires Explains(b, log) && b.script.phase != Lua.Offline
    ensures Explains(ScriptSent(b, n), g) && g.app == log.app
    ensures IsOrderly(b.script, log.script) ==> IsOrderly(ScriptSent(b, n).script, g.script)
  {
    var w := log.script.queue;
    SendIsCounted(w, n);
    var after := Consumed(w, SentCount(w, n));
    g := log.(script := log.script.(queue := after));
    ScriptSentSide(b.script, after, b.memory, b.start, b.requests, log.script);
    ScriptSentDownward(b, b.script.(outgoing := after), log, SentCount(w, n));
    ScriptSentUpward(b, after, b.down + Pending(w)[..SentCount(w, n)], log);
  }

  lemma ScriptLosesExplains(b: System, log: Log) returns (g: Log)
    requires Explains(b, log)
    ensures Explains(ScriptLost(b), g) && g.app == log.app
  {
    var c := ScriptLost(b);
    Lua.OfflineIsValid();
    g := log;
    if b.script.phase == Lua.Online {
      HaltedIsRecord(b.script.jobs, b.memory, b.start, b.requests, log.script);
      g := log.(script := Halted(b.script.jobs, log.script));
    }
    DownwardStays(b, c, log, log);
  }

  // ----- Runs of callers that keep to the limits

  /** The requests that have no result yet. */
  function Unanswered(b: System): seq<MemoryRequest> {
    var n := |b.handed| + |b.app.results|;
    if n <= |b.requests| then b.requests[n..] else []
  }

  /** A step of a caller that keeps to the limits of the operation queue, of a script whose decoder does not overflow and
      whose memory calls work, and of a network that does not lose the connection. */
  ghost predicate IsCalm(b: System, step: Step)
    requires IsSystem(b)
  {
    match step
    case Submit(r) => Submits(b, r) ==> Affordable(Unanswered(b) + [r])
    case ScriptReceive(n) => Feed(b.script.decoder, b.up[..Taken(n, b.up)]).error == NoError
    case ScriptWork(calls) => calls == []
    case AppLoses(_) => false
    case ScriptLoses => false
    case _ => true
  }

  lemma OpenIsUnanswered(b: System, log: Log)
    requires Sides(b, log) && !IsClosing(b.app)
    ensures Good(log.app) <= |b.requests| && Unanswered(b) == b.requests[Good(log.app)..]
    ensures log.app.closers == [] && |b.handed| + |b.app.results| == Good(log.app)
  {
    assert |b.handed + b.app.results| == |b.handed| + |b.app.results|;
  }

  lemma AffordableTail(rs: seq<MemoryRequest>, i: nat, j: nat)
    requires i <= j <= |rs| && Affordable(rs[i..])
    ensures Affordable(rs[j..])
  {
    assert rs[i..][j - i..] == rs[j..] && rs[i..][j - i..|rs| - i] == rs[j..];
    TotalSlice(rs[i..], j - i, |rs| - i);
  }

  lemma SubmitIsTidy(b: System, log: Log, r: MemoryRequest) returns (g: Log)
    requires Explains(b, log) && Submits(b, r)
    ensures Explains(WithRequest(b, r), g)
    ensures IsTidy(b, log) && Affordable(Unanswered(b) + [r]) ==> IsTidy(WithRequest(b, r), g)
  {
    g := SubmitExplains(b, log, r);
    if IsTidy(b, log) && Affordable(Unanswered(b) + [r]) {
      SubmittedIsTidy(b, log, r, g);
    }
  }

  lemma SubmittedIsTidy(b: System, log: Log, r: MemoryRequest, g: Log)
    requires Sides(b, log) && IsTidy(b, log) && Submits(b, r) && Affordable(Unanswered(b) + [r])
    requires g.app.taken == log.app.taken && g.script == log.script
    ensures IsTidy(WithRequest(b, r), g)
  {
    OpenIsUnanswered(b, log);
    TailOfMore(b.requests, Good(log.app), r);
  }

  lemma TailOfMore<T>(s: seq<T>, n: nat, x: T)
    requires n <= |s|
    ensures (s + [x])[n..] == s[n..] + [x]
  {
  }

  lemma AppSendIsTidy(b: System, log: Log, n: nat) returns (g: Log)
    requires Explains(b, log) && b.app.client.Some?
    ensures Explains(AppSent(b, n), g)
    ensures IsTidy(b, log) ==> IsTidy(AppSent(b, n), g)
  {
    g := AppSendExplains(b, log, n);
  }

  /** An app that is tidy hears at most 256 more frames, so that no chunk overflows its decoder. */
  lemma TidyAppHasRoom(b: System, log: Log, n: nat)
    requires Explains(b, log) && IsTidy(b, log) && n <= |b.down| && n <= RECEIVE_CHUNK
    ensures Feed(b.app.client.value.decoder, b.down[..n]).error == NoError
  {
    SaidLength(b.start, b.requests, log.script.answered);
    ChunkFits(ScriptSaid(b.start, b.requests, log.script.answered, log.script.tail), log.app.taken,
              b.app.client.value.decoder, b.down, log.script.queue, n);
  }

  lemma AppReceiveIsTidy(b: System, log: Log, n: nat, text: seq<byte>, order: seq<u32>) returns (g: Log)
    requires Explains(b, log) && !IsClosing(b.app) && n <= |b.down| && n <= RECEIVE_CHUNK
    ensures Explains(AppReceived(b, n, text, order), g)
    ensures IsTidy(b, log) ==> IsTidy(AppReceived(b, n, text, order), g)
  {
    g := AppReceiveExplains(b, log, n, text, order, Feed(b.app.client.value.decoder, b.down[..n]));
    if IsTidy(b, log) {
      TidyAppHasRoom(b, log, n);
      ReceivedIsTidy(b, log, AppReceived(b, n, text, order), g);
    }
  }

  lemma ReceivedIsTidy(b: System, log: Log, c: System, g: Log)
    requires IsTidy(b, log) && Sides(c, g) && !IsClosing(c.app) && c.script == b.script && c.requests == b.requests
    requires g.script == log.script && log.app.taken <= g.app.taken
    ensures IsTidy(c, g)
  {
    OpenIsUnanswered(c, g);
    AffordableTail(b.requests, Good(log.app), Good(g.app));
  }

  lemma HandOutIsTidy(b: System, log: Log)
    requires Explains(b, log)
    ensures Explains(AppHanded(b), log)
    ensures IsTidy(b, log) ==> IsTidy(AppHanded(b), log)
  {
    HandOutExplains(b, log);
  }

  lemma ScriptReceiveIsTidy(b: System, log: Log, n: nat) returns (g: Log)
    requires Explains(b, log) && b.script.phase != Lua.Offline && n <= |b.up|
    ensures Explains(ScriptReceived(b, n), g)
    ensures IsTidy(b, log) && Feed(b.script.decoder, b.up[..n]).error == NoError ==> IsTidy(ScriptReceived(b, n), g)
  {
    if Listens(b.script) {
      g := ListeningScriptExplains(b, log, n, Feed(b.script.decoder, b.up[..n]));
    } else {
      g := ClosingScriptExplains(b, log, n);
    }
  }

  lemma WorkIsTidy(b: System, log: Log, calls: seq<Lua.EmulatorCall>) returns (g: Log)
    requires Explains(b, log) && b.script.phase == Lua.Online
    ensures Explains(Worked(b, calls), g)
    ensures IsTidy(b, log) && calls == [] ==> IsTidy(Worked(b, calls), g)
  {
    g := WorkExplains(b, log, calls);
  }

  lemma ScriptSendIsTidy(b: System, log: Log, n: nat) returns (g: Log)
    requires Explains(b, log) && b.script.phase != Lua.Offline
    ensures Explains(ScriptSent(b, n), g)
    ensures IsTidy(b, log) ==> IsTidy(ScriptSent(b, n), g)
  {
    g := ScriptSendExplains(b, log, n);
  }

  lemma AppStepExplains(b: System, log: Log, step: Step) returns (g: Log)
    requires Explains(b, log)
    requires IsAppStep(step)
    ensures Explains(AppNext(b, step), g)
    ensures IsTidy(b, log) && IsCalm(b, step) ==> IsTidy(AppNext(b, step), g)
  {
    g := log;
    match step
    case Submit(r) =>
      if Submits(b, r) {
        g := SubmitIsTidy(b, log, r);
      }
    case AppSend(n) =>
      if b.app.client.Some? {
        g := AppSendIsTidy(b, log, n);
      }
    case AppReceive(n, text, order) =>
      if !IsClosing(b.app) {
        g := AppReceiveIsTidy(b, log, Taken(n, b.down), text, order);
      }
    case AppLoses(order) => AppLosesExplains(b, log, order);
    case HandOut => HandOutIsTidy(b, log);
  }

  lemma ScriptReceiveNext(b: System, log: Log, n: nat, taken: nat, c: System) returns (g: Log)
    requires Explains(b, log) && taken == Taken(n, b.up)
    requires c == if b.script.phase == Lua.Offline then b else ScriptReceived(b, taken)
    ensures Explains(c, g)
    ensures IsTidy(b, log) && Feed(b.script.decoder, b.up[..taken]).error == NoError ==> IsTidy(c, g)
  {
    g := log;
    if b.script.phase != Lua.Offline {
      g := ScriptReceiveIsTidy(b, log, taken);
    }
  }

  lemma ScriptWorkNext(b: System, log: Log, calls: seq<Lua.EmulatorCall>) returns (g: Log)
    requires Explains(b, log)
    ensures Explains(ScriptNext(b, ScriptWork(calls)), g)
    ensures IsTidy(b, log) && calls == [] ==> IsTidy(ScriptNext(b, ScriptWork(calls)), g)
  {
    g := log;
    if b.script.phase == Lua.Online {
      g := WorkIsTidy(b, log, calls);
    }
  }

  lemma ScriptSendNext(b: System, log: Log, n: nat) returns (g: Log)
    requires Explains(b, log)
    ensures Explains(ScriptNext(b, ScriptSend(n)), g)
    ensures IsTidy(b, log) ==> IsTidy(ScriptNext(b, ScriptSend(n)), g)
  {
    g := log;
    if b.script.phase != Lua.Offline {
      g := ScriptSendIsTidy(b, log, n);
    }
  }

  lemma ScriptStepExplains(b: System, log: Log, step: Step) returns (g: Log)
    requires Explains(b, log) && !IsAppStep(step)
    ensures Explains(ScriptNext(b, step), g)
    ensures IsTidy(b, log) && IsCalm(b, step) ==> IsTidy(ScriptNext(b, step), g)
  {
    match step
    case ScriptReceive(n) => g := ScriptReceiveNext(b, log, n, Taken(n, b.up), ScriptNext(b, step));
    case ScriptWork(calls) => g := ScriptWorkNext(b, log, calls);
    case ScriptSend(n) => g := ScriptSendNext(b, log, n);
    case ScriptLoses => g := ScriptLosesExplains(b, log);
  }

  /** Every step has a history again; a calm step of a tidy system leaves it tidy. */
  lemma NextExplains(b: System, log: Log, step: Step) returns (g: Log)
    requires Explains(b, log)
    ensures Explains(Next(b, step), g)
    ensures IsTidy(b, log) && IsCalm(b, step) ==> IsTidy(Next(b, step), g)
  {
    if IsAppStep(step) {
      g := AppStepExplains(b, log, step);
    } else {
      g := ScriptStepExplains(b, log, step);
    }
  }
}
