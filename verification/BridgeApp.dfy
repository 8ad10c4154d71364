/** The app's end of one connection: its requests, its results, and what it makes of the frames that it hears. */
module BridgeApp {
  import opened Bags
  import opened Bytes
  import opened Frames
  import opened FrameWriting
  import opened GameMemory
  import opened TransportRules
  import opened BridgeHistory
  import opened BridgeLink

  // ----- Requests that wait

  /** The pending table for unanswered requests. */
  function PendingFor(rs: seq<MemoryRequest>): map<u32, PendingRequest> {
    if rs == [] then map[] else PendingFor(rs[1..])[rs[0].id := RequestOf(rs[0])]
  }

  predicate DistinctIds(rs: seq<MemoryRequest>) {
    rs == [] || (rs[0].id !in PendingFor(rs[1..]) && DistinctIds(rs[1..]))
  }

  predicate PendingIs(pending: map<u32, PendingRequest>, rs: seq<MemoryRequest>) {
    DistinctIds(rs) && pending == PendingFor(rs)
  }

  lemma PendingTail(pending: map<u32, PendingRequest>, rs: seq<MemoryRequest>)
    requires PendingIs(pending, rs) && rs != []
    ensures rs[0].id in pending && pending[rs[0].id] == RequestOf(rs[0])
    ensures PendingIs(pending - {rs[0].id}, rs[1..])
  {
    assert pending - {rs[0].id} == PendingFor(rs[1..]);
  }

  lemma {:induction false} PendingSnoc(pending: map<u32, PendingRequest>, rs: seq<MemoryRequest>, r: MemoryRequest)
    requires PendingIs(pending, rs) && r.id !in pending
    ensures PendingIs(pending[r.id := RequestOf(r)], rs + [r])
    decreases |rs|
  {
    if rs == [] {
      assert [r][1..] == [];
      assert PendingIs(map[r.id := RequestOf(r)], [r]);
    } else {
      PendingSnoc(PendingFor(rs[1..]), rs[1..], r);
      assert (rs + [r])[1..] == rs[1..] + [r];
    }
  }

  function RequestIds(rs: seq<MemoryRequest>): (ids: seq<u32>)
    ensures |ids| == |rs|
  {
    if rs == [] then [] else [rs[0].id] + RequestIds(rs[1..])
  }

  function ResultIds(results: seq<MemoryResult>): (ids: seq<u32>)
    ensures |ids| == |results|
  {
    if results == [] then [] else [results[0].id] + ResultIds(results[1..])
  }

  lemma {:induction false} ResultIdsConcat(a: seq<MemoryResult>, b: seq<MemoryResult>)
    ensures ResultIds(a + b) == ResultIds(a) + ResultIds(b)
    decreases |a|
  {
    if a == [] {
      assert a + b == b;
    } else {
      ResultIdsConcat(a[1..], b);
      assert (a + b)[0] == a[0] && (a + b)[1..] == a[1..] + b;
      Associate3([a[0].id], ResultIds(a[1..]), ResultIds(b));
    }
  }

  lemma {:induction false} AbandonedIds(order: seq<u32>, status: Status)
    ensures ResultIds(Abandoned(order, status)) == order
    decreases |order|
  {
    if order != [] {
      AbandonedIds(order[1..], status);
      assert Abandoned(order, status)[1..] == Abandoned(order[1..], status);
    }
  }

  /** Each waiting request is in the table once. */
  lemma {:induction false} PendingKeys(rs: seq<MemoryRequest>)
    requires DistinctIds(rs)
    ensures multiset(PendingFor(rs).Keys) == multiset(RequestIds(rs))
    decreases |rs|
  {
    if rs != [] {
      PendingKeys(rs[1..]);
      var keys := PendingFor(rs[1..]).Keys;
      assert PendingFor(rs).Keys == keys + {rs[0].id};
    }
  }

  /** A list of the keys has each of them once. */
  lemma {:induction false} ListedOnce(order: seq<u32>, keys: set<u32>)
    requires Lists(order, keys)
    ensures multiset(order) == multiset(keys)
    decreases |order|
  {
    if order == [] {
      assert keys == {};
    } else {
      var last, before := order[|order| - 1], order[..|order| - 1];
      assert order == before + [last];
      assert last in order;
      ListedOnce(before, keys - {last});
      assert keys == (keys - {last}) + {last};
    }
  }

  // ----- What results say

  function AnswerResults(memory: seq<byte>, rs: seq<MemoryRequest>, n: nat): (results: seq<MemoryResult>)
    requires |memory| == U32_LIMIT && AllSendable(rs) && n <= |rs|
    ensures |results| == n
  {
    if n == 0 then [] else AnswerResults(memory, rs, n - 1) + [MemoryResult(rs[n - 1].id, Ok, Answer(memory, rs, n - 1))]
  }

  predicate Failed(r: MemoryResult) {
    r.status != Ok && r.data == []
  }

  predicate AllFailed(results: seq<MemoryResult>) {
    forall r {:trigger Failed(r)} :: r in results ==> Failed(r)
  }

  /** The first `good` requests have their answers, in order; every other one has failed or is pending, once. */
  ghost predicate Accounts(results: seq<MemoryResult>, pending: map<u32, PendingRequest>, rs: seq<MemoryRequest>,
                           start: seq<byte>, good: nat)
    requires |start| == U32_LIMIT && AllSendable(rs)
  {
    && good <= |results| && good <= |rs|
    && results[..good] == AnswerResults(start, rs, good)
    && AllFailed(results[good..])
    && multiset(ResultIds(results[good..])) + multiset(pending.Keys) == multiset(RequestIds(rs[good..]))
  }

  lemma AccountsWhileOpen(results: seq<MemoryResult>, pending: map<u32, PendingRequest>, rs: seq<MemoryRequest>,
                          start: seq<byte>, good: nat)
    requires |start| == U32_LIMIT && AllSendable(rs) && good <= |rs|
    requires results == AnswerResults(start, rs, good) && PendingIs(pending, rs[good..])
    ensures Accounts(results, pending, rs, start, good)
  {
    PendingKeys(rs[good..]);
    assert results[good..] == [] && results[..good] == results;
  }

  lemma FailuresGrow(results: seq<MemoryResult>, more: seq<MemoryResult>, good: nat)
    requires good <= |results| && AllFailed(results[good..]) && AllFailed(more)
    ensures (results + more)[..good] == results[..good] && AllFailed((results + more)[good..])
    ensures multiset(ResultIds((results + more)[good..])) == multiset(ResultIds(results[good..])) + multiset(ResultIds(more))
  {
    assert (results + more)[good..] == results[good..] + more;
    ResultIdsConcat(results[good..], more);
  }

  lemma KeyRemoved<V>(m: map<u32, V>, id: u32)
    requires id in m
    ensures multiset(m.Keys) == multiset((m - {id}).Keys) + multiset{id}
  {
    assert m.Keys == (m - {id}).Keys + {id};
  }

  lemma OneResultId(r: MemoryResult)
    ensures ResultIds([r]) == [r.id]
  {
    assert [r][1..] == [];
  }

  /** One pending request fails. */
  lemma AccountsFail(results: seq<MemoryResult>, pending: map<u32, PendingRequest>, rs: seq<MemoryRequest>,
                     start: seq<byte>, good: nat, failure: MemoryResult)
    requires |start| == U32_LIMIT && AllSendable(rs) && Accounts(results, pending, rs, start, good)
    requires failure.id in pending && Failed(failure)
    ensures Accounts(results + [failure], pending - {failure.id}, rs, start, good)
  {
    FailuresGrow(results, [failure], good);
    OneResultId(failure);
    KeyRemoved(pending, failure.id);
  }

  /** All pending requests fail. */
  lemma AccountsAbandon(results: seq<MemoryResult>, pending: map<u32, PendingRequest>, rs: seq<MemoryRequest>,
                        start: seq<byte>, good: nat, order: seq<u32>, status: Status)
    requires |start| == U32_LIMIT && AllSendable(rs) && Accounts(results, pending, rs, start, good)
    requires Lists(order, pending.Keys) && status != Ok
    ensures Accounts(results + Abandoned(order, status), map[], rs, start, good)
  {
    FailuresGrow(results, Abandoned(order, status), good);
    ListedOnce(order, pending.Keys);
    AbandonedIds(order, status);
  }

  // ----- The app's end

  /** How many frames the app has heard while it was open, the frames it has said to close, and its queue. */
  datatype AppLog = AppLog(taken: nat, closers: seq<Frame>, queue: Writer)

  function Greeting(v: AppVersion): Frame {
    Reply(HelloStatus.Accepted, v)
  }

  lemma GreetingIsAccepted(v: AppVersion)
    ensures ValidFrame(Greeting(v)) && |Greeting(v).payload| == 12
    ensures Lua.HelloProblem(Greeting(v).payload) == None && Lua.HelloAccepts(Greeting(v).payload)
  {
    ServerHelloBijection(Greeting(v), ServerHello(HelloStatus.Accepted, PROTOCOL_MAJOR, PROTOCOL_MINOR, v.major, v.minor, v.patch));
  }

  /** Every frame that the app has queued. */
  function AppSaid(log: AppLog, v: AppVersion, rs: seq<MemoryRequest>): seq<Frame>
    requires AllSendable(rs)
  {
    (if log.taken == 0 then [] else [Greeting(v)] + RequestFrames(rs)) + log.closers
  }

  /** How many requests are answered. */
  function Good(log: AppLog): nat {
    if log.taken == 0 then 0 else log.taken - 1
  }

  /** A frame by which one side tells the other that it will close. */
  predicate IsCloser(f: Frame) {
    (f.kind == ERROR || f.kind == CLOSE) && f.requestId == 0
  }

  predicate AllClosers(fs: seq<Frame>) {
    forall f {:trigger IsCloser(f)} :: f in fs ==> IsCloser(f)
  }

  ghost predicate AppOpen(t: Transport, handed: seq<MemoryResult>, rs: seq<MemoryRequest>, start: seq<byte>, log: AppLog)
    requires |start| == U32_LIMIT && AllSendable(rs)
  {
    && t.client.Some? && !t.client.value.closeAfterWrite && t.client.value.writer == log.queue && log.closers == []
    && if log.taken == 0 then
         && rs == [] && handed == [] && t.results == [] && t.pending == map[] && t.state == Listening
         && !t.client.value.handshakeAccepted && log.queue == EMPTY_WRITER
       else
         && t.state == Connected && t.client.value.handshakeAccepted && Good(log) <= |rs|
         && PendingIs(t.pending, rs[Good(log)..])
         && handed + t.results == AnswerResults(start, rs, Good(log))
  }

  /** The app has closed, or is about to answer its pending requests with a failure and close. */
  ghost predicate AppClosing(t: Transport, handed: seq<MemoryResult>, rs: seq<MemoryRequest>, start: seq<byte>, log: AppLog)
    requires |start| == U32_LIMIT && AllSendable(rs)
  {
    && IsClosing(t) && t.state != Connected && AllClosers(log.closers)
    && (t.client.Some? ==> t.client.value.writer == log.queue)
    && (log.taken == 0 ==> rs == [])
    && Accounts(handed + t.results, t.pending, rs, start, Good(log))
  }

  ghost predicate AppTurn(turn: Turn, handed: seq<MemoryResult>, rs: seq<MemoryRequest>, start: seq<byte>, log: AppLog)
    requires |start| == U32_LIMIT && AllSendable(rs)
  {
    if turn.abandon.None? then AppOpen(turn.t, handed, rs, start, log)
    else turn.abandon != Some(Ok) && AppClosing(turn.t, handed, rs, start, log)
  }

  ghost predicate AppSide(t: Transport, handed: seq<MemoryResult>, rs: seq<MemoryRequest>, start: seq<byte>, log: AppLog)
    requires |start| == U32_LIMIT && AllSendable(rs)
  {
    if IsClosing(t) then t.pending == map[] && AppClosing(t, handed, rs, start, log)
    else AppOpen(t, handed, rs, start, log)
  }

  lemma OpenAccounts(t: Transport, handed: seq<MemoryResult>, rs: seq<MemoryRequest>, start: seq<byte>, log: AppLog)
    requires |start| == U32_LIMIT && AllSendable(rs) && AppOpen(t, handed, rs, start, log)
    ensures Accounts(handed + t.results, t.pending, rs, start, Good(log))
  {
    if log.taken == 0 {
      assert rs[0..] == [] && handed + t.results == [];
    }
    AccountsWhileOpen(handed + t.results, t.pending, rs, start, Good(log));
  }

  /** The results that a close brings. */
  lemma TurnSettles(turn: Turn, order: seq<u32>, handed: seq<MemoryResult>, rs: seq<MemoryRequest>, start: seq<byte>,
                    log: AppLog)
    requires |start| == U32_LIMIT && AllSendable(rs) && AppTurn(turn, handed, rs, start, log)
    requires turn.abandon.Some? ==> Lists(order, turn.t.pending.Keys)
    ensures AppSide(Settled(turn, order), handed, rs, start, log)
  {
    if turn.abandon.Some? {
      AccountsAbandon(handed + turn.t.results, turn.t.pending, rs, start, Good(log), order, turn.abandon.value);
      Associate3(handed, turn.t.results, Abandoned(order, turn.abandon.value));
    }
  }

  lemma Associate3<T>(a: seq<T>, b: seq<T>, c: seq<T>)
    ensures a + b + c == a + (b + c)
  {
  }

  // ----- Closing

  /** `u` is `t` without a client, or with one that is to close and has these frames more to send. */
  ghost predicate Closes(t: Transport, u: Transport, closers: seq<Frame>)
    requires t.client.Some?
  {
    && IsClosing(u) && u.state != Connected && AllClosers(closers)
    && (u.client.Some? ==> Says(t.client.value.writer, closers, u.client.value.writer))
    && (u.client.None? ==> closers == [])
  }

  lemma ClosedWithCloses(t: Transport, e: Option<Frame>) returns (closers: seq<Frame>)
    requires t.client.Some? && (e.Some? ==> IsCloser(e.value))
    ensures var turn := ClosedWith(t, e);
            && Closes(t, turn.t, closers) && turn.abandon == Some(Status.ProtocolError)
            && turn.t.pending == t.pending && turn.t.results == t.results
  {
    var w := t.client.value.writer;
    closers := [];
    if e.Some? && Queues(w, e.value) && Queues(AfterQueue(w, e.value), CLOSE_FRAME) {
      SaysTwo(w, e.value, CLOSE_FRAME);
      closers := [e.value, CLOSE_FRAME];
    }
  }

  lemma ProtocolClosedCloses(t: Transport, code: ErrorCode, text: seq<byte>) returns (closers: seq<Frame>)
    requires t.client.Some?
    ensures var turn := ProtocolClosed(t, code, text);
            && Closes(t, turn.t, closers) && turn.abandon == Some(Status.ProtocolError)
            && turn.t.pending == t.pending && turn.t.results == t.results
  {
    closers := ClosedWithCloses(t, TryEncodeError(0, ErrorMessage(code, text)));
  }

  lemma OrderlyClosedCloses(t: Transport) returns (closers: seq<Frame>)
    requires t.client.Some?
    ensures var turn := OrderlyClosed(t);
            && Closes(t, turn.t, closers) && turn.abandon == Some(Status.Disconnected)
            && turn.t.pending == t.pending && turn.t.results == t.results
  {
    closers := [];
    if Queues(t.client.value.writer, CLOSE_FRAME) {
      SaysOne(t.client.value.writer, CLOSE_FRAME);
      closers := [CLOSE_FRAME];
    }
  }

  /** What is left of an open app when it closes. */
  lemma CloseIsClosing(t: Transport, u: Transport, closers: seq<Frame>, handed: seq<MemoryResult>, rs: seq<MemoryRequest>,
                       start: seq<byte>, log: AppLog, g: AppLog)
    requires |start| == U32_LIMIT && AllSendable(rs) && AppOpen(t, handed, rs, start, log) && Closes(t, u, closers)
    requires Accounts(handed + u.results, u.pending, rs, start, Good(log))
    requires g.taken == log.taken && g.closers == closers && (u.client.Some? ==> u.client.value.writer == g.queue)
    ensures AppClosing(u, handed, rs, start, g)
  {
  }

  /** The log once the app has said `closers`; if it has lost its client, nothing more is sent. */
  function ClosingLog(u: Transport, closers: seq<Frame>, log: AppLog): AppLog {
    log.(closers := closers, queue := if u.client.Some? then u.client.value.writer else log.queue)
  }

  lemma AppCloses(t: Transport, turn: Turn, closers: seq<Frame>, handed: seq<MemoryResult>, rs: seq<MemoryRequest>,
                  start: seq<byte>, log: AppLog)
    requires |start| == U32_LIMIT && AllSendable(rs) && AppOpen(t, handed, rs, start, log) && Closes(t, turn.t, closers)
    requires turn.abandon.Some? && turn.abandon != Some(Ok)
    requires turn.t.pending == t.pending && turn.t.results == t.results
    ensures var g := ClosingLog(turn.t, closers, log);
            AppTurn(turn, handed, rs, start, g) && Says(log.queue, closers, g.queue)
  {
    OpenAccounts(t, handed, rs, start, log);
    CloseIsClosing(t, turn.t, closers, handed, rs, start, log, ClosingLog(turn.t, closers, log));
  }

  lemma ClosersAreSaid(u: Transport, closers: seq<Frame>, log: AppLog, v: AppVersion, rs: seq<MemoryRequest>)
    requires AllSendable(rs) && log.closers == []
    ensures AppSaid(ClosingLog(u, closers, log), v, rs) == AppSaid(log, v, rs) + closers
  {
  }

  // ----- Frames

  lemma HelloIsTurn(t: Transport, v: AppVersion, text: seq<byte>)
    requires t.client.Some? && !t.client.value.handshakeAccepted && t.client.value.writer == EMPTY_WRITER
    ensures Queues(EMPTY_WRITER, Greeting(v))
    ensures FrameArrives(t, Lua.SCRIPT_HELLO, v, text) == Accepts(t, Greeting(v))
  {
    ClientHelloBijection(Lua.SCRIPT_HELLO, ClientHello(PROTOCOL_MAJOR, PROTOCOL_MINOR, SCRIPT_VERSION));
    GreetingIsAccepted(v);
  }

  /** The app hears the script's greeting. */
  lemma HelloIsTaken(t: Transport, v: AppVersion, text: seq<byte>, handed: seq<MemoryResult>, start: seq<byte>, log: AppLog)
    requires |start| == U32_LIMIT && AppOpen(t, handed, [], start, log) && log.taken == 0
    ensures var turn, g := FrameArrives(t, Lua.SCRIPT_HELLO, v, text), AppLog(1, [], AfterQueue(EMPTY_WRITER, Greeting(v)));
            && turn.abandon.None? && AppOpen(turn.t, handed, [], start, g)
            && turn.t.client.value.decoder == t.client.value.decoder
            && Says(log.queue, [Greeting(v)], g.queue)
            && AppSaid(g, v, []) == AppSaid(log, v, []) + [Greeting(v)]
  {
    HelloIsTurn(t, v, text);
    SaysOne(EMPTY_WRITER, Greeting(v));
    GreetingIsSaid(log, v);
  }

  lemma GreetingIsSaid(log: AppLog, v: AppVersion)
    requires log.taken == 0 && log.closers == []
    ensures AppSaid(AppLog(1, [], AfterQueue(EMPTY_WRITER, Greeting(v))), v, []) == AppSaid(log, v, []) + [Greeting(v)]
  {
    assert [Greeting(v)] + RequestFrames([]) == [Greeting(v)];
  }

  lemma ResultsGrow(memory: seq<byte>, rs: seq<MemoryRequest>, n: nat, handed: seq<MemoryResult>,
                    results: seq<MemoryResult>, last: MemoryResult)
    requires |memory| == U32_LIMIT && AllSendable(rs) && n < |rs|
    requires handed + results == AnswerResults(memory, rs, n)
    requires last == MemoryResult(rs[n].id, Ok, Answer(memory, rs, n))
    ensures handed + (results + [last]) == AnswerResults(memory, rs, n + 1)
  {
    Associate3(handed, results, [last]);
  }

  lemma AnswerIsExpected(t: Transport, rs: seq<MemoryRequest>, start: seq<byte>, n: nat)
    requires |start| == U32_LIMIT && AllSendable(rs) && n < |rs| && PendingIs(t.pending, rs[n..])
    ensures IsAnswer(t, AnswerFrame(start, rs, n)) && PendingIs(t.pending - {rs[n].id}, rs[n + 1..])
  {
    RequestIsAccepted(rs[n]);
    PendingTail(t.pending, rs[n..]);
    assert rs[n..][1..] == rs[n + 1..];
  }

  /** The app hears the next answer. */
  lemma AnswerIsTaken(t: Transport, v: AppVersion, text: seq<byte>, handed: seq<MemoryResult>, rs: seq<MemoryRequest>,
                      start: seq<byte>, log: AppLog)
    requires |start| == U32_LIMIT && AllSendable(rs) && AppOpen(t, handed, rs, start, log)
    requires 0 < log.taken <= |rs|
    ensures var turn := FrameArrives(t, AnswerFrame(start, rs, log.taken - 1), v, text);
            && turn.abandon.None? && AppOpen(turn.t, handed, rs, start, log.(taken := log.taken + 1))
            && turn.t.client.value.decoder == t.client.value.decoder
  {
    var n := log.taken - 1;
    AnswerIsExpected(t, rs, start, n);
    ResultsGrow(start, rs, n, handed, t.results, MemoryResult(rs[n].id, Ok, Answer(start, rs, n)));
  }

  lemma ErrorFailsOne(t: Transport, f: Frame, text: seq<byte>, handed: seq<MemoryResult>, rs: seq<MemoryRequest>,
                      start: seq<byte>, log: AppLog) returns (closers: seq<Frame>)
    requires |start| == U32_LIMIT && AllSendable(rs) && AppOpen(t, handed, rs, start, log)
    requires DecodeErrorMessage(f).Some? && f.requestId != 0 && f.requestId in t.pending
    ensures var turn := ErrorArrives(t, f, text);
            && turn.abandon == Some(Status.Disconnected) && Closes(t, turn.t, closers)
            && AppTurn(turn, handed, rs, start, ClosingLog(turn.t, closers, log))
  {
    var turn := ErrorArrives(t, f, text);
    closers := [];
    if Queues(t.client.value.writer, CLOSE_FRAME) {
      SaysOne(t.client.value.writer, CLOSE_FRAME);
      closers := [CLOSE_FRAME];
    }
    var failure := MemoryResult(f.requestId, ToMemoryStatus(DecodeErrorMessage(f).value.code), []);
    OpenAccounts(t, handed, rs, start, log);
    AccountsFail(handed + t.results, t.pending, rs, start, Good(log), failure);
    Associate3(handed, t.results, [failure]);
    CloseIsClosing(t, turn.t, closers, handed, rs, start, log, ClosingLog(turn.t, closers, log));
  }

  /** The app hears an error or a close: it closes, and no later frame counts. */
  lemma BreakCloses(t: Transport, f: Frame, v: AppVersion, text: seq<byte>, handed: seq<MemoryResult>,
                    rs: seq<MemoryRequest>, start: seq<byte>, log: AppLog) returns (closers: seq<Frame>)
    requires |start| == U32_LIMIT && AllSendable(rs) && AppOpen(t, handed, rs, start, log)
    requires 0 < log.taken && IsBreak(f)
    ensures var turn := FrameArrives(t, f, v, text);
            && turn.abandon.Some? && Closes(t, turn.t, closers)
            && AppTurn(turn, handed, rs, start, ClosingLog(turn.t, closers, log))
  {
    var turn := FrameArrives(t, f, v, text);
    if f.kind == ERROR && DecodeErrorMessage(f).Some? && f.requestId != 0 && f.requestId in t.pending {
      closers := ErrorFailsOne(t, f, text, handed, rs, start, log);
    } else if f == CLOSE_FRAME {
      closers := OrderlyClosedCloses(t);
      AppCloses(t, turn, closers, handed, rs, start, log);
    } else {
      closers := ProtocolClosedCloses(t, MALFORMED_FRAME, text);
      AppCloses(t, turn, closers, handed, rs, start, log);
    }
  }

  lemma SaidAt(start: seq<byte>, rs: seq<MemoryRequest>, answered: nat, tail: seq<Frame>, at: nat)
    requires |start| == U32_LIMIT && AllSendable(rs) && answered <= |rs| && IsTail(tail)
    requires at < |ScriptSaid(start, rs, answered, tail)| && at <= answered + 1
    ensures var f := ScriptSaid(start, rs, answered, tail)[at];
            && (at == 0 ==> f == Lua.SCRIPT_HELLO)
            && (0 < at <= answered ==> f == AnswerFrame(start, rs, at - 1))
            && (at == answered + 1 ==> IsBreak(f))
  {
    if 0 < at <= answered {
      AnswerFrameAt(start, rs, answered, at - 1);
    }
  }

  /** The app hears the next frame of the script. */
  lemma AppHears(t: Transport, v: AppVersion, text: seq<byte>, handed: seq<MemoryResult>, rs: seq<MemoryRequest>,
                 start: seq<byte>, answered: nat, tail: seq<Frame>, log: AppLog) returns (g: AppLog, more: seq<Frame>)
    requires |start| == U32_LIMIT && AllSendable(rs) && answered <= |rs| && IsTail(tail)
    requires AppOpen(t, handed, rs, start, log)
    requires log.taken < |ScriptSaid(start, rs, answered, tail)| && log.taken <= answered + 1
    ensures var turn := FrameArrives(t, ScriptSaid(start, rs, answered, tail)[log.taken], v, text);
            && AppTurn(turn, handed, rs, start, g)
            && (log.taken <= answered ==> turn.abandon.None?)
            && (turn.abandon.None? ==> g.taken == log.taken + 1
                                       && turn.t.client.value.decoder == t.client.value.decoder)
    ensures g.taken <= answered + 1
    ensures Says(log.queue, more, g.queue) && AppSaid(g, v, rs) == AppSaid(log, v, rs) + more
  {
    SaidAt(start, rs, answered, tail, log.taken);
    var f := ScriptSaid(start, rs, answered, tail)[log.taken];
    if log.taken == 0 {
      HelloIsTaken(t, v, text, handed, start, log);
      g, more := AppLog(1, [], AfterQueue(EMPTY_WRITER, Greeting(v))), [Greeting(v)];
    } else if log.taken <= answered {
      AnswerIsTaken(t, v, text, handed, rs, start, log);
      g, more := log.(taken := log.taken + 1), [];
    } else {
      more := BreakCloses(t, f, v, text, handed, rs, start, log);
      g := ClosingLog(FrameArrives(t, f, v, text).t, more, log);
    }
  }

  lemma AppFramesStep(turn: Turn, fs: seq<Frame>, next: Turn, v: AppVersion, text: seq<byte>)
    requires fs != [] && !IsClosing(turn.t) && FrameArrives(turn.t, fs[0], v, text) == next
    ensures FramesArrive(turn, fs, v, text) == FramesArrive(next, fs[1..], v, text)
  {
  }

  lemma AppFramesEnd(turn: Turn, fs: seq<Frame>, v: AppVersion, text: seq<byte>)
    requires fs == [] || IsClosing(turn.t)
    ensures FramesArrive(turn, fs, v, text) == turn
  {
  }

  /** The app hears any number of frames; the first break ends it. */
  lemma {:induction false} AppHearsAll(t: Transport, fs: seq<Frame>, v: AppVersion, text: seq<byte>,
                                       handed: seq<MemoryResult>, rs: seq<MemoryRequest>, start: seq<byte>,
                                       answered: nat, tail: seq<Frame>, log: AppLog)
    returns (turn: Turn, g: AppLog, more: seq<Frame>)
    requires |start| == U32_LIMIT && AllSendable(rs) && answered <= |rs| && IsTail(tail)
    requires AppOpen(t, handed, rs, start, log) && log.taken <= answered + 1
    requires Continues(ScriptSaid(start, rs, answered, tail), log.taken, fs)
    ensures turn == FramesArrive(Turn(t, None), fs, v, text)
    ensures AppTurn(turn, handed, rs, start, g)
    ensures log.taken + |fs| <= answered + 1 ==> turn.abandon.None?
    ensures turn.abandon.None? ==> g.taken == log.taken + |fs|
                                   && turn.t.client.value.decoder == t.client.value.decoder
    ensures g.taken <= answered + 1
    ensures Says(log.queue, more, g.queue) && AppSaid(g, v, rs) == AppSaid(log, v, rs) + more
    decreases |fs|
  {
    turn, g, more := Turn(t, None), log, [];
    if fs == [] {
      AppFramesEnd(turn, fs, v, text);
      return;
    }
    ContinuesNext(ScriptSaid(start, rs, answered, tail), log.taken, fs);
    var first := FrameArrives(t, fs[0], v, text);
    AppFramesStep(turn, fs, first, v, text);
    g, more := AppHears(t, v, text, handed, rs, start, answered, tail, log);
    turn := first;
    if first.abandon.None? {
      var after, rest;
      turn, after, rest := AppHearsAll(first.t, fs[1..], v, text, handed, rs, start, answered, tail, g);
      assert first == Turn(first.t, None);
      SaysMore(log.queue, more, g.queue, rest, after.queue);
      Associate3(AppSaid(log, v, rs), more, rest);
      g, more := after, more + rest;
    } else {
      AppFramesEnd(first, fs[1..], v, text);
    }
  }
}
