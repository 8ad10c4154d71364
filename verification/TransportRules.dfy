/** What the app's end of the bridge does with requests, frames and disconnects, on values.

    The texts of diagnostics are parameters. A close names the status that every pending request gets;
    the order in which the hash table hands them out is chosen by the implementation. */
module TransportRules {
  import opened Bags
  import opened Bytes
  import opened Frames
  import opened FrameDecoding
  import opened FrameWriting
  import opened GameMemory

  const MAX_IO_BYTES_PER_POLL: nat := 256 * 1024
  const RECEIVE_CHUNK_SIZE: nat := 64 * 1024

  /** What a socket makes of an attempt to receive. */
  datatype ReceiveOutcome = Bytes(count: nat) | NothingYet | PeerGone

  /** What one poll meets: new connections, the bytes that the script has sent, and what the socket makes of each attempt
      to receive and to send; and the text of a diagnostic. */
  datatype Network = Network(
    arrivals: nat, incoming: seq<byte>, receives: seq<ReceiveOutcome>, sends: seq<SendOutcome>, text: seq<byte>)

  datatype TransportState = Stopped | Listening | Connected
  datatype PendingRequest = PendingRequest(operation: Operation, expectedSize: nat)
  datatype Peer = Peer(decoder: Decoder, writer: Writer, handshakeAccepted: bool, closeAfterWrite: bool)
  datatype Transport = Transport(
    state: TransportState, client: Option<Peer>, pending: map<u32, PendingRequest>, results: seq<MemoryResult>)

  datatype AppVersion = AppVersion(major: u16, minor: u16, patch: u16)

  const NEW_PEER: Peer := Peer(EMPTY_DECODER, EMPTY_WRITER, false, false)
  const NEW_TRANSPORT: Transport := Transport(Listening, None, map[], [])

  predicate IsOpen(t: Transport) {
    t.client.Some? && t.client.value.handshakeAccepted && !t.client.value.closeAfterWrite
  }

  predicate IsClosing(t: Transport) {
    t.client.None? || t.client.value.closeAfterWrite
  }

  ghost predicate ValidTransport(t: Transport) {
    && (t.state == Connected <==> IsOpen(t))
    && (t.pending != map[] ==> t.state == Connected)
    && (t.state == Stopped ==> t.client.None?)
    && (t.client.Some? ==> ValidDecoder(t.client.value.decoder) && ValidWriter(t.client.value.writer))
    && (t.client.Some? && t.client.value.handshakeAccepted ==> !t.client.value.closeAfterWrite)
    && (t.client.Some? && !t.client.value.closeAfterWrite ==> t.client.value.decoder.error == NoError)
  }

  /** A new state and, when the connection closes, the status that its pending requests are to get. */
  datatype Turn = Turn(t: Transport, abandon: Option<Status>)

  function Abandoned(order: seq<u32>, status: Status): (results: seq<MemoryResult>)
    ensures |results| == |order|
  {
    seq(|order|, i requires 0 <= i < |order| => MemoryResult(order[i], status, []))
  }

  function Settled(turn: Turn, order: seq<u32>): Transport {
    match turn.abandon
    case None => turn.t
    case Some(status) => turn.t.(pending := map[], results := turn.t.results + Abandoned(order, status))
  }

  ghost predicate Settles(turn: Turn, order: seq<u32>, after: Transport) {
    && after == Settled(turn, order)
    && (turn.abandon.Some? ==> Lists(order, turn.t.pending.Keys))
  }

  ghost predicate ValidTurn(turn: Turn) {
    ValidTransport(if turn.abandon.None? then turn.t else turn.t.(pending := map[]))
  }

  // ----- Requests


  function WithWriter(t: Transport, w: Writer): Transport
    requires t.client.Some?
  {
    t.(client := Some(t.client.value.(writer := w)))
  }

  /** A request answered without reaching the wire: what is wrong with it. */
  function Refusal(r: MemoryRequest): Option<Status> {
    if ValidateMemoryRequest(r) != Ok then Some(ValidateMemoryRequest(r))
    else if RequestFrame(r).None? then Some(InvalidSize)
    else None
  }

  predicate CanSubmit(t: Transport, r: MemoryRequest) {
    && t.state == Connected && IsOpen(t) && r.id !in t.pending
    && (Refusal(r).None? ==> Queues(t.client.value.writer, RequestFrame(r).value))
  }

  /** `Submit` when it returns true. */
  function Submitted(t: Transport, r: MemoryRequest): Transport
    requires CanSubmit(t, r)
  {
    match Refusal(r)
    case Some(status) => t.(results := t.results + [MemoryResult(r.id, status, [])])
    case None =>
      WithWriter(t, AfterQueue(t.client.value.writer, RequestFrame(r).value))
        .(pending := t.pending[r.id := RequestOf(r)])
  }

  function RequestOf(r: MemoryRequest): PendingRequest {
    PendingRequest(r.operation, RequestSize(r))
  }

  // ----- Closing

  function Closing(p: Peer): Peer {
    p.(handshakeAccepted := false, closeAfterWrite := true)
  }

  /** `BeginProtocolClose` with an encoded error, if there is one. */
  function ClosedWith(t: Transport, e: Option<Frame>): Turn
    requires t.client.Some?
  {
    var w := t.client.value.writer;
    if e.Some? && Queues(w, e.value) && Queues(AfterQueue(w, e.value), CLOSE_FRAME) then
      var p := t.client.value.(writer := AfterQueue(AfterQueue(w, e.value), CLOSE_FRAME));
      Turn(t.(client := Some(Closing(p)), state := Listening), Some(Status.ProtocolError))
    else Turn(t.(client := None, state := Listening), Some(Status.ProtocolError))
  }

  ghost function ProtocolClosed(t: Transport, code: ErrorCode, text: seq<byte>): Turn
    requires t.client.Some?
  {
    ClosedWith(t, TryEncodeError(0, ErrorMessage(code, text)))
  }

  /** `BeginOrderlyClose`. */
  function OrderlyClosed(t: Transport): Turn
    requires t.client.Some?
  {
    var p := t.client.value;
    Turn(t.(client := if Queues(p.writer, CLOSE_FRAME)
                      then Some(Closing(p.(writer := AfterQueue(p.writer, CLOSE_FRAME)))) else None,
            state := Listening),
         Some(Status.Disconnected))
  }

  /** `CloseClient` on a disconnect. */
  function Dropped(t: Transport): Turn {
    Turn(t.(client := None, state := if t.state == Stopped then Stopped else Listening), Some(Status.Disconnected))
  }

  // ----- Frames from the script

  function ToMemoryStatus(code: ErrorCode): Status {
    if code == INVALID_ADDRESS then InvalidAddress
    else if code == INVALID_SIZE then InvalidSize
    else ProtocolError
  }

  function Reply(status: HelloStatus, v: AppVersion): Frame {
    EncodeServerHello(ServerHello(status, PROTOCOL_MAJOR, PROTOCOL_MINOR, v.major, v.minor, v.patch))
  }

  predicate HelloMatches(h: ClientHello) {
    h == ClientHello(PROTOCOL_MAJOR, PROTOCOL_MINOR, SCRIPT_VERSION)
  }

  function Accepts(t: Transport, reply: Frame): Turn
    requires t.client.Some?
  {
    var p := t.client.value;
    if !Queues(p.writer, reply) then Dropped(t)
    else
      Turn(t.(client := Some(p.(writer := AfterQueue(p.writer, reply), handshakeAccepted := true)), state := Connected),
           None)
  }

  ghost function HelloArrives(t: Transport, f: Frame, v: AppVersion, text: seq<byte>): Turn
    requires t.client.Some?
  {
    var w := t.client.value.writer;
    match DecodeClientHello(f)
    case None => ProtocolClosed(t, MALFORMED_FRAME, text)
    case Some(hello) =>
      if !HelloMatches(hello) then
        ProtocolClosed(WithWriter(t, AfterQueue(w, Reply(Rejected, v))), UNSUPPORTED_PROTOCOL, text)
      else Accepts(t, Reply(HelloStatus.Accepted, v))
  }

  /** A result frame that answers a pending request. */
  predicate IsAnswer(t: Transport, f: Frame) {
    && f.requestId in t.pending
    && var p := t.pending[f.requestId];
       if f.kind == READ_RESULT then p.operation == Read && |f.payload| == p.expectedSize
       else f.kind == WRITE_RESULT && p.operation == Write && f.payload == []
  }

  function Answered(t: Transport, id: u32, status: Status, data: seq<byte>): Transport {
    t.(results := t.results + [MemoryResult(id, status, data)], pending := t.pending - {id})
  }

  ghost function ErrorArrives(t: Transport, f: Frame, text: seq<byte>): Turn
    requires t.client.Some?
  {
    var m := DecodeErrorMessage(f);
    if m.None? || f.requestId == 0 || f.requestId !in t.pending then ProtocolClosed(t, MALFORMED_FRAME, text)
    else
      var p, a := t.client.value, Answered(t, f.requestId, ToMemoryStatus(m.value.code), []);
      Turn(a.(client := Some(Closing(p.(writer := AfterQueue(p.writer, CLOSE_FRAME)))), state := Listening),
           Some(Status.Disconnected))
  }

  /** `ProcessFrame`. */
  ghost function FrameArrives(t: Transport, f: Frame, v: AppVersion, text: seq<byte>): Turn
    requires t.client.Some?
  {
    if !t.client.value.handshakeAccepted then HelloArrives(t, f, v, text)
    else if f.kind == READ_RESULT || f.kind == WRITE_RESULT then
      if IsAnswer(t, f) then Turn(Answered(t, f.requestId, Ok, f.payload), None)
      else ProtocolClosed(t, INVALID_REQUEST_ID, text)
    else if f.kind == ERROR then ErrorArrives(t, f, text)
    else if f == CLOSE_FRAME then OrderlyClosed(t)
    else ProtocolClosed(t, MALFORMED_FRAME, text)
  }

  /** `ProcessFrames`: the frames behind a closing one are dropped. */
  ghost function FramesArrive(turn: Turn, fs: seq<Frame>, v: AppVersion, text: seq<byte>): Turn
    decreases |fs|
  {
    if fs == [] || IsClosing(turn.t) then turn
    else FramesArrive(FrameArrives(turn.t, fs[0], v, text), fs[1..], v, text)
  }

  function WithDecoder(t: Transport, d: Decoder): Transport
    requires t.client.Some?
  {
    t.(client := Some(t.client.value.(decoder := d)))
  }

  /** One received chunk. */
  ghost function BytesArrive(t: Transport, bytes: seq<byte>, v: AppVersion, text: seq<byte>): Turn
    requires ValidTransport(t) && t.client.Some?
  {
    var d := Feed(t.client.value.decoder, bytes);
    if d.error != NoError then ProtocolClosed(WithDecoder(t, d), MALFORMED_FRAME, text)
    else FramesArrive(Turn(WithDecoder(t, Polled(d)), None), d.frames, v, text)
  }

  /** The chunks of one poll, and whether the peer was then found to be gone. */
  ghost function ChunksArrive(t: Transport, chunks: seq<seq<byte>>, v: AppVersion, text: seq<byte>): (turn: Turn)
    requires ValidTransport(t) && !IsClosing(t)
    ensures IsSound(turn)
    decreases |chunks|
  {
    if chunks == [] then Turn(t, None)
    else
      var turn := ChunksArrive(t, chunks[..|chunks| - 1], v, text);
      if IsClosing(turn.t) then turn
      else
        BytesArriveIsSound(turn.t, chunks[|chunks| - 1], v, text);
        BytesArrive(turn.t, chunks[|chunks| - 1], v, text)
  }

  /** `now` is what the chunks made of `t`. */
  ghost predicate Took(t: Transport, chunks: seq<seq<byte>>, v: AppVersion, text: seq<byte>, order: seq<u32>,
                       now: Transport)
    requires ValidTransport(t) && !IsClosing(t)
  {
    var turn := ChunksArrive(t, chunks, v, text);
    Settles(turn, order, now) && (!IsClosing(now) ==> turn == Turn(now, None))
  }

  /** The same, whatever the order of the results. */
  ghost predicate HasTaken(t: Transport, chunks: seq<seq<byte>>, v: AppVersion, text: seq<byte>, now: Transport)
    requires ValidTransport(t) && !IsClosing(t)
  {
    exists order :: Took(t, chunks, v, text, order, now)
  }

  lemma NothingIsTaken(t: Transport, v: AppVersion, text: seq<byte>)
    requires ValidTransport(t) && !IsClosing(t)
    ensures HasTaken(t, [], v, text, t)
  {
    assert Took(t, [], v, text, [], t);
  }

  lemma TakenIsClosing(t: Transport, chunks: seq<seq<byte>>, v: AppVersion, text: seq<byte>, now: Transport)
    requires ValidTransport(t) && !IsClosing(t) && HasTaken(t, chunks, v, text, now)
    ensures IsClosing(ChunksArrive(t, chunks, v, text).t) <==> IsClosing(now)
  {
  }

  lemma OneMoreTaken(t: Transport, chunks: seq<seq<byte>>, chunk: seq<byte>, v: AppVersion, text: seq<byte>,
                     now: Transport, order: seq<u32>, after: Transport)
    requires ValidTransport(t) && !IsClosing(t) && HasTaken(t, chunks, v, text, now)
    requires ValidTransport(now) && !IsClosing(now)
    requires Settles(BytesArrive(now, chunk, v, text), order, after)
    requires !IsClosing(after) ==> BytesArrive(now, chunk, v, text) == Turn(after, None)
    ensures HasTaken(t, chunks + [chunk], v, text, after)
  {
    TakenIsOpen(t, chunks, v, text, now);
    assert (chunks + [chunk])[..|chunks|] == chunks;
    assert Took(t, chunks + [chunk], v, text, order, after);
  }

  /** The outcome of an attempt; there is nothing to receive once the outcomes are used up. */
  function Attempt(receives: seq<ReceiveOutcome>, i: nat): ReceiveOutcome {
    if i < |receives| then receives[i] else NothingYet
  }

  /** How many bytes an attempt yields when `taken` of `total` were received before it. */
  function Yields(o: ReceiveOutcome, total: nat, taken: nat): nat
    requires taken <= total && taken <= MAX_IO_BYTES_PER_POLL
  {
    if o.Bytes? then Min(o.count, Min(Min(RECEIVE_CHUNK_SIZE, MAX_IO_BYTES_PER_POLL - taken), total - taken)) else 0
  }

  /** Chunk `i` is all that attempt `i` yields, on a connection that is still open. */
  ghost predicate IsChunk(t: Transport, net: Network, v: AppVersion, chunks: seq<seq<byte>>, i: nat)
    requires ValidTransport(t) && !IsClosing(t) && i < |chunks|
  {
    var taken := |Flatten(chunks[..i])|;
    && taken < MAX_IO_BYTES_PER_POLL && taken <= |net.incoming|
    && !IsClosing(ChunksArrive(t, chunks[..i], v, net.text).t)
    && 0 < |chunks[i]| == Yields(Attempt(net.receives, i), |net.incoming|, taken)
  }

  ghost predicate AreChunks(t: Transport, net: Network, v: AppVersion, chunks: seq<seq<byte>>)
    requires ValidTransport(t) && !IsClosing(t)
  {
    && Flatten(chunks) <= net.incoming && |Flatten(chunks)| <= MAX_IO_BYTES_PER_POLL
    && forall i :: 0 <= i < |chunks| ==> IsChunk(t, net, v, chunks, i)
  }

  /** All that a poll receives: it ends only when the connection closes, after 256 KiB, or at an attempt that yields
      nothing. */
  ghost predicate ReceivesAll(t: Transport, net: Network, v: AppVersion, chunks: seq<seq<byte>>, gone: bool)
    requires ValidTransport(t) && !IsClosing(t)
  {
    && AreChunks(t, net, v, chunks)
    && if IsClosing(ChunksArrive(t, chunks, v, net.text).t) || |Flatten(chunks)| == MAX_IO_BYTES_PER_POLL then !gone
       else && Yields(Attempt(net.receives, |chunks|), |net.incoming|, |Flatten(chunks)|) == 0
            && gone == Attempt(net.receives, |chunks|).PeerGone?
  }

  lemma OneMoreChunk(t: Transport, net: Network, v: AppVersion, chunks: seq<seq<byte>>, chunk: seq<byte>)
    requires ValidTransport(t) && !IsClosing(t) && AreChunks(t, net, v, chunks)
    requires |Flatten(chunks)| < MAX_IO_BYTES_PER_POLL && !IsClosing(ChunksArrive(t, chunks, v, net.text).t)
    requires 0 < |chunk| == Yields(Attempt(net.receives, |chunks|), |net.incoming|, |Flatten(chunks)|)
    requires chunk == net.incoming[|Flatten(chunks)|..|Flatten(chunks)| + |chunk|]
    ensures AreChunks(t, net, v, chunks + [chunk])
  {
    var all := chunks + [chunk];
    NextSlice(chunks, net.incoming, chunk);
    forall i | 0 <= i < |all| ensures IsChunk(t, net, v, all, i) {
      ChunkStays(t, net, v, chunks, chunk, i);
    }
  }

  lemma NextSlice(chunks: seq<seq<byte>>, incoming: seq<byte>, chunk: seq<byte>)
    requires Flatten(chunks) <= incoming && |Flatten(chunks)| + |chunk| <= |incoming|
    requires chunk == incoming[|Flatten(chunks)|..|Flatten(chunks)| + |chunk|]
    ensures Flatten(chunks + [chunk]) <= incoming && |Flatten(chunks + [chunk])| == |Flatten(chunks)| + |chunk|
  {
    FlattenSnoc(chunks, chunk);
  }

  lemma ChunkStays(t: Transport, net: Network, v: AppVersion, chunks: seq<seq<byte>>, chunk: seq<byte>, i: nat)
    requires ValidTransport(t) && !IsClosing(t) && AreChunks(t, net, v, chunks) && i <= |chunks|
    requires |Flatten(chunks)| < MAX_IO_BYTES_PER_POLL && !IsClosing(ChunksArrive(t, chunks, v, net.text).t)
    requires 0 < |chunk| == Yields(Attempt(net.receives, |chunks|), |net.incoming|, |Flatten(chunks)|)
    ensures IsChunk(t, net, v, chunks + [chunk], i)
  {
    var all := chunks + [chunk];
    if i < |chunks| {
      assert IsChunk(t, net, v, chunks, i) && all[..i] == chunks[..i] && all[i] == chunks[i];
    } else {
      assert all[..i] == chunks && all[i] == chunk;
    }
  }

  /** The next bytes of what is incoming, as many as the next attempt yields. */
  ghost predicate IsNextChunk(net: Network, chunks: seq<seq<byte>>, chunk: seq<byte>) {
    var taken := |Flatten(chunks)|;
    && taken < MAX_IO_BYTES_PER_POLL && taken + |chunk| <= |net.incoming|
    && 0 < |chunk| == Yields(Attempt(net.receives, |chunks|), |net.incoming|, taken)
    && chunk == net.incoming[taken..taken + |chunk|]
  }

  /** The next chunk is taken off what is incoming. */
  lemma ChunkIsTaken(t: Transport, net: Network, v: AppVersion, chunks: seq<seq<byte>>, chunk: seq<byte>, now: Transport)
    requires ValidTransport(t) && !IsClosing(t) && AreChunks(t, net, v, chunks) && IsNextChunk(net, chunks, chunk)
    requires !IsClosing(now) && HasTaken(t, chunks, v, net.text, now)
    ensures AreChunks(t, net, v, chunks + [chunk]) && |Flatten(chunks + [chunk])| == |Flatten(chunks)| + |chunk|
  {
    TakenIsOpen(t, chunks, v, net.text, now);
    OneMoreChunk(t, net, v, chunks, chunk);
    FlattenSnoc(chunks, chunk);
  }

  lemma TakenIsOpen(t: Transport, chunks: seq<seq<byte>>, v: AppVersion, text: seq<byte>, now: Transport)
    requires ValidTransport(t) && !IsClosing(t) && HasTaken(t, chunks, v, text, now) && !IsClosing(now)
    ensures ChunksArrive(t, chunks, v, text) == Turn(now, None)
  {
  }

  /** Two ways to receive agree as long as both go on. */
  lemma {:induction false} FirstChunksAgree(t: Transport, net: Network, v: AppVersion, a: seq<seq<byte>>,
                                            b: seq<seq<byte>>, n: nat)
    requires ValidTransport(t) && !IsClosing(t) && AreChunks(t, net, v, a) && AreChunks(t, net, v, b)
    requires n <= |a| && n <= |b|
    ensures a[..n] == b[..n]
  {
    if n != 0 {
      FirstChunksAgree(t, net, v, a, b, n - 1);
      NextChunkAgrees(t, net, v, a, b, n - 1);
      assert a[..n] == a[..n - 1] + [a[n - 1]] && b[..n] == b[..n - 1] + [b[n - 1]];
    }
  }

  lemma NextChunkAgrees(t: Transport, net: Network, v: AppVersion, a: seq<seq<byte>>, b: seq<seq<byte>>, n: nat)
    requires ValidTransport(t) && !IsClosing(t) && AreChunks(t, net, v, a) && AreChunks(t, net, v, b)
    requires n < |a| && n < |b| && a[..n] == b[..n]
    ensures a[n] == b[n]
  {
    ChunkIs(t, net, v, a, n);
    ChunkIs(t, net, v, b, n);
  }

  lemma ChunkIs(t: Transport, net: Network, v: AppVersion, chunks: seq<seq<byte>>, i: nat)
    requires ValidTransport(t) && !IsClosing(t) && AreChunks(t, net, v, chunks) && i < |chunks|
    ensures var taken := |Flatten(chunks[..i])|;
            && taken <= |net.incoming| && taken <= MAX_IO_BYTES_PER_POLL
            && var size := Yields(Attempt(net.receives, i), |net.incoming|, taken);
               taken + size <= |net.incoming| && chunks[i] == net.incoming[taken..taken + size]
  {
    assert IsChunk(t, net, v, chunks, i);
    ChunkIsSlice(chunks, net.incoming, i);
  }

  lemma {:induction false} FlattenConcat(a: seq<seq<byte>>, b: seq<seq<byte>>)
    ensures Flatten(a + b) == Flatten(a) + Flatten(b)
  {
    if a == [] {
      assert a + b == b;
    } else {
      FlattenConcat(a[1..], b);
      assert (a + b)[1..] == a[1..] + b;
      Associate(a[0], Flatten(a[1..]), Flatten(b));
    }
  }

  lemma ChunkIsSlice(chunks: seq<seq<byte>>, incoming: seq<byte>, i: nat)
    requires Flatten(chunks) <= incoming && i < |chunks|
    ensures var taken := |Flatten(chunks[..i])|;
            taken + |chunks[i]| <= |incoming| && chunks[i] == incoming[taken..taken + |chunks[i]|]
  {
    assert chunks == chunks[..i] + chunks[i..];
    FlattenConcat(chunks[..i], chunks[i..]);
    assert Flatten(chunks[i..]) == chunks[i] + Flatten(chunks[i..][1..]);
  }

  lemma EndedIsNotLess(t: Transport, net: Network, v: AppVersion, a: seq<seq<byte>>, gone: bool, b: seq<seq<byte>>)
    requires ValidTransport(t) && !IsClosing(t) && ReceivesAll(t, net, v, a, gone) && AreChunks(t, net, v, b)
    ensures |b| <= |a|
  {
    FirstChunksAgree(t, net, v, a, b, Min(|a|, |b|));
    var k: nat := if |a| < |b| then |a| else 0;
    assert k < |b| ==> IsChunk(t, net, v, b, k);
    assert a[..|a|] == a;
  }

  /** What a poll receives is determined by what it meets. */
  lemma ReceivingIsDetermined(t: Transport, net: Network, v: AppVersion, a: seq<seq<byte>>, c: bool,
                              b: seq<seq<byte>>, d: bool)
    requires ValidTransport(t) && !IsClosing(t) && ReceivesAll(t, net, v, a, c) && ReceivesAll(t, net, v, b, d)
    ensures a == b && c == d
  {
    EndedIsNotLess(t, net, v, a, c, b);
    EndedIsNotLess(t, net, v, b, d, a);
    FirstChunksAgree(t, net, v, a, b, |a|);
    assert a[..|a|] == a && b[..|b|] == b;
  }

  ghost function Received(t: Transport, chunks: seq<seq<byte>>, gone: bool, v: AppVersion, text: seq<byte>): Turn
    requires ValidTransport(t) && !IsClosing(t)
  {
    var turn := ChunksArrive(t, chunks, v, text);
    if gone then Dropped(turn.t) else turn
  }

  // ----- Polling and stopping

  /** A first connection becomes the client; the transport answers any other by itself. */
  function AfterAccepting(t: Transport, arrivals: nat): Transport {
    if t.client.None? && arrivals > 0 then t.(client := Some(NEW_PEER)) else t
  }

  /** `FlushClient`: the socket takes what it takes off the front of the queue. The client is dropped if that fails, or if
      it is to close and nothing is left. */
  ghost predicate FlushEffect(before: Transport, sends: seq<SendOutcome>, sent: seq<byte>, order: seq<u32>, after: Transport)
    requires ValidTransport(before) && before.client.Some?
  {
    exists left, last ::
      && Flushes(before.client.value.writer, MAX_IO_BYTES_PER_POLL, sends, Flush(sent, left, last))
      && EndOfFlush(before, left, last, order, after)
  }

  ghost predicate EndOfFlush(before: Transport, left: Writer, last: Option<SendOutcome>, order: seq<u32>, after: Transport)
    requires before.client.Some?
  {
    if IsDropped(before, left, last) then Settles(Dropped(before), order, after) else after == WithWriter(before, left)
  }

  predicate IsDropped(before: Transport, left: Writer, last: Option<SendOutcome>)
    requires before.client.Some?
  {
    match last
    case None => before.client.value.closeAfterWrite && Unsent(left) == []
    case Some(o) => !o.Again?
  }

  /** What follows for the bytes that were sent. */
  lemma FlushSends(before: Transport, sends: seq<SendOutcome>, sent: seq<byte>, order: seq<u32>, after: Transport)
    requires ValidTransport(before) && before.client.Some? && FlushEffect(before, sends, sent, order, after)
    ensures sent <= Unsent(before.client.value.writer) && |sent| <= MAX_IO_BYTES_PER_POLL
    ensures match after.client
            case Some(p) => && after == WithWriter(before, p.writer) && ValidWriter(p.writer)
                            && Unsent(before.client.value.writer) == sent + Unsent(p.writer)
                            && !(p.closeAfterWrite && Unsent(p.writer) == [])
            case None => Settles(Dropped(before), order, after)
  {
    var left, last :| Flushes(before.client.value.writer, MAX_IO_BYTES_PER_POLL, sends, Flush(sent, left, last))
                      && EndOfFlush(before, left, last, order, after);
    FlushLosesNothing(before.client.value.writer, MAX_IO_BYTES_PER_POLL, sends, Flush(sent, left, last));
  }

  /** `PollResults`: accept, then receive, then send; `after` still has the results that are handed out. */
  datatype PollTrace = PollTrace(
    chunks: seq<seq<byte>>, gone: bool, afterReceive: Transport, sent: seq<byte>, after: Transport,
    firstOrder: seq<u32>, secondOrder: seq<u32>)

  /** A poll that does nothing. */
  function NothingDone(t: Transport): PollTrace {
    PollTrace([], false, t, [], t, [], [])
  }

  ghost predicate PollEffect(before: Transport, net: Network, p: PollTrace, v: AppVersion) {
    var a := AfterAccepting(before, net.arrivals);
    if before.state == Stopped then p.after == before && p.chunks == [] && p.sent == []
    else
      && ValidTransport(a) && ValidTransport(p.afterReceive)
      && ReceiveEffect(a, net, p, v)
      && (if p.afterReceive.client.None? then p.sent == [] && p.after == p.afterReceive
          else FlushEffect(p.afterReceive, net.sends, p.sent, p.secondOrder, p.after))
  }

  ghost predicate ReceiveEffect(a: Transport, net: Network, p: PollTrace, v: AppVersion)
    requires ValidTransport(a)
  {
    if IsClosing(a) then p.chunks == [] && !p.gone && p.afterReceive == a
    else && ReceivesAll(a, net, v, p.chunks, p.gone)
         && Settles(Received(a, p.chunks, p.gone, v, net.text), p.firstOrder, p.afterReceive)
  }

  // ----- Well-formedness is kept

  lemma SubmittedIsValid(t: Transport, r: MemoryRequest)
    requires ValidTransport(t) && CanSubmit(t, r)
    ensures ValidTransport(Submitted(t, r))
  {
    if Refusal(r).None? {
      QueuedUnsent(t.client.value.writer, Encode(RequestFrame(r).value));
    }
  }

  lemma QueuedIsValid(w: Writer, f: Frame)
    requires ValidWriter(w)
    ensures ValidWriter(AfterQueue(w, f))
  {
    if Queues(w, f) {
      QueuedUnsent(w, Encode(f));
    }
  }

  ghost predicate IsSound(turn: Turn) {
    ValidTurn(turn) && (turn.abandon.Some? <==> IsClosing(turn.t)) && turn.abandon != Some(Ok)
  }

  lemma ClosedWithIsSound(t: Transport, e: Option<Frame>)
    requires t.client.Some? && ValidDecoder(t.client.value.decoder) && ValidWriter(t.client.value.writer)
    ensures IsSound(ClosedWith(t, e))
  {
    if e.Some? {
      QueuedIsValid(t.client.value.writer, e.value);
      QueuedIsValid(AfterQueue(t.client.value.writer, e.value), CLOSE_FRAME);
    }
  }

  lemma ProtocolClosedIsSound(t: Transport, code: ErrorCode, text: seq<byte>)
    requires t.client.Some? && ValidDecoder(t.client.value.decoder) && ValidWriter(t.client.value.writer)
    ensures IsSound(ProtocolClosed(t, code, text))
  {
    ClosedWithIsSound(t, TryEncodeError(0, ErrorMessage(code, text)));
  }

  lemma AcceptsIsSound(t: Transport, reply: Frame)
    requires ValidTransport(t) && !IsClosing(t) && !IsOpen(t)
    ensures IsSound(Accepts(t, reply))
  {
    QueuedIsValid(t.client.value.writer, reply);
  }

  lemma HelloArrivesIsSound(t: Transport, f: Frame, v: AppVersion, text: seq<byte>)
    requires ValidTransport(t) && !IsClosing(t) && !IsOpen(t)
    ensures IsSound(HelloArrives(t, f, v, text))
  {
    var w := t.client.value.writer;
    AcceptsIsSound(t, Reply(HelloStatus.Accepted, v));
    QueuedIsValid(w, Reply(Rejected, v));
    ProtocolClosedIsSound(WithWriter(t, AfterQueue(w, Reply(Rejected, v))), UNSUPPORTED_PROTOCOL, text);
    ProtocolClosedIsSound(t, MALFORMED_FRAME, text);
  }

  /** The one frame that connects: the greeting of protocol 1.0 and script version 1, if there is room for the reply. */
  lemma ConnectsIffGreeting(t: Transport, f: Frame, v: AppVersion, text: seq<byte>)
    requires ValidTransport(t) && !IsClosing(t) && !IsOpen(t)
    ensures HelloArrives(t, f, v, text).t.state == Connected
       <==> && f == EncodeClientHello(ClientHello(1, 0, 1))
            && Queues(t.client.value.writer,
                      EncodeServerHello(ServerHello(HelloStatus.Accepted, 1, 0, v.major, v.minor, v.patch)))
  {
    ClientHelloBijection(f, ClientHello(1, 0, 1));
  }

  lemma ErrorArrivesIsSound(t: Transport, f: Frame, text: seq<byte>)
    requires ValidTransport(t) && IsOpen(t)
    ensures IsSound(ErrorArrives(t, f, text))
  {
    QueuedIsValid(t.client.value.writer, CLOSE_FRAME);
    ProtocolClosedIsSound(t, MALFORMED_FRAME, text);
  }

  lemma OrderlyClosedIsSound(t: Transport)
    requires ValidTransport(t) && IsOpen(t)
    ensures IsSound(OrderlyClosed(t))
  {
    QueuedIsValid(t.client.value.writer, CLOSE_FRAME);
  }

  /** A frame either keeps the connection open, or closes it and abandons what is pending. */
  lemma FrameArrivesIsSound(t: Transport, f: Frame, v: AppVersion, text: seq<byte>)
    requires ValidTransport(t) && !IsClosing(t)
    ensures IsSound(FrameArrives(t, f, v, text))
  {
    if !IsOpen(t) {
      HelloArrivesIsSound(t, f, v, text);
    } else if f.kind == ERROR {
      ErrorArrivesIsSound(t, f, text);
    } else {
      OrderlyClosedIsSound(t);
      ProtocolClosedIsSound(t, MALFORMED_FRAME, text);
      ProtocolClosedIsSound(t, INVALID_REQUEST_ID, text);
    }
  }

  lemma {:induction false} FramesArriveIsSound(turn: Turn, fs: seq<Frame>, v: AppVersion, text: seq<byte>)
    requires IsSound(turn)
    ensures IsSound(FramesArrive(turn, fs, v, text))
    decreases |fs|
  {
    if fs != [] && !IsClosing(turn.t) {
      FrameArrivesIsSound(turn.t, fs[0], v, text);
      FramesArriveIsSound(FrameArrives(turn.t, fs[0], v, text), fs[1..], v, text);
    }
  }

  /** Whatever bytes arrive, the connection is open as before or closed for good. */
  lemma BytesArriveIsSound(t: Transport, bytes: seq<byte>, v: AppVersion, text: seq<byte>)
    requires ValidTransport(t) && !IsClosing(t)
    ensures IsSound(BytesArrive(t, bytes, v, text))
  {
    var d := Feed(t.client.value.decoder, bytes);
    if d.error != NoError {
      ProtocolClosedIsSound(WithDecoder(t, d), MALFORMED_FRAME, text);
    } else {
      FramesArriveIsSound(Turn(WithDecoder(t, Polled(d)), None), d.frames, v, text);
    }
  }

  // ----- The first poll

  /** The greeting of the script. */
  const GREETING: Frame := EncodeClientHello(ClientHello(1, 0, 1))

  /** One frame that arrives in one piece. */
  lemma OneFrameIsDecoded(f: Frame)
    requires ValidFrame(f)
    ensures Feed(EMPTY_DECODER, Encode(f)) == Complete(EMPTY_DECODER, Encode(f))
    ensures Complete(EMPTY_DECODER, Encode(f)).frames == [f] && Complete(EMPTY_DECODER, Encode(f)).error == NoError
  {
    EncodedFrameParses(f);
    assert [] + Encode(f) == Encode(f) && [] + [f] == [f];
    FeedFinishesFrame(EMPTY_DECODER, Encode(f));
  }

  lemma GreetingIsSmall()
    ensures ValidFrame(GREETING) && 0 < |Encode(GREETING)| <= RECEIVE_CHUNK_SIZE
  {
    ClientHelloBijection(GREETING, ClientHello(1, 0, 1));
  }

  /** Bytes that one attempt yields are one chunk. */
  lemma OneChunkIsAll(t: Transport, net: Network, v: AppVersion, chunks: seq<seq<byte>>, gone: bool)
    requires ValidTransport(t) && !IsClosing(t) && ReceivesAll(t, net, v, chunks, gone)
    requires 0 < |net.incoming| <= RECEIVE_CHUNK_SIZE && net.receives == [Bytes(|net.incoming|)]
    ensures chunks == [net.incoming] && !gone
  {
    if chunks != [] {
      ChunkIs(t, net, v, chunks, 0);
      assert chunks[..0] == [] && chunks[0] == net.incoming;
      assert chunks[..1] == [net.incoming] && Flatten([net.incoming]) == net.incoming;
      assert |chunks| > 1 ==> IsChunk(t, net, v, chunks, 1);
      assert |chunks| == 1;
    }
  }

  lemma GreetingConnects(v: AppVersion, text: seq<byte>)
    ensures var t := NEW_TRANSPORT.(client := Some(NEW_PEER));
            ValidTransport(t) && BytesArrive(t, Encode(GREETING), v, text).t.state == Connected
  {
    var t := NEW_TRANSPORT.(client := Some(NEW_PEER));
    GreetingIsSmall();
    OneFrameIsDecoded(GREETING);
    var d := Feed(EMPTY_DECODER, Encode(GREETING));
    var u := WithDecoder(t, Polled(d));
    ConnectsIffGreeting(u, GREETING, v, text);
    GreetingHasRoom(u, v);
    assert [GREETING][1..] == [];
    assert FramesArrive(HelloArrives(u, GREETING, v, text), [], v, text) == HelloArrives(u, GREETING, v, text);
  }

  lemma GreetingHasRoom(t: Transport, v: AppVersion)
    requires t.client.Some? && t.client.value.writer == EMPTY_WRITER
    ensures Queues(t.client.value.writer,
                   EncodeServerHello(ServerHello(HelloStatus.Accepted, 1, 0, v.major, v.minor, v.patch)))
  {
    var hello := ServerHello(HelloStatus.Accepted, 1, 0, v.major, v.minor, v.patch);
    ServerHelloBijection(EncodeServerHello(hello), hello);
  }

  /** A script that connects and has sent its greeting is connected by the first poll. */
  lemma FirstPollConnects(net: Network, p: PollTrace, v: AppVersion)
    requires PollEffect(NEW_TRANSPORT, net, p, v)
    requires net.arrivals > 0 && net.incoming == Encode(GREETING) && net.receives == [Bytes(|net.incoming|)]
    ensures p.chunks == [net.incoming] && p.afterReceive.state == Connected
  {
    var t := NEW_TRANSPORT.(client := Some(NEW_PEER));
    GreetingIsSmall();
    GreetingConnects(v, net.text);
    OneChunkIsAll(t, net, v, p.chunks, p.gone);
    assert [net.incoming][..0] == [];
    assert ChunksArrive(t, [], v, net.text) == Turn(t, None);
    assert ChunksArrive(t, [net.incoming], v, net.text) == BytesArrive(t, net.incoming, v, net.text);
  }

  // ----- Every accepted request is pending, answered or delivered

  /** A request as far as its answer is concerned: its ID, its operation and its size. */
  type Ticket = (u32, PendingRequest)

  ghost predicate Fits(k: Ticket, r: MemoryResult) {
    && r.id == k.0
    && |r.data| == if r.status == Ok && k.1.operation == Read then k.1.expectedSize else 0
  }

  /** The tickets of everything accepted so far, of what is still owed, of the results that wait, and of those that
      were handed out. */
  datatype Ledger = Ledger(
    accepted: multiset<Ticket>, owed: multiset<Ticket>, answers: seq<Ticket>, delivered: multiset<Ticket>)

  ghost predicate Conserved(t: Transport, l: Ledger) {
    && |l.answers| == |t.results|
    && (forall i :: 0 <= i < |t.results| ==> Fits(l.answers[i], t.results[i]))
    && l.owed == Bag(t.pending) + multiset(l.answers)
    && l.accepted == l.owed + l.delivered
  }

  /** The books after one more request is accepted; one that is refused is answered at once. */
  ghost function Owing(l: Ledger, r: MemoryRequest): Ledger {
    var k := (r.id, RequestOf(r));
    Ledger(l.accepted + multiset{k}, l.owed + multiset{k}, if Refusal(r).Some? then l.answers + [k] else l.answers,
           l.delivered)
  }

  lemma SubmittedConserves(t: Transport, r: MemoryRequest, l: Ledger)
    requires CanSubmit(t, r) && Conserved(t, l)
    ensures Conserved(Submitted(t, r), Owing(l, r))
  {
    if Refusal(r).None? {
      BagAdd(t.pending, r.id, RequestOf(r));
    }
  }

  lemma AnsweredConserves(t: Transport, id: u32, status: Status, data: seq<byte>, l: Ledger)
    requires Conserved(t, l) && id in t.pending
    requires Fits((id, t.pending[id]), MemoryResult(id, status, data))
    ensures Conserved(Answered(t, id, status, data), l.(answers := l.answers + [(id, t.pending[id])]))
  {
    BagRemove(t.pending, id);
  }

  /** Closing answers every pending request once, whatever the order. */
  lemma SettledConserves(turn: Turn, order: seq<u32>, l: Ledger)
    requires Conserved(turn.t, l) && turn.abandon.Some? && turn.abandon != Some(Ok)
    requires Lists(order, turn.t.pending.Keys)
    ensures Conserved(Settled(turn, order), l.(answers := l.answers + Entries(order, turn.t.pending)))
  {
    EntriesAreAll(order, turn.t.pending);
  }

  /** The books after every waiting result was handed out. */
  ghost function HandedOut(l: Ledger): Ledger {
    Ledger(l.accepted, l.owed - multiset(l.answers), [], l.delivered + multiset(l.answers))
  }

  lemma HandedOutConserves(t: Transport, l: Ledger)
    requires Conserved(t, l)
    ensures Conserved(t.(results := []), HandedOut(l))
    ensures l.owed == HandedOut(l).owed + multiset(l.answers)
  {
  }

  // ----- Stopping

  lemma NothingToDrop(t: Transport)
    requires ValidTransport(t) && t.client.None? && t.pending == map[]
    ensures Settles(Dropped(t), [], t)
  {
    assert t.results + Abandoned([], Status.Disconnected) == t.results;
  }

  lemma DroppedThenStopped(before: Transport, order: seq<u32>, after: Transport)
    requires Settles(Dropped(before), order, after)
    ensures ValidTransport(after.(state := Stopped))
    ensures Settles(Turn(before.(client := None, state := Stopped), Some(Status.Disconnected)), order,
                    after.(state := Stopped))
  {
  }
}
