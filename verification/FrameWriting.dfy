/** The send queue of encoded frames, and the link from one program's queue to the other's decoder. */
module FrameWriting {
  import opened Bytes
  import opened Frames
  import opened FrameDecoding

  /** What a socket makes of an attempt to send. */
  datatype SendOutcome = Sent(count: nat) | Again | Broken

  // ----- The send queue

  datatype Writer = Writer(wires: seq<seq<byte>>, frontOffset: nat, queuedBytes: nat)

  const EMPTY_WRITER: Writer := Writer([], 0, 0)

  function Flatten(wires: seq<seq<byte>>): seq<byte> {
    if wires == [] then [] else wires[0] + Flatten(wires[1..])
  }

  lemma {:induction false} FlattenSnoc(wires: seq<seq<byte>>, wire: seq<byte>)
    ensures Flatten(wires + [wire]) == Flatten(wires) + wire
  {
    if wires == [] {
      assert [wire][1..] == [];
    } else {
      FlattenSnoc(wires[1..], wire);
      assert (wires + [wire])[1..] == wires[1..] + [wire];
    }
  }

  /** The bytes at the front of the queue that the next send may take. */
  function Pending(w: Writer): seq<byte> {
    if w.wires == [] || w.frontOffset > |w.wires[0]| then [] else w.wires[0][w.frontOffset..]
  }

  /** Everything that is still to be sent. */
  function Unsent(w: Writer): seq<byte> {
    if w.wires == [] then [] else Pending(w) + Flatten(w.wires[1..])
  }

  predicate IsWire(wire: seq<byte>) {
    LENGTH_SIZE + BODY_HEADER_SIZE <= |wire| <= LENGTH_SIZE + MAX_BODY
  }

  ghost predicate ValidWriter(w: Writer) {
    && (forall wire {:trigger IsWire(wire)} :: wire in w.wires ==> IsWire(wire))
    && (if w.wires == [] then w.frontOffset == 0 else w.frontOffset < |w.wires[0]|)
    && |w.wires| <= MAX_QUEUED_FRAMES
    && w.queuedBytes == |Unsent(w)| <= MAX_QUEUED_BYTES
  }

  predicate CanQueue(w: Writer, size: nat) {
    |w.wires| < MAX_QUEUED_FRAMES && w.queuedBytes + size <= MAX_QUEUED_BYTES
  }

  function Queued(w: Writer, wire: seq<byte>): Writer {
    Writer(w.wires + [wire], w.frontOffset, w.queuedBytes + |wire|)
  }

  /** The queue after an attempt to add a frame. */
  function AfterQueue(w: Writer, f: Frame): Writer {
    if ValidFrame(f) && CanQueue(w, WireSize(f)) then Queued(w, Encode(f)) else w
  }

  predicate Queues(w: Writer, f: Frame) {
    ValidFrame(f) && CanQueue(w, WireSize(f))
  }

  /** The queue after a send took `n` bytes. */
  function Consumed(w: Writer, n: nat): Writer
    requires n <= |Pending(w)| && n <= w.queuedBytes
  {
    if n == 0 then w
    else if w.frontOffset + n == |w.wires[0]| then Writer(w.wires[1..], 0, w.queuedBytes - n)
    else Writer(w.wires, w.frontOffset + n, w.queuedBytes - n)
  }

  lemma QueuedUnsent(w: Writer, wire: seq<byte>)
    requires ValidWriter(w) && CanQueue(w, |wire|)
    requires LENGTH_SIZE + BODY_HEADER_SIZE <= |wire| <= LENGTH_SIZE + MAX_BODY
    ensures ValidWriter(Queued(w, wire)) && Unsent(Queued(w, wire)) == Unsent(w) + wire
  {
    var q := Queued(w, wire);
    assert IsWire(wire);
    if w.wires == [] {
      assert q.wires[1..] == [];
      assert Pending(q) == wire;
    } else {
      FlattenSnoc(w.wires[1..], wire);
      assert q.wires[1..] == w.wires[1..] + [wire];
      Associate(Pending(w), Flatten(w.wires[1..]), wire);
    }
  }

  /** What is unsent once the front frame is gone. */
  lemma UnsentTail(w: Writer, size: nat)
    requires ValidWriter(w) && w.wires != []
    ensures Unsent(Writer(w.wires[1..], 0, size)) == Flatten(w.wires[1..])
  {
    var c := Writer(w.wires[1..], 0, size);
    if c.wires != [] {
      assert IsWire(c.wires[0]) && Pending(c) == c.wires[0];
    }
  }

  lemma FrontIsSent(w: Writer)
    requires ValidWriter(w) && w.wires != []
    ensures |Pending(w)| <= w.queuedBytes
    ensures ValidWriter(Consumed(w, |Pending(w)|)) && Unsent(w) == Pending(w) + Unsent(Consumed(w, |Pending(w)|))
  {
    UnsentTail(w, w.queuedBytes - |Pending(w)|);
    if |w.wires| > 1 {
      assert IsWire(w.wires[1..][0]);
    }
  }

  lemma PartIsSent(w: Writer, n: nat)
    requires ValidWriter(w) && 0 < n < |Pending(w)|
    ensures n <= w.queuedBytes
    ensures ValidWriter(Consumed(w, n)) && Unsent(w) == Pending(w)[..n] + Unsent(Consumed(w, n))
  {
    var c := Consumed(w, n);
    assert c == Writer(w.wires, w.frontOffset + n, w.queuedBytes - n);
    assert Pending(w) == Pending(w)[..n] + Pending(c);
    Associate(Pending(w)[..n], Pending(c), Flatten(w.wires[1..]));
  }

  lemma ConsumedUnsent(w: Writer, n: nat)
    requires ValidWriter(w) && n <= |Pending(w)|
    ensures n <= w.queuedBytes
    ensures ValidWriter(Consumed(w, n)) && Unsent(w) == Pending(w)[..n] + Unsent(Consumed(w, n))
  {
    if n == 0 {
      assert Pending(w)[..0] + Unsent(w) == Unsent(w);
    } else if n == |Pending(w)| {
      FrontIsSent(w);
      assert Pending(w)[..n] == Pending(w);
    } else {
      PartIsSent(w, n);
    }
  }

  // ----- Handing a queue to a socket

  /** What a socket took, what is left, and the outcome that ended it, unless the queue or the limit did. */
  datatype Flush = Flush(sent: seq<byte>, left: Writer, last: Option<SendOutcome>)

  /** What is sent and what is left at some point on the way there. */
  datatype Part = Part(sent: seq<byte>, left: Writer)

  /** The outcome of an attempt; the socket takes nothing more once the outcomes are used up. */
  function OutcomeAt(outcomes: seq<SendOutcome>, i: nat): SendOutcome {
    if i < |outcomes| then outcomes[i] else Again
  }

  /** How many bytes an attempt takes off the queue. */
  function Takes(p: Part, limit: nat, o: SendOutcome): (n: nat)
    requires |p.sent| <= limit
    ensures |p.sent| + n <= limit && n <= |Pending(p.left)|
  {
    if o.Sent? then Min(o.count, Min(|Pending(p.left)|, limit - |p.sent|)) else 0
  }

  /** Every byte is sent or left, in order. */
  ghost predicate IsPart(w: Writer, limit: nat, p: Part) {
    ValidWriter(p.left) && Unsent(w) == p.sent + Unsent(p.left) && |p.sent| <= limit
  }

  lemma NothingIsSent(w: Writer, limit: nat)
    requires ValidWriter(w)
    ensures IsPart(w, limit, Part([], w))
  {
    assert [] + Unsent(w) == Unsent(w);
  }

  /** The front of the queue is sent. */
  function Sending(p: Part, n: nat): Part
    requires n <= |Pending(p.left)| && n <= p.left.queuedBytes
  {
    Part(p.sent + Pending(p.left)[..n], Consumed(p.left, n))
  }

  lemma SendingIsPart(w: Writer, limit: nat, p: Part, n: nat)
    requires IsPart(w, limit, p) && n <= |Pending(p.left)| && |p.sent| + n <= limit
    ensures n <= p.left.queuedBytes && IsPart(w, limit, Sending(p, n))
  {
    ConsumedUnsent(p.left, n);
    Associate(p.sent, Pending(p.left)[..n], Unsent(Consumed(p.left, n)));
  }

  /** After `k` attempts. */
  ghost function AfterAttempts(w: Writer, limit: nat, outcomes: seq<SendOutcome>, k: nat): (p: Part)
    requires ValidWriter(w)
    ensures IsPart(w, limit, p)
    decreases k
  {
    if k == 0 then
      NothingIsSent(w, limit);
      Part([], w)
    else
      var p := AfterAttempts(w, limit, outcomes, k - 1);
      var n := Takes(p, limit, OutcomeAt(outcomes, k - 1));
      SendingIsPart(w, limit, p, n);
      Sending(p, n)
  }

  /** There is something to send, and the next attempt takes some of it. */
  predicate GoesOn(p: Part, limit: nat, o: SendOutcome) {
    Pending(p.left) != [] && |p.sent| < limit && Takes(p, limit, o) != 0
  }

  /** The first `k` attempts all took something. */
  ghost predicate HasGone(w: Writer, limit: nat, outcomes: seq<SendOutcome>, k: nat, p: Part)
    requires ValidWriter(w)
  {
    && p == AfterAttempts(w, limit, outcomes, k)
    && forall i :: 0 <= i < k ==> GoesOn(AfterAttempts(w, limit, outcomes, i), limit, OutcomeAt(outcomes, i))
  }

  ghost predicate EndsAfter(w: Writer, limit: nat, outcomes: seq<SendOutcome>, k: nat, f: Flush)
    requires ValidWriter(w)
  {
    var p := Part(f.sent, f.left);
    && HasGone(w, limit, outcomes, k, p) && !GoesOn(p, limit, OutcomeAt(outcomes, k))
    && f.last == if Pending(f.left) == [] || |f.sent| >= limit then None else Some(OutcomeAt(outcomes, k))
  }

  /** All attempts in their order, until one takes nothing, the queue is empty, or the limit is reached. */
  ghost predicate Flushes(w: Writer, limit: nat, outcomes: seq<SendOutcome>, f: Flush)
    requires ValidWriter(w)
  {
    exists k: nat :: EndsAfter(w, limit, outcomes, k, f)
  }

  lemma EndsAtSame(w: Writer, limit: nat, outcomes: seq<SendOutcome>, j: nat, k: nat, p: Part, q: Part)
    requires ValidWriter(w) && HasGone(w, limit, outcomes, j, p) && HasGone(w, limit, outcomes, k, q)
    requires !GoesOn(p, limit, OutcomeAt(outcomes, j))
    ensures k <= j
  {
  }

  /** What is sent follows from what the socket takes. */
  lemma FlushingIsDetermined(w: Writer, limit: nat, outcomes: seq<SendOutcome>, f: Flush, g: Flush)
    requires ValidWriter(w) && Flushes(w, limit, outcomes, f) && Flushes(w, limit, outcomes, g)
    ensures f == g
  {
    var j: nat :| EndsAfter(w, limit, outcomes, j, f);
    var k: nat :| EndsAfter(w, limit, outcomes, k, g);
    EndsAtSame(w, limit, outcomes, j, k, Part(f.sent, f.left), Part(g.sent, g.left));
    EndsAtSame(w, limit, outcomes, k, j, Part(g.sent, g.left), Part(f.sent, f.left));
  }

  /** No byte is lost or sent twice, and sending ends only for a reason. */
  lemma FlushLosesNothing(w: Writer, limit: nat, outcomes: seq<SendOutcome>, f: Flush)
    requires ValidWriter(w) && Flushes(w, limit, outcomes, f)
    ensures ValidWriter(f.left) && Unsent(w) == f.sent + Unsent(f.left) && |f.sent| <= limit
    ensures f.last.None? ==> Unsent(f.left) == [] || |f.sent| == limit
    ensures f.last.Some? ==> Unsent(f.left) != [] && |f.sent| < limit && (f.last.value.Sent? ==> f.last.value.count == 0)
  {
    var k: nat :| EndsAfter(w, limit, outcomes, k, f);
    assert IsPart(w, limit, Part(f.sent, f.left));
  }

  /** What the socket says it took is sent, and the next attempt goes on behind it. */
  lemma WhatIsTakenIsSent(w: Writer, limit: nat, outcomes: seq<SendOutcome>, k: nat, n: nat)
    requires ValidWriter(w) && k < |outcomes| && outcomes[k] == Sent(n)
    requires var p := AfterAttempts(w, limit, outcomes, k); n <= |Pending(p.left)| && |p.sent| + n <= limit
    ensures var p := AfterAttempts(w, limit, outcomes, k);
            && n <= p.left.queuedBytes
            && AfterAttempts(w, limit, outcomes, k + 1) == Part(p.sent + Pending(p.left)[..n], Consumed(p.left, n))
  {
    SendingIsPart(w, limit, AfterAttempts(w, limit, outcomes, k), n);
  }

  lemma OneMoreAttempt(w: Writer, limit: nat, outcomes: seq<SendOutcome>, k: nat, p: Part)
    requires ValidWriter(w) && HasGone(w, limit, outcomes, k, p) && GoesOn(p, limit, OutcomeAt(outcomes, k))
    ensures var n := Takes(p, limit, OutcomeAt(outcomes, k));
            n <= p.left.queuedBytes && HasGone(w, limit, outcomes, k + 1, Sending(p, n))
  {
    SendingIsPart(w, limit, p, Takes(p, limit, OutcomeAt(outcomes, k)));
  }

  /** The sending loop of either program: at most `limit` bytes, from the front of the queue. */
  method SendPending(w: Writer, limit: nat, outcomes: seq<SendOutcome>)
    returns (left: Writer, sent: seq<byte>, last: Option<SendOutcome>)
    requires ValidWriter(w)
    ensures Flushes(w, limit, outcomes, Flush(sent, left, last))
  {
    var attempt, p := 0, Part([], w);
    last := None;
    while GoesOn(p, limit, OutcomeAt(outcomes, attempt))
      invariant HasGone(w, limit, outcomes, attempt, p)
      decreases limit - |p.sent|
    {
      OneMoreAttempt(w, limit, outcomes, attempt, p);
      p := Sending(p, Takes(p, limit, OutcomeAt(outcomes, attempt)));
      attempt := attempt + 1;
    }
    if Pending(p.left) != [] && |p.sent| < limit {
      last := Some(OutcomeAt(outcomes, attempt));
    }
    left, sent := p.left, p.sent;
    assert EndsAfter(w, limit, outcomes, attempt, Flush(sent, left, last));
  }

  class FrameWriter {
    var frames: seq<seq<byte>>
    var frontOffset: nat
    var queuedBytes: nat

    function State(): Writer
      reads this
    {
      Writer(frames, frontOffset, queuedBytes)
    }

    ghost predicate Valid()
      reads this
    {
      ValidWriter(State())
    }

    constructor ()
      ensures Valid() && State() == EMPTY_WRITER
    {
      frames, frontOffset, queuedBytes := [], 0, 0;
    }

    method Queue(f: Frame) returns (ok: bool)
      requires Valid()
      modifies this
      ensures Valid()
      ensures ok <==> Queues(old(State()), f)
      ensures State() == AfterQueue(old(State()), f)
      ensures Unsent(State()) == Unsent(old(State())) + if ok then Encode(f) else []
    {
      var encoded := TryEncode(f);
      if encoded.None? {
        return false;
      }
      if |frames| >= MAX_QUEUED_FRAMES || queuedBytes > MAX_QUEUED_BYTES - |encoded.value| {
        return false;
      }
      QueuedUnsent(State(), encoded.value);
      queuedBytes := queuedBytes + |encoded.value|;
      frames := frames + [encoded.value];
      return true;
    }

    method PendingBytes() returns (bytes: seq<byte>)
      requires Valid()
      ensures bytes == Pending(State())
      ensures bytes <= Unsent(State())
      ensures bytes == [] <==> Unsent(State()) == []
    {
      if frames == [] {
        return [];
      }
      return frames[0][frontOffset..];
    }

    method ConsumeSent(byteCount: nat) returns (ok: bool)
      requires Valid()
      modifies this
      ensures Valid()
      ensures ok <==> byteCount <= |Pending(old(State()))|
      ensures ok ==> State() == Consumed(old(State()), byteCount)
      ensures ok ==> Unsent(State()) == Unsent(old(State()))[byteCount..]
      ensures !ok ==> State() == old(State())
    {
      var pending := PendingBytes();
      if byteCount > |pending| {
        return false;
      }
      ConsumedUnsent(State(), byteCount);
      if byteCount == 0 {
        return true;
      }
      frontOffset := frontOffset + byteCount;
      queuedBytes := queuedBytes - byteCount;
      if frontOffset == |frames[0]| {
        frames := frames[1..];
        frontOffset := 0;
      }
      return true;
    }

    method Reset()
      modifies this
      ensures Valid() && State() == EMPTY_WRITER
    {
      frames, frontOffset, queuedBytes := [], 0, 0;
    }
  }

  // ----- From a send queue through a byte stream to a decoder

  /** Every byte between the queue's input and the decoder's output is accounted for. */
  ghost predicate Carries(queued: seq<Frame>, polled: seq<Frame>, d: Decoder, wire: seq<byte>, w: Writer) {
    && AllValid(queued) && AllValid(polled)
    && ValidDecoder(d) && ValidWriter(w)
    && d.error in {NoError, QueueOverflow}
    && polled + d.frames <= queued
    && (d.error == NoError ==> EncodeAll(polled + d.frames) + (d.buffer + wire + Unsent(w)) == EncodeAll(queued))
  }

  lemma CarriesNothing()
    ensures Carries([], [], EMPTY_DECODER, [], EMPTY_WRITER)
  {
    assert [] + EMPTY_DECODER.frames == [];
  }

  lemma CarriesQueue(queued: seq<Frame>, polled: seq<Frame>, d: Decoder, wire: seq<byte>, w: Writer, f: Frame)
    requires Carries(queued, polled, d, wire, w) && Queues(w, f)
    ensures Carries(queued + [f], polled, d, wire, AfterQueue(w, f))
  {
    QueuedUnsent(w, Encode(f));
    EncodeAllOne(f);
    EncodeAllConcat(queued, [f]);
    if d.error == NoError {
      AppendToStream(EncodeAll(polled + d.frames), d.buffer + wire, Unsent(w), Encode(f));
    }
  }

  lemma AppendToStream(a: seq<byte>, b: seq<byte>, c: seq<byte>, d: seq<byte>)
    ensures a + (b + (c + d)) == a + (b + c) + d
  {
  }

  lemma CarriesSend(queued: seq<Frame>, polled: seq<Frame>, d: Decoder, wire: seq<byte>, w: Writer, n: nat)
    requires Carries(queued, polled, d, wire, w) && n <= |Pending(w)|
    ensures n <= w.queuedBytes
    ensures Carries(queued, polled, d, wire + Pending(w)[..n], Consumed(w, n))
  {
    ConsumedUnsent(w, n);
    MoveAlong(d.buffer, wire, Pending(w)[..n], Unsent(Consumed(w, n)));
  }

  lemma MoveAlong(a: seq<byte>, b: seq<byte>, c: seq<byte>, d: seq<byte>)
    ensures a + b + (c + d) == a + (b + c) + d
  {
  }

  lemma CarriesPoll(queued: seq<Frame>, polled: seq<Frame>, d: Decoder, wire: seq<byte>, w: Writer)
    requires Carries(queued, polled, d, wire, w)
    ensures Carries(queued, polled + d.frames, Polled(d), wire, w)
  {
    assert polled + d.frames + [] == polled + d.frames;
    if d.error == NoError {
      assert TotalSize([]) == 0;
    }
  }

  lemma CarriesDeliver(queued: seq<Frame>, polled: seq<Frame>, d: Decoder, wire: seq<byte>, w: Writer, n: nat)
    requires Carries(queued, polled, d, wire, w) && n <= |wire|
    ensures Carries(queued, polled, Feed(d, wire[..n]), wire[n..], w)
  {
    var s, after := wire[..n], wire[n..];
    if d.error != NoError {
      FeedAfterFailure(d, s);
    } else {
      assert wire == s + after;
      Regroup(d.buffer, s, after, Unsent(w));
      FeedAfterPoll(queued, polled, d, s, after + Unsent(w));
      Associate(Feed(d, s).buffer, after, Unsent(w));
    }
  }

  lemma Regroup(a: seq<byte>, b: seq<byte>, c: seq<byte>, d: seq<byte>)
    ensures a + (b + c) + d == a + b + (c + d)
  {
  }

  /** `FeedConsumes` and `FeedAccepts` for a decoder whose earlier frames were polled. */
  lemma FeedAfterPoll(queued: seq<Frame>, polled: seq<Frame>, d: Decoder, s: seq<byte>, left: seq<byte>)
    requires AllValid(queued) && AllValid(polled) && ValidDecoder(d) && d.error == NoError
    requires EncodeAll(polled + d.frames) + (d.buffer + s + left) == EncodeAll(queued)
    ensures var e := Feed(d, s);
            && e.error in {NoError, QueueOverflow}
            && polled + e.frames <= queued
            && (e.error == NoError ==> EncodeAll(polled + e.frames) + (e.buffer + left) == EncodeAll(queued))
  {
    var e := Feed(d, s);
    var fs := RestOfStream(queued, polled, d, s, left);
    FeedAccepts(d, s, fs, left);
    FeedHolds(d, s, fs, left);
    assert polled + e.frames <= polled + fs;
    if e.error == NoError {
      FeedConsumes(d, s);
      EncodeAllConcat(polled, e.frames);
      EncodeAllConcat(polled, fs);
      Regroup(EncodeAll(polled), EncodeAll(e.frames), e.buffer, left);
      Associate(EncodeAll(polled), EncodeAll(e.frames) + e.buffer, left);
      Associate(EncodeAll(polled) + EncodeAll(e.frames), e.buffer, left);
    }
  }

  lemma RestOfStream(queued: seq<Frame>, polled: seq<Frame>, d: Decoder, s: seq<byte>, left: seq<byte>)
    returns (fs: seq<Frame>)
    requires AllValid(queued) && AllValid(polled) && AllValid(d.frames)
    requires EncodeAll(polled + d.frames) + (d.buffer + s + left) == EncodeAll(queued)
    ensures AllValid(fs) && queued == polled + fs
    ensures EncodeAll(d.frames) + d.buffer + s + left == EncodeAll(fs)
  {
    EncodeAllConcat(polled, d.frames);
    var held := EncodeAll(d.frames);
    Associate(EncodeAll(polled), held, d.buffer + s + left);
    StreamDecomposition(polled, queued, held + (d.buffer + s + left));
    fs := queued[|polled|..];
    Flat(held, d.buffer, s, left);
  }

  lemma Flat(a: seq<byte>, b: seq<byte>, c: seq<byte>, d: seq<byte>)
    ensures a + (b + c + d) == a + b + c + d
  {
  }

  /** Even when it overflows, a decoder holds the first of the frames being sent. */
  lemma {:induction false} FeedHolds(d: Decoder, s: seq<byte>, fs: seq<Frame>, left: seq<byte>)
    requires ValidDecoder(d) && d.error == NoError && AllValid(fs)
    requires EncodeAll(d.frames) + d.buffer + s + left == EncodeAll(fs)
    ensures Feed(d, s).frames <= fs
    decreases |s|
  {
    if s == [] {
      Flat(EncodeAll(d.frames), d.buffer, s, left);
      StreamDecomposition(d.frames, fs, d.buffer + s + left);
    } else {
      var e := Step(d, s[0]);
      if e.error == NoError {
        StepConsumes(d, s[0]);
        TakeOne(EncodeAll(d.frames) + d.buffer, s, left);
        FeedHolds(e, s[1..], fs, left);
      } else {
        FeedAfterFailure(e, s[1..]);
        Flat(EncodeAll(d.frames), d.buffer, s, left);
        StreamDecomposition(d.frames, fs, d.buffer + s + left);
      }
    }
  }

  lemma TakeOne(a: seq<byte>, s: seq<byte>, left: seq<byte>)
    requires s != []
    ensures a + s + left == a + [s[0]] + s[1..] + left
  {
  }

  /** A decoder never keeps a complete frame in its buffer. */
  lemma FrameIsComplete(f: Frame, rest: seq<byte>)
    requires ValidFrame(f)
    ensures !Incomplete(Encode(f) + rest)
  {
    EncodedFrameParses(f);
    assert (Encode(f) + rest)[..4] == Encode(f)[..4];
  }

  /** Once everything sent has arrived, every queued frame has been decoded and none is half-finished. */
  lemma CarriesDrained(queued: seq<Frame>, polled: seq<Frame>, d: Decoder, w: Writer)
    requires Carries(queued, polled, d, [], w) && d.error == NoError && Unsent(w) == []
    ensures polled + d.frames == queued && d.buffer == []
  {
    assert d.buffer + [] + [] == d.buffer;
    StreamDecomposition(polled + d.frames, queued, d.buffer);
    var missing := queued[|polled + d.frames|..];
    if missing != [] {
      FrameIsComplete(missing[0], EncodeAll(missing[1..]));
    }
  }

  // ----- Runs of one link

  datatype Link = Link(writer: Writer, wire: seq<byte>, decoder: Decoder, queued: seq<Frame>, polled: seq<Frame>)

  const NEW_LINK: Link := Link(EMPTY_WRITER, [], EMPTY_DECODER, [], [])

  /** A producer queues, a socket takes or delivers some bytes, a consumer polls. */
  datatype LinkStep = QueueFrame(f: Frame) | SendSome(n: nat) | DeliverSome(n: nat) | PollFrames

  ghost predicate LinkInvariant(l: Link) {
    Carries(l.queued, l.polled, l.decoder, l.wire, l.writer)
  }

  ghost function LinkNext(l: Link, step: LinkStep): Link
    requires LinkInvariant(l)
  {
    match step
    case QueueFrame(f) =>
      if Queues(l.writer, f) then l.(writer := AfterQueue(l.writer, f), queued := l.queued + [f]) else l
    case SendSome(n) =>
      var taken: nat := Min(n, |Pending(l.writer)|);
      ConsumedUnsent(l.writer, taken);
      l.(writer := Consumed(l.writer, taken), wire := l.wire + Pending(l.writer)[..taken])
    case DeliverSome(n) =>
      var taken: nat := Min(n, |l.wire|);
      l.(decoder := Feed(l.decoder, l.wire[..taken]), wire := l.wire[taken..])
    case PollFrames =>
      l.(decoder := Polled(l.decoder), polled := l.polled + l.decoder.frames)
  }

  lemma LinkNextInvariant(l: Link, step: LinkStep)
    requires LinkInvariant(l)
    ensures LinkInvariant(LinkNext(l, step))
  {
    match step
    case QueueFrame(f) =>
      if Queues(l.writer, f) {
        CarriesQueue(l.queued, l.polled, l.decoder, l.wire, l.writer, f);
      }
    case SendSome(n) =>
      CarriesSend(l.queued, l.polled, l.decoder, l.wire, l.writer, Min(n, |Pending(l.writer)|));
    case DeliverSome(n) =>
      CarriesDeliver(l.queued, l.polled, l.decoder, l.wire, l.writer, Min(n, |l.wire|));
    case PollFrames =>
      CarriesPoll(l.queued, l.polled, l.decoder, l.wire, l.writer);
  }

  ghost function LinkRun(l: Link, steps: seq<LinkStep>): (r: Link)
    requires LinkInvariant(l)
    ensures LinkInvariant(r)
    decreases |steps|
  {
    if steps == [] then l
    else
      LinkNextInvariant(l, steps[0]);
      LinkRun(LinkNext(l, steps[0]), steps[1..])
  }

  /** First in, first out: on every run the polled frames are a prefix of the queued ones, a decoder fails only by
      overflowing, both queues keep their limits, and a drained link has delivered everything. */
  lemma LinkIsFifo(steps: seq<LinkStep>)
    ensures LinkInvariant(NEW_LINK)
    ensures var l := LinkRun(NEW_LINK, steps);
            && l.polled + l.decoder.frames <= l.queued
            && l.decoder.error in {NoError, QueueOverflow}
            && |l.writer.wires| <= MAX_QUEUED_FRAMES && l.writer.queuedBytes == |Unsent(l.writer)| <= MAX_QUEUED_BYTES
            && |l.decoder.frames| <= MAX_QUEUED_FRAMES
            && l.decoder.queuedBytes == TotalSize(l.decoder.frames) <= MAX_QUEUED_BYTES
            && (l.decoder.error == NoError && l.wire == [] && Unsent(l.writer) == [] ==>
                  l.polled + l.decoder.frames == l.queued && l.decoder.buffer == [])
  {
    CarriesNothing();
    var l := LinkRun(NEW_LINK, steps);
    if l.decoder.error == NoError && l.wire == [] && Unsent(l.writer) == [] {
      CarriesDrained(l.queued, l.polled, l.decoder, l.writer);
    }
  }
}
