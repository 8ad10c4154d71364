/** One direction of the connection: frames that were said, frames that were heard, and all the bytes in between. */
module BridgeLink {
  import opened Bytes
  import opened Frames
  import opened FrameDecoding
  import opened FrameWriting

  /** `said` was queued, of which the first `at` frames are heard, and the rest is on its way. */
  ghost predicate OnTheWay(said: seq<Frame>, at: nat, d: Decoder, wire: seq<byte>, w: Writer) {
    at <= |said| && Carries(said, said[..at], d, wire, w)
  }

  /** `fs` are the next of the frames after the first `at`. */
  predicate Continues(said: seq<Frame>, at: nat, fs: seq<Frame>) {
    at + |fs| <= |said| && fs == said[at..at + |fs|]
  }

  lemma PrefixContinues(said: seq<Frame>, at: nat, fs: seq<Frame>)
    requires at <= |said| && said[..at] + fs <= said
    ensures Continues(said, at, fs) && said[..at] + fs == said[..at + |fs|]
  {
    assert forall i :: 0 <= i < |fs| ==> fs[i] == (said[..at] + fs)[at + i];
  }

  lemma ContinuesNext(said: seq<Frame>, at: nat, fs: seq<Frame>)
    requires Continues(said, at, fs) && fs != []
    ensures at < |said| && fs[0] == said[at] && Continues(said, at + 1, fs[1..])
  {
  }

  lemma PollOnTheWay(said: seq<Frame>, at: nat, d: Decoder, wire: seq<byte>, w: Writer)
    requires OnTheWay(said, at, d, wire, w)
    ensures Continues(said, at, d.frames)
    ensures OnTheWay(said, at + |d.frames|, Polled(d), wire, w)
  {
    PrefixContinues(said, at, d.frames);
    CarriesPoll(said, said[..at], d, wire, w);
  }

  lemma DeliveredOnTheWay(said: seq<Frame>, at: nat, d: Decoder, wire: seq<byte>, w: Writer, n: nat)
    requires OnTheWay(said, at, d, wire, w) && n <= |wire|
    ensures OnTheWay(said, at, Feed(d, wire[..n]), wire[n..], w)
  {
    CarriesDeliver(said, said[..at], d, wire, w, n);
  }

  /** A decoder that takes bytes gives out the next of the frames. */
  lemma HeardOnTheWay(said: seq<Frame>, at: nat, d: Decoder, wire: seq<byte>, w: Writer, n: nat, e: Decoder)
    requires OnTheWay(said, at, d, wire, w) && n <= |wire| && e == Feed(d, wire[..n])
    ensures Continues(said, at, e.frames)
    ensures OnTheWay(said, at + |e.frames|, Polled(e), wire[n..], w)
  {
    DeliveredOnTheWay(said, at, d, wire, w, n);
    PollOnTheWay(said, at, e, wire[n..], w);
  }

  lemma SentOnTheWay(said: seq<Frame>, at: nat, d: Decoder, wire: seq<byte>, w: Writer, n: nat)
    requires OnTheWay(said, at, d, wire, w) && n <= |Pending(w)|
    ensures n <= w.queuedBytes && OnTheWay(said, at, d, wire + Pending(w)[..n], Consumed(w, n))
  {
    CarriesSend(said, said[..at], d, wire, w, n);
  }

  lemma QueuedOnTheWay(said: seq<Frame>, at: nat, d: Decoder, wire: seq<byte>, w: Writer, f: Frame)
    requires OnTheWay(said, at, d, wire, w) && Queues(w, f)
    ensures OnTheWay(said + [f], at, d, wire, AfterQueue(w, f))
  {
    CarriesQueue(said, said[..at], d, wire, w, f);
    assert (said + [f])[..at] == said[..at];
  }

  /** `after` is the queue `before` with the frames `more`, for which it had room. */
  predicate Says(before: Writer, more: seq<Frame>, after: Writer)
    decreases |more|
  {
    if more == [] then after == before
    else Queues(before, more[0]) && Says(AfterQueue(before, more[0]), more[1..], after)
  }

  lemma SaysOne(w: Writer, f: Frame)
    requires Queues(w, f)
    ensures Says(w, [f], AfterQueue(w, f))
  {
    assert Says(AfterQueue(w, f), [f][1..], AfterQueue(w, f));
  }

  lemma SaysTwo(w: Writer, f: Frame, g: Frame)
    requires Queues(w, f) && Queues(AfterQueue(w, f), g)
    ensures Says(w, [f, g], AfterQueue(AfterQueue(w, f), g))
  {
    SaysOne(AfterQueue(w, f), g);
    assert [f, g][1..] == [g];
  }

  lemma {:induction false} SaysMore(a: Writer, x: seq<Frame>, b: Writer, y: seq<Frame>, c: Writer)
    requires Says(a, x, b) && Says(b, y, c)
    ensures Says(a, x + y, c)
    decreases |x|
  {
    if x == [] {
      assert x + y == y;
    } else {
      SaysMore(AfterQueue(a, x[0]), x[1..], b, y, c);
      assert (x + y)[1..] == x[1..] + y;
    }
  }

  lemma Append1<T>(s: seq<T>, more: seq<T>)
    requires more != []
    ensures s + [more[0]] + more[1..] == s + more
  {
  }

  lemma {:induction false} SaidOnTheWay(said: seq<Frame>, more: seq<Frame>, at: nat, d: Decoder, wire: seq<byte>,
                                        w: Writer, after: Writer)
    requires OnTheWay(said, at, d, wire, w) && Says(w, more, after)
    ensures OnTheWay(said + more, at, d, wire, after)
    decreases |more|, 0
  {
    if more == [] {
      assert said + more == said;
    } else {
      QueuedOnTheWay(said, at, d, wire, w, more[0]);
      Append1(said, more);
      SaidRest(said + [more[0]], more[1..], said + more, at, d, wire, AfterQueue(w, more[0]), after);
    }
  }

  lemma {:induction false} SaidRest(said: seq<Frame>, more: seq<Frame>, all: seq<Frame>, at: nat, d: Decoder,
                                    wire: seq<byte>, w: Writer, after: Writer)
    requires OnTheWay(said, at, d, wire, w) && Says(w, more, after) && all == said + more
    ensures OnTheWay(all, at, d, wire, after)
    decreases |more|, 1
  {
    SaidOnTheWay(said, more, at, d, wire, w, after);
  }

  // ----- Room in a decoder

  const RECEIVE_CHUNK: nat := 64 * 1024

  lemma StepIsCounted(d: Decoder, b: byte)
    requires ValidDecoder(d) && d.error == NoError
    ensures Step(d, b).error == QueueOverflow ==>
              |d.frames| == MAX_QUEUED_FRAMES || d.queuedBytes + |d.buffer| + 1 > MAX_QUEUED_BYTES
    ensures Step(d, b).error == NoError ==>
              Step(d, b).queuedBytes + |Step(d, b).buffer| == d.queuedBytes + |d.buffer| + 1
  {
  }

  lemma MoreToCome(d: Decoder, b: byte, fs: seq<Frame>, tail: seq<byte>)
    requires AllValid(d.frames) && AllValid(fs) && EncodeAll(d.frames) + (d.buffer + [b]) + tail == EncodeAll(fs)
    ensures |d.frames| < |fs|
  {
    Associate(EncodeAll(d.frames), d.buffer + [b], tail);
    StreamDecomposition(d.frames, fs, d.buffer + [b] + tail);
    assert EncodeAll([]) == [];
  }

  lemma StepHasRoom(d: Decoder, b: byte, fs: seq<Frame>, tail: seq<byte>)
    requires ValidDecoder(d) && d.error == NoError && AllValid(fs) && |fs| <= MAX_QUEUED_FRAMES
    requires EncodeAll(d.frames) + (d.buffer + [b]) + tail == EncodeAll(fs)
    requires d.queuedBytes + |d.buffer| < MAX_QUEUED_BYTES
    ensures Step(d, b).error == NoError
    ensures Step(d, b).queuedBytes + |Step(d, b).buffer| == d.queuedBytes + |d.buffer| + 1
  {
    StepAccepts(d, b, fs, tail);
    MoreToCome(d, b, fs, tail);
    StepIsCounted(d, b);
  }

  /** A decoder that has room for all the bytes and for all the frames to come does not overflow. */
  lemma {:induction false} FeedHasRoom(d: Decoder, s: seq<byte>, fs: seq<Frame>, rest: seq<byte>)
    requires ValidDecoder(d) && d.error == NoError && AllValid(fs) && |fs| <= MAX_QUEUED_FRAMES
    requires EncodeAll(d.frames) + d.buffer + s + rest == EncodeAll(fs)
    requires d.queuedBytes + |d.buffer| + |s| <= MAX_QUEUED_BYTES
    ensures Feed(d, s).error == NoError
    decreases |s|
  {
    if s != [] {
      var e, tail := Step(d, s[0]), s[1..] + rest;
      assert EncodeAll(d.frames) + d.buffer + s + rest == EncodeAll(d.frames) + (d.buffer + [s[0]]) + tail;
      StepHasRoom(d, s[0], fs, tail);
      StepConsumes(d, s[0]);
      assert EncodeAll(e.frames) + e.buffer + s[1..] + rest == EncodeAll(fs);
      FeedHasRoom(e, s[1..], fs, rest);
    }
  }

  lemma BufferIsSmall(d: Decoder)
    requires ValidDecoder(d)
    ensures |d.buffer| < LENGTH_SIZE + MAX_BODY
  {
  }

  /** One chunk does not overflow a decoder that holds no frames while at most 256 are on their way. */
  lemma ChunkFits(said: seq<Frame>, at: nat, d: Decoder, wire: seq<byte>, w: Writer, n: nat)
    requires OnTheWay(said, at, d, wire, w) && d.error == NoError && d.frames == []
    requires n <= |wire| && n <= RECEIVE_CHUNK && |said| <= at + MAX_QUEUED_FRAMES
    ensures Feed(d, wire[..n]).error == NoError
  {
    var s, after := wire[..n], wire[n..];
    assert wire == s + after;
    Regroup(d.buffer, s, after, Unsent(w));
    var fs := RestOfStream(said, said[..at], d, s, after + Unsent(w));
    BufferIsSmall(d);
    FeedHasRoom(d, s, fs, after + Unsent(w));
  }
}
