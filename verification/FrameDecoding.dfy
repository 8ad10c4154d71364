/** The two frame decoders, the app's and the script's, against one byte-at-a-time automaton. */
module FrameDecoding {
  import opened Bytes
  import opened Frames

  // ----- The automaton

  datatype Decoder = Decoder(buffer: seq<byte>, frames: seq<Frame>, queuedBytes: nat, error: DecodeError)

  const EMPTY_DECODER: Decoder := Decoder([], [], 0, NoError)

  function TotalSize(fs: seq<Frame>): nat {
    if fs == [] then 0 else TotalSize(fs[..|fs| - 1]) + WireSize(fs[|fs| - 1])
  }

  /** A frame under construction: an incomplete length field, or a good length and too few bytes. */
  predicate Incomplete(buffer: seq<byte>) {
    |buffer| < LENGTH_SIZE || (LengthError(U32(buffer[..4])) == NoError && |buffer| < AnnouncedSize(buffer))
  }

  predicate ValidDecoder(d: Decoder) {
    && (if d.error == NoError then Incomplete(d.buffer) else d.buffer == [])
    && AllValid(d.frames)
    && |d.frames| <= MAX_QUEUED_FRAMES
    && d.queuedBytes == TotalSize(d.frames) <= MAX_QUEUED_BYTES
  }

  function Failed(d: Decoder, e: DecodeError): Decoder {
    d.(buffer := [], error := e)
  }

  predicate HasRoom(d: Decoder, size: nat) {
    |d.frames| < MAX_QUEUED_FRAMES && d.queuedBytes + size <= MAX_QUEUED_BYTES
  }

  /** The effect of a complete frame. */
  function Complete(d: Decoder, wire: seq<byte>): (r: Decoder)
    requires |wire| >= LENGTH_SIZE + BODY_HEADER_SIZE
  {
    if HeaderError(wire) != NoError then Failed(d, HeaderError(wire))
    else if !HasRoom(d, |wire|) then Failed(d, QueueOverflow)
    else Decoder([], d.frames + [ParsedFrame(wire)], d.queuedBytes + |wire|, NoError)
  }

  lemma CompleteIsValid(d: Decoder, wire: seq<byte>)
    requires ValidDecoder(d)
    requires |wire| >= LENGTH_SIZE + BODY_HEADER_SIZE
    requires AnnouncedSize(wire) == |wire| && LengthError(U32(wire[..4])) == NoError
    ensures ValidDecoder(Complete(d, wire))
  {
    if HeaderError(wire) == NoError && HasRoom(d, |wire|) {
      ParsedFrameEncodes(wire);
      var fs := d.frames + [ParsedFrame(wire)];
      assert fs[..|fs| - 1] == d.frames;
    }
  }

  /** One byte. */
  function Step(d: Decoder, b: byte): (r: Decoder)
    requires ValidDecoder(d)
    ensures ValidDecoder(r)
  {
    var buffer := d.buffer + [b];
    if d.error != NoError then d
    else if |buffer| < LENGTH_SIZE then d.(buffer := buffer)
    else if LengthError(U32(buffer[..4])) != NoError then Failed(d, LengthError(U32(buffer[..4])))
    else if |buffer| < AnnouncedSize(buffer) then d.(buffer := buffer)
    else
      assert |d.buffer| >= LENGTH_SIZE ==> d.buffer[..4] == buffer[..4];
      CompleteIsValid(d, buffer);
      Complete(d, buffer)
  }

  /** A run of bytes, one at a time. */
  function Feed(d: Decoder, s: seq<byte>): (r: Decoder)
    requires ValidDecoder(d)
    ensures ValidDecoder(r)
    decreases |s|
  {
    if s == [] then d else Feed(Step(d, s[0]), s[1..])
  }

  function Polled(d: Decoder): Decoder {
    d.(frames := [], queuedBytes := 0)
  }

  // ----- Properties of the automaton

  /** How a stream is cut into pieces does not matter. */
  lemma {:induction false} FeedConcat(d: Decoder, a: seq<byte>, b: seq<byte>)
    requires ValidDecoder(d)
    ensures Feed(d, a + b) == Feed(Feed(d, a), b)
    decreases |a|
  {
    if a == [] {
      assert a + b == b;
    } else {
      FeedConcat(Step(d, a[0]), a[1..], b);
      assert (a + b)[1..] == a[1..] + b;
    }
  }

  lemma {:induction false} FeedAfterFailure(d: Decoder, s: seq<byte>)
    requires ValidDecoder(d) && d.error != NoError
    ensures Feed(d, s) == d
    decreases |s|
  {
    if s != [] {
      FeedAfterFailure(d, s[1..]);
    }
  }

  /** Bytes that do not finish the length field, or the frame, are only buffered. */
  lemma {:induction false} FeedBuffers(d: Decoder, s: seq<byte>)
    requires ValidDecoder(d) && d.error == NoError
    requires Incomplete(d.buffer + s)
    ensures Feed(d, s) == d.(buffer := d.buffer + s)
    decreases |s|
  {
    if s == [] {
      assert d.buffer + s == d.buffer;
    } else {
      var buffer := d.buffer + [s[0]];
      assert d.buffer + s == buffer + s[1..];
      if |buffer| >= LENGTH_SIZE {
        assert buffer[..4] == (d.buffer + s)[..4];
      }
      FeedBuffers(d.(buffer := buffer), s[1..]);
    }
  }

  lemma FeedLast(d: Decoder, s: seq<byte>, b: byte)
    requires ValidDecoder(d) && d.error == NoError
    requires Incomplete(d.buffer + s)
    ensures Feed(d, s + [b]) == Step(d.(buffer := d.buffer + s), b)
  {
    FeedBuffers(d, s);
    FeedConcat(d, s, [b]);
    var e := d.(buffer := d.buffer + s);
    assert Feed(e, [b]) == Feed(Step(e, b), [b][1..]);
  }

  /** Bytes that finish the length field: the length is checked at once. */
  lemma FeedFinishesLength(d: Decoder, s: seq<byte>)
    requires ValidDecoder(d) && d.error == NoError
    requires s != [] && |d.buffer + s| == LENGTH_SIZE
    ensures var e := LengthError(U32(d.buffer + s));
            Feed(d, s) == if e != NoError then Failed(d, e) else d.(buffer := d.buffer + s)
  {
    var init := s[..|s| - 1];
    assert s == init + [s[|s| - 1]];
    FeedLast(d, init, s[|s| - 1]);
    assert d.buffer + s == d.buffer + init + [s[|s| - 1]];
    assert (d.buffer + s)[..4] == d.buffer + s;
  }

  /** The last byte of a frame. */
  lemma StepCompletes(d: Decoder, b: byte)
    requires ValidDecoder(d) && d.error == NoError && |d.buffer| >= LENGTH_SIZE - 1
    requires var wire := d.buffer + [b];
             LengthError(U32(wire[..4])) == NoError && AnnouncedSize(wire) == |wire|
    ensures Step(d, b) == Complete(d, d.buffer + [b])
  {
  }

  lemma StillIncomplete(buffer: seq<byte>, wire: seq<byte>)
    requires |buffer| < |wire| && buffer == wire[..|buffer|] && |wire| >= LENGTH_SIZE
    requires LengthError(U32(wire[..4])) == NoError && AnnouncedSize(wire) == |wire|
    ensures Incomplete(buffer)
  {
    if |buffer| >= LENGTH_SIZE {
      assert buffer[..4] == wire[..4];
    }
  }

  /** Bytes that finish the frame. */
  lemma FeedFinishesFrame(d: Decoder, s: seq<byte>)
    requires ValidDecoder(d) && d.error == NoError
    requires s != [] && |d.buffer + s| >= LENGTH_SIZE
    requires var wire := d.buffer + s;
             LengthError(U32(wire[..4])) == NoError && AnnouncedSize(wire) == |wire|
    ensures Feed(d, s) == Complete(d, d.buffer + s)
  {
    var init, last := s[..|s| - 1], s[|s| - 1];
    assert s == init + [last] && d.buffer + s == d.buffer + init + [last];
    StillIncomplete(d.buffer + init, d.buffer + s);
    FeedLast(d, init, last);
    BufferedIsValid(d, init);
    StepCompletes(d.(buffer := d.buffer + init), last);
    SameFrames(d, init, d.buffer + s);
  }

  lemma BufferedIsValid(d: Decoder, s: seq<byte>)
    requires ValidDecoder(d) && d.error == NoError && Incomplete(d.buffer + s)
    ensures ValidDecoder(d.(buffer := d.buffer + s))
  {
  }

  /** Completing a frame does not look at the buffer. */
  lemma SameFrames(d: Decoder, s: seq<byte>, wire: seq<byte>)
    requires ValidDecoder(d) && |wire| >= LENGTH_SIZE + BODY_HEADER_SIZE
    ensures Complete(d.(buffer := d.buffer + s), wire) == Complete(d, wire)
  {
  }

  /** Whatever an accepting decoder has consumed is the encoding of the frames it holds, then a partial frame. */
  lemma {:induction false} FeedConsumes(d: Decoder, s: seq<byte>)
    requires ValidDecoder(d) && Feed(d, s).error == NoError
    ensures d.error == NoError
    ensures var e := Feed(d, s);
            && d.frames <= e.frames
            && EncodeAll(d.frames) + d.buffer + s == EncodeAll(e.frames) + e.buffer
    decreases |s|
  {
    if d.error != NoError {
      FeedAfterFailure(d, s);
    } else if s == [] {
      assert EncodeAll(d.frames) + d.buffer + s == EncodeAll(d.frames) + d.buffer;
    } else {
      var e := Step(d, s[0]);
      FeedConsumes(e, s[1..]);
      StepConsumes(d, s[0]);
      assert EncodeAll(d.frames) + d.buffer + s == (EncodeAll(d.frames) + d.buffer + [s[0]]) + s[1..];
    }
  }

  lemma StepConsumes(d: Decoder, b: byte)
    requires ValidDecoder(d) && d.error == NoError && Step(d, b).error == NoError
    ensures var e := Step(d, b);
            && d.frames <= e.frames
            && EncodeAll(d.frames) + d.buffer + [b] == EncodeAll(e.frames) + e.buffer
  {
    var e := Step(d, b);
    var wire := d.buffer + [b];
    Associate(EncodeAll(d.frames), d.buffer, [b]);
    if e.frames != d.frames {
      assert d.buffer[..4] == wire[..4];
      assert e == Complete(d, wire);
      ParsedFrameEncodes(wire);
      EncodeAllOne(ParsedFrame(wire));
      EncodeAllConcat(d.frames, [ParsedFrame(wire)]);
    }
  }

  /** While a stream is the beginning of encoded frames, a decoder can only fail for want of queue room. */
  lemma {:induction false} FeedAccepts(d: Decoder, s: seq<byte>, fs: seq<Frame>, rest: seq<byte>)
    requires ValidDecoder(d) && d.error == NoError && AllValid(fs)
    requires EncodeAll(d.frames) + d.buffer + s + rest == EncodeAll(fs)
    ensures Feed(d, s).error in {NoError, QueueOverflow}
    decreases |s|
  {
    if s != [] {
      var e := Step(d, s[0]);
      var tail := s[1..] + rest;
      assert EncodeAll(d.frames) + d.buffer + s + rest == EncodeAll(d.frames) + (d.buffer + [s[0]]) + tail;
      StepAccepts(d, s[0], fs, tail);
      if e.error == NoError {
        StepConsumes(d, s[0]);
        assert EncodeAll(e.frames) + e.buffer + s[1..] + rest == EncodeAll(fs);
        FeedAccepts(e, s[1..], fs, rest);
      } else {
        FeedAfterFailure(e, s[1..]);
      }
    }
  }

  lemma StepAccepts(d: Decoder, b: byte, fs: seq<Frame>, tail: seq<byte>)
    requires ValidDecoder(d) && d.error == NoError && AllValid(fs)
    requires EncodeAll(d.frames) + (d.buffer + [b]) + tail == EncodeAll(fs)
    ensures Step(d, b).error in {NoError, QueueOverflow}
  {
    var buffer := d.buffer + [b];
    Associate(EncodeAll(d.frames), buffer, tail);
    StreamDecomposition(d.frames, fs, buffer + tail);
    var left := fs[|d.frames|..];
    assert buffer + tail == EncodeAll(left) && left != [];
    var next := Encode(left[0]);
    EncodedFrameParses(left[0]);
    if |buffer| >= LENGTH_SIZE {
      assert buffer[..4] == (buffer + tail)[..4] == next[..4];
      assert |d.buffer| >= LENGTH_SIZE ==> d.buffer[..4] == buffer[..4];
      if |buffer| == AnnouncedSize(buffer) {
        assert buffer == (buffer + tail)[..|buffer|] == next;
      }
    }
  }

  lemma FeedOne(d: Decoder, f: Frame)
    requires ValidDecoder(d) && d.error == NoError && d.buffer == [] && ValidFrame(f)
    requires |d.frames| < MAX_QUEUED_FRAMES && TotalSize(d.frames + [f]) <= MAX_QUEUED_BYTES
    ensures var fs := d.frames + [f]; Feed(d, Encode(f)) == Decoder([], fs, TotalSize(fs), NoError)
  {
    var fs := d.frames + [f];
    assert fs[..|fs| - 1] == d.frames;
    EncodedFrameParses(f);
    FeedWire(d, Encode(f));
  }

  /** A whole frame on the wire, fed to a decoder that is between frames. */
  lemma FeedWire(d: Decoder, wire: seq<byte>)
    requires ValidDecoder(d) && d.error == NoError && d.buffer == []
    requires |wire| >= LENGTH_SIZE && LengthError(U32(wire[..4])) == NoError && |wire| == AnnouncedSize(wire)
    ensures Feed(d, wire) == Complete(d, wire)
  {
    assert d.buffer + wire == wire;
    FeedFinishesFrame(d, wire);
  }

  /** Decoding what was encoded gives the frames back, as long as they fit the queue. */
  lemma {:induction false} FeedEncoded(d: Decoder, fs: seq<Frame>)
    requires ValidDecoder(d) && d.error == NoError && d.buffer == [] && AllValid(fs)
    requires |d.frames + fs| <= MAX_QUEUED_FRAMES && TotalSize(d.frames + fs) <= MAX_QUEUED_BYTES
    ensures Feed(d, EncodeAll(fs)) == Decoder([], d.frames + fs, TotalSize(d.frames + fs), NoError)
    decreases |fs|
  {
    if fs == [] {
      assert d.frames + fs == d.frames;
    } else {
      var one := d.frames + [fs[0]];
      assert d.frames + fs == one + fs[1..];
      TotalSizeGrows(one, fs[1..]);
      FeedOne(d, fs[0]);
      FeedConcat(d, Encode(fs[0]), EncodeAll(fs[1..]));
      FeedEncoded(Feed(d, Encode(fs[0])), fs[1..]);
    }
  }

  lemma {:induction false} TotalSizeGrows(a: seq<Frame>, b: seq<Frame>)
    ensures TotalSize(a) <= TotalSize(a + b)
  {
    if b == [] {
      assert a + b == a;
    } else {
      TotalSizeGrows(a, b[..|b| - 1]);
      assert (a + b)[..|a + b| - 1] == a + b[..|b| - 1];
    }
  }

  /** The streams that a fresh decoder accepts completely, ending between frames, are exactly the encodings
      of frame sequences that fit the queue. */
  lemma AcceptedStreams(s: seq<byte>, fs: seq<Frame>)
    ensures Feed(EMPTY_DECODER, s) == Decoder([], fs, TotalSize(fs), NoError)
            <==> AllValid(fs) && |fs| <= MAX_QUEUED_FRAMES && TotalSize(fs) <= MAX_QUEUED_BYTES && s == EncodeAll(fs)
  {
    if AllValid(fs) && |fs| <= MAX_QUEUED_FRAMES && TotalSize(fs) <= MAX_QUEUED_BYTES && s == EncodeAll(fs) {
      assert [] + fs == fs;
      FeedEncoded(EMPTY_DECODER, fs);
    }
    if Feed(EMPTY_DECODER, s) == Decoder([], fs, TotalSize(fs), NoError) {
      FeedConsumes(EMPTY_DECODER, s);
      assert [] + s == s;
    }
  }

  // ----- The app's decoder

  class FrameDecoder {
    var buffer: seq<byte>
    var expectedWireSize: nat
    var frames: seq<Frame>
    var queuedBytes: nat
    var error: DecodeError

    function State(): Decoder
      reads this
    {
      Decoder(buffer, frames, queuedBytes, error)
    }

    predicate Valid()
      reads this
    {
      && ValidDecoder(State())
      && expectedWireSize == if |buffer| < LENGTH_SIZE then 0 else AnnouncedSize(buffer)
    }

    constructor ()
      ensures Valid() && State() == EMPTY_DECODER
    {
      buffer, expectedWireSize, frames, queuedBytes, error := [], 0, [], 0, NoError;
    }

    /** Copies whole runs of bytes, yet ends in the state of the automaton. */
    method Append(bytes: seq<byte>) returns (ok: bool)
      requires Valid()
      modifies this
      ensures Valid()
      ensures State() == Feed(old(State()), bytes)
      ensures ok <==> error == NoError
    {
      if error != NoError {
        FeedAfterFailure(State(), bytes);
        return false;
      }
      ghost var start := State();
      var inputOffset := 0;
      while inputOffset < |bytes|
        invariant inputOffset <= |bytes|
        invariant Valid() && error == NoError
        invariant State() == Feed(start, bytes[..inputOffset])
      {
        var rest := bytes[inputOffset..];
        var count, good := CopyRun(rest);
        FeedRun(start, bytes, inputOffset, count);
        inputOffset := inputOffset + count;
        if !good {
          return false;
        }
      }
      assert bytes[..inputOffset] == bytes;
      return true;
    }

    /** One turn of the loop: finishes the length field if it can, then copies towards the end of the frame. */
    method CopyRun(bytes: seq<byte>) returns (count: nat, ok: bool)
      requires Valid() && error == NoError && bytes != []
      modifies this
      ensures Valid() && 0 < count <= |bytes|
      ensures State() == Feed(old(State()), bytes[..count])
      ensures ok <==> error == NoError
    {
      count, ok := 0, true;
      if expectedWireSize == 0 && |buffer| < LENGTH_SIZE {
        count, ok := CopyLength(bytes);
        if !ok || |buffer| < LENGTH_SIZE {
          return;
        }
      }
      ghost var before, from := State(), count;
      var more := Min(expectedWireSize - |buffer|, |bytes| - count);
      buffer := buffer + bytes[count..count + more];
      count := count + more;
      ok := FinishRun(before, bytes[from..count]);
      FeedRun(old(State()), bytes, from, more);
    }

    /** Copies towards the end of the length field, which is checked as soon as it is there. */
    method CopyLength(bytes: seq<byte>) returns (count: nat, ok: bool)
      requires Valid() && error == NoError && bytes != [] && expectedWireSize == 0 && |buffer| < LENGTH_SIZE
      modifies this
      ensures Valid() && 0 < count <= |bytes|
      ensures State() == Feed(old(State()), bytes[..count])
      ensures ok <==> error == NoError
      ensures ok && |buffer| < LENGTH_SIZE ==> count == |bytes|
    {
      count := Min(LENGTH_SIZE - |buffer|, |bytes|);
      ghost var before := State();
      buffer := buffer + bytes[..count];
      if |buffer| < LENGTH_SIZE {
        FeedBuffers(before, bytes[..count]);
        return count, true;
      }
      FeedFinishesLength(before, bytes[..count]);
      ok := ReadExpectedSize();
    }

    method FinishRun(ghost before: Decoder, ghost piece: seq<byte>) returns (ok: bool)
      requires ValidDecoder(before) && before.error == NoError && |before.buffer| >= LENGTH_SIZE
      requires State() == before.(buffer := before.buffer + piece)
      requires expectedWireSize == AnnouncedSize(before.buffer) && |buffer| <= expectedWireSize
      modifies this
      ensures Valid() && State() == Feed(before, piece)
      ensures ok <==> error == NoError
    {
      assert buffer[..4] == before.buffer[..4];
      if |buffer| == expectedWireSize {
        FeedFinishesFrame(before, piece);
        ok := DecodeBufferedFrame();
      } else {
        FeedBuffers(before, piece);
        ok := true;
      }
    }

    method ReadExpectedSize() returns (ok: bool)
      requires |buffer| == LENGTH_SIZE && error == NoError
      modifies this
      ensures ok == (LengthError(U32(old(buffer))) == NoError)
      ensures ok ==> State() == old(State()) && expectedWireSize == AnnouncedSize(buffer)
      ensures !ok ==> State() == Failed(old(State()), LengthError(U32(old(buffer)))) && expectedWireSize == 0
    {
      assert buffer[..4] == buffer;
      var bodyLength := U32(buffer);
      if bodyLength < BODY_HEADER_SIZE {
        Fail(BodyTooSmall);
        return false;
      }
      if bodyLength > MAX_BODY {
        Fail(FrameTooLarge);
        return false;
      }
      expectedWireSize := LENGTH_SIZE + bodyLength;
      return true;
    }

    method DecodeBufferedFrame() returns (ok: bool)
      requires |buffer| >= LENGTH_SIZE + BODY_HEADER_SIZE && error == NoError
      requires expectedWireSize == |buffer| == AnnouncedSize(buffer) <= LENGTH_SIZE + MAX_BODY
      modifies this
      ensures State() == Complete(old(State()), old(buffer))
      ensures ok == (error == NoError) && expectedWireSize == 0
    {
      var encodedType := buffer[4];
      if encodedType < CLIENT_HELLO || encodedType > CLOSE {
        Fail(InvalidMessageType);
        return false;
      }
      if buffer[5] != 0 {
        Fail(UnsupportedFlags);
        return false;
      }
      if U16(buffer[6..8]) != 0 {
        Fail(NonzeroReserved);
        return false;
      }
      var frame := ParsedFrame(buffer);
      if !ValidFrame(frame) {
        Fail(InvalidRequestId);
        return false;
      }
      if |frames| >= MAX_QUEUED_FRAMES || queuedBytes > MAX_QUEUED_BYTES - expectedWireSize {
        Fail(QueueOverflow);
        return false;
      }
      queuedBytes := queuedBytes + expectedWireSize;
      frames := frames + [frame];
      buffer := [];
      expectedWireSize := 0;
      return true;
    }

    method Fail(e: DecodeError)
      modifies this
      ensures State() == Failed(old(State()), e) && expectedWireSize == 0
    {
      error := e;
      buffer := [];
      expectedWireSize := 0;
    }

    method PollFrames() returns (polled: seq<Frame>)
      requires Valid()
      modifies this
      ensures Valid() && State() == Polled(old(State())) && polled == old(frames)
    {
      polled := [];
      while frames != []
        invariant polled + frames == old(frames)
        invariant buffer == old(buffer) && expectedWireSize == old(expectedWireSize) && error == old(error)
        decreases |frames|
      {
        polled := polled + [frames[0]];
        frames := frames[1..];
      }
      queuedBytes := 0;
    }

    method Reset()
      modifies this
      ensures Valid() && State() == EMPTY_DECODER
    {
      buffer, expectedWireSize, frames, queuedBytes, error := [], 0, [], 0, NoError;
    }
  }

  function Min(a: int, b: int): int {
    if a < b then a else b
  }

  /** A run that starts where the previous one ended. */
  lemma FeedRun(d: Decoder, bytes: seq<byte>, offset: nat, count: nat)
    requires ValidDecoder(d) && offset + count <= |bytes|
    ensures Feed(d, bytes[..offset + count]) == Feed(Feed(d, bytes[..offset]), bytes[offset..][..count])
    ensures bytes[offset..offset + count] == bytes[offset..][..count]
    ensures Feed(d, bytes[..offset + count]).error != NoError ==> Feed(d, bytes) == Feed(d, bytes[..offset + count])
  {
    TwoPieces(bytes, offset, count);
    FeedConcat(d, bytes[..offset], bytes[offset..][..count]);
    FeedRest(d, bytes[..offset + count], bytes[offset + count..]);
  }

  lemma TwoPieces<T>(s: seq<T>, offset: nat, count: nat)
    requires offset + count <= |s|
    ensures s[..offset + count] == s[..offset] + s[offset..][..count]
    ensures s[..offset + count] + s[offset + count..] == s
    ensures s[offset..offset + count] == s[offset..][..count]
  {
  }

  lemma FeedRest(d: Decoder, a: seq<byte>, b: seq<byte>)
    requires ValidDecoder(d)
    ensures Feed(d, a).error != NoError ==> Feed(d, a + b) == Feed(d, a)
  {
    FeedConcat(d, a, b);
    if Feed(d, a).error != NoError {
      FeedAfterFailure(Feed(d, a), b);
    }
  }

  // ----- The script's decoder

  class ScriptDecoder {
    var buffer: seq<byte>
    var frames: seq<Frame>
    var queuedBytes: nat
    var failed: bool

    /** The script remembers a failure as text, so the kind of error is forgotten. */
    predicate Represents(d: Decoder)
      reads this
    {
      && buffer == d.buffer && frames == d.frames && queuedBytes == d.queuedBytes
      && failed == (d.error != NoError)
    }

    constructor ()
      ensures Represents(EMPTY_DECODER)
    {
      buffer, frames, queuedBytes, failed := [], [], 0, false;
    }

    method Fail()
      modifies this
      ensures failed && buffer == [] && frames == old(frames) && queuedBytes == old(queuedBytes)
    {
      failed := true;
      buffer := [];
    }

    /** `feedDecoder`: the same frames as the app's decoder, and failure on the same streams. */
    method FeedDecoder(bytes: seq<byte>, ghost d: Decoder) returns (ok: bool)
      requires ValidDecoder(d) && Represents(d)
      modifies this
      ensures Represents(Feed(d, bytes))
      ensures ok <==> !failed
    {
      ghost var target := Feed(d, bytes);
      if failed {
        FeedAfterFailure(d, bytes);
        return false;
      }
      ghost var blank := d.(buffer := []);
      assert [] + d.buffer == d.buffer;
      FeedBuffers(blank, d.buffer);
      FeedConcat(blank, d.buffer, bytes);
      buffer := buffer + bytes;
      var done := false;
      while !done
        invariant !done ==> !failed
        invariant !failed && !done ==> ValidDecoder(Rest()) && Feed(Rest(), buffer) == target
        invariant done ==> Represents(target)
        decreases !done, |buffer|
      {
        done := TakeFrame();
      }
      return !failed;
    }

    /** What is left to decode once the whole buffer counts as input. */
    function Rest(): Decoder
      reads this
    {
      Decoder([], frames, queuedBytes, NoError)
    }

    /** One turn of the loop: takes a complete frame off the buffer, or finds that there is none. */
    method TakeFrame() returns (done: bool)
      requires !failed && ValidDecoder(Rest())
      modifies this
      ensures done ==> Represents(Feed(old(Rest()), old(buffer)))
      ensures !done ==> !failed && |buffer| < |old(buffer)| && ValidDecoder(Rest())
      ensures !done ==> Feed(Rest(), buffer) == Feed(old(Rest()), old(buffer))
    {
      ghost var here := Rest();
      assert [] + buffer == buffer;
      if |buffer| < 4 {
        FeedBuffers(here, buffer);
        return true;
      }
      var bodyLength := U32(buffer[..4]);
      if bodyLength < 8 || bodyLength > MAX_BODY {
        FailsAtLength(here, buffer);
        Fail();
        return true;
      }
      var wireLength := 4 + bodyLength;
      if |buffer| < wireLength {
        FeedBuffers(here, buffer);
        return true;
      }

      ghost var wire := buffer[..wireLength];
      assert wire[..4] == buffer[..4] && wire + buffer[wireLength..] == buffer;
      AfterFrame(here, wire, buffer[wireLength..]);
      done := CheckFrame(wireLength);
    }

    /** Checks the header of the complete frame at the front of the buffer and queues the frame. */
    method CheckFrame(wireLength: nat) returns (refused: bool)
      requires LENGTH_SIZE + BODY_HEADER_SIZE <= wireLength <= |buffer| && !failed
      modifies this
      ensures var wire := old(buffer)[..wireLength];
              && refused == (Complete(old(Rest()), wire).error != NoError) == failed
              && (refused ==> Represents(Complete(old(Rest()), wire)))
              && (!refused ==> Rest() == Complete(old(Rest()), wire) && buffer == old(buffer)[wireLength..])
    {
      ghost var wire := buffer[..wireLength];
      var messageType, flags := buffer[4], buffer[5];
      var reserved, requestId := U16(buffer[6..8]), U32(buffer[8..12]);
      assert wire[6..8] == buffer[6..8] && wire[8..12] == buffer[8..12] && wire[12..] == buffer[12..wireLength];
      if !IsKnownKind(messageType)
        || flags != 0 || reserved != 0
        || (RequiresZeroId(messageType) && requestId != 0) || (RequiresNonzeroId(messageType) && requestId == 0)
        || |frames| >= MAX_QUEUED_FRAMES || queuedBytes + wireLength > MAX_QUEUED_BYTES
      {
        Fail();
        return true;
      }
      frames := frames + [Frame(messageType, 0, requestId, buffer[12..wireLength])];
      queuedBytes := queuedBytes + wireLength;
      buffer := buffer[wireLength..];
      return false;
    }

    method PollDecoder(ghost d: Decoder) returns (polled: seq<Frame>)
      requires Represents(d)
      modifies this
      ensures Represents(Polled(d)) && polled == d.frames
    {
      polled := frames;
      frames := [];
      queuedBytes := 0;
    }
  }

  lemma FailsAtLength(d: Decoder, bytes: seq<byte>)
    requires ValidDecoder(d) && d.error == NoError && d.buffer == []
    requires |bytes| >= LENGTH_SIZE && LengthError(U32(bytes[..4])) != NoError
    ensures Feed(d, bytes) == Failed(d, LengthError(U32(bytes[..4])))
  {
    assert [] + bytes[..4] == bytes[..4];
    FeedFinishesLength(d, bytes[..4]);
    FeedRest(d, bytes[..4], bytes[4..]);
    assert bytes[..4] + bytes[4..] == bytes;
  }

  lemma AfterFrame(d: Decoder, wire: seq<byte>, rest: seq<byte>)
    requires ValidDecoder(d) && d.error == NoError && d.buffer == []
    requires |wire| >= LENGTH_SIZE && LengthError(U32(wire[..4])) == NoError && |wire| == AnnouncedSize(wire)
    ensures var e := Complete(d, wire);
            && ValidDecoder(e)
            && Feed(d, wire + rest) == if e.error != NoError then e else Feed(e, rest)
  {
    FeedWire(d, wire);
    FeedConcat(d, wire, rest);
    FeedRest(d, wire, rest);
  }
}
