/** Frames of bridge protocol 1.0: validation, the wire encoding, and the typed payloads.

    Error text is bytes here; the human-readable reasons that the encoders and decoders
    report beside a failure are not part of this model. */
module Frames {
  import opened Bytes
  import Utf8

  const CLIENT_HELLO: byte := 1
  const SERVER_HELLO: byte := 2
  const READ_REQUEST: byte := 3
  const WRITE_REQUEST: byte := 4
  const READ_RESULT: byte := 5
  const WRITE_RESULT: byte := 6
  const ERROR: byte := 7
  const CLOSE: byte := 8

  const PROTOCOL_MAJOR: u16 := 1
  const PROTOCOL_MINOR: u16 := 0
  const SCRIPT_VERSION: u32 := 1

  const LENGTH_SIZE: nat := 4
  const BODY_HEADER_SIZE: nat := 8
  const MAX_BODY: nat := 1024 * 1024
  const MAX_QUEUED_FRAMES: nat := 256
  const MAX_QUEUED_BYTES: nat := 4 * 1024 * 1024
  const MAX_DIAGNOSTIC: nat := 1024

  datatype Frame = Frame(kind: byte, flags: byte, requestId: u32, payload: seq<byte>)

  predicate IsKnownKind(kind: byte) {
    CLIENT_HELLO <= kind <= CLOSE
  }

  predicate RequiresZeroId(kind: byte) {
    kind == CLIENT_HELLO || kind == SERVER_HELLO || kind == CLOSE
  }

  predicate RequiresNonzeroId(kind: byte) {
    kind == READ_REQUEST || kind == WRITE_REQUEST || kind == READ_RESULT || kind == WRITE_RESULT
  }

  predicate AllowedId(kind: byte, requestId: u32) {
    (RequiresZeroId(kind) ==> requestId == 0) && (RequiresNonzeroId(kind) ==> requestId != 0)
  }

  predicate ValidFrame(f: Frame) {
    && IsKnownKind(f.kind)
    && f.flags == 0
    && AllowedId(f.kind, f.requestId)
    && |f.payload| <= MAX_BODY - BODY_HEADER_SIZE
  }

  predicate AllValid(fs: seq<Frame>) {
    forall f {:trigger ValidFrame(f)} :: f in fs ==> ValidFrame(f)
  }

  function WireSize(f: Frame): nat {
    LENGTH_SIZE + BODY_HEADER_SIZE + |f.payload|
  }

  // ----- The wire form

  function Encode(f: Frame): (wire: seq<byte>)
    requires ValidFrame(f)
    ensures |wire| == WireSize(f)
  {
    Le32(BODY_HEADER_SIZE + |f.payload|) + [f.kind, f.flags] + Le16(0) + Le32(f.requestId) + f.payload
  }

  function TryEncode(f: Frame): Option<seq<byte>> {
    if ValidFrame(f) then Some(Encode(f)) else None
  }

  /** The script's `encodeFrame`, which has no flags argument. */
  function ScriptEncode(kind: byte, requestId: u32, payload: seq<byte>): Option<seq<byte>> {
    var bodyLength := 8 + |payload|;
    if !IsKnownKind(kind) || bodyLength > MAX_BODY then None
    else if (RequiresZeroId(kind) && requestId != 0) || (RequiresNonzeroId(kind) && requestId == 0) then None
    else Some(Le32(bodyLength) + [kind, 0] + Le16(0) + Le32(requestId) + payload)
  }

  function EncodeAll(fs: seq<Frame>): seq<byte>
    requires AllValid(fs)
  {
    if fs == [] then [] else Encode(fs[0]) + EncodeAll(fs[1..])
  }

  /** The length announced by the first four bytes, with those four bytes. */
  function AnnouncedSize(wire: seq<byte>): nat
    requires |wire| >= LENGTH_SIZE
  {
    LENGTH_SIZE + U32(wire[..4])
  }

  datatype DecodeError =
    | NoError
    | BodyTooSmall
    | FrameTooLarge
    | InvalidMessageType
    | UnsupportedFlags
    | NonzeroReserved
    | InvalidRequestId
    | QueueOverflow

  /** What is wrong with a length field. */
  function LengthError(bodyLength: nat): DecodeError {
    if bodyLength < BODY_HEADER_SIZE then BodyTooSmall
    else if bodyLength > MAX_BODY then FrameTooLarge
    else NoError
  }

  /** What is wrong with the header of a complete frame. */
  function HeaderError(wire: seq<byte>): DecodeError
    requires |wire| >= LENGTH_SIZE + BODY_HEADER_SIZE
  {
    if !IsKnownKind(wire[4]) then InvalidMessageType
    else if wire[5] != 0 then UnsupportedFlags
    else if U16(wire[6..8]) != 0 then NonzeroReserved
    else if !AllowedId(wire[4], U32(wire[8..12])) then InvalidRequestId
    else NoError
  }

  function ParsedFrame(wire: seq<byte>): Frame
    requires |wire| >= LENGTH_SIZE + BODY_HEADER_SIZE
  {
    Frame(wire[4], 0, U32(wire[8..12]), wire[12..])
  }

  /** A complete frame on the wire that the decoders accept. */
  predicate IsFrameWire(wire: seq<byte>) {
    && |wire| >= LENGTH_SIZE + BODY_HEADER_SIZE
    && AnnouncedSize(wire) == |wire|
    && LengthError(U32(wire[..4])) == NoError
    && HeaderError(wire) == NoError
  }

  /** Encoding is injective: what the decoders read from an encoded frame is that frame. */
  lemma EncodedFrameParses(f: Frame)
    requires ValidFrame(f)
    ensures IsFrameWire(Encode(f)) && ParsedFrame(Encode(f)) == f
  {
    var wire := Encode(f);
    assert wire[..4] == Le32(8 + |f.payload|) && wire[6..8] == Le16(0) && wire[8..12] == Le32(f.requestId);
    Le32Bijection(8 + |f.payload|, wire[..4]);
    Le32Bijection(f.requestId, wire[8..12]);
    Le16Bijection(0, wire[6..8]);
  }

  /** Encoding is onto: every wire form that the decoders accept is the encoding of the frame they read. */
  lemma ParsedFrameEncodes(wire: seq<byte>)
    requires IsFrameWire(wire)
    ensures ValidFrame(ParsedFrame(wire)) && Encode(ParsedFrame(wire)) == wire
  {
    var f := ParsedFrame(wire);
    Le32Bijection(8 + |f.payload|, wire[..4]);
    Le32Bijection(f.requestId, wire[8..12]);
    Le16Bijection(0, wire[6..8]);
    assert wire == wire[..4] + [wire[4], wire[5]] + wire[6..8] + wire[8..12] + wire[12..];
  }

  /** Both programs produce the same bytes, and refuse the same frames, when flags are zero. */
  lemma EncodersAgree(f: Frame)
    ensures (if f.flags == 0 then ScriptEncode(f.kind, f.requestId, f.payload) else None) == TryEncode(f)
  {
  }

  lemma EncodeAllCons(f: Frame, rest: seq<Frame>)
    requires ValidFrame(f) && AllValid(rest)
    ensures AllValid([f] + rest) && EncodeAll([f] + rest) == Encode(f) + EncodeAll(rest)
  {
    assert ([f] + rest)[1..] == rest;
  }

  lemma {:induction false} EncodeAllConcat(a: seq<Frame>, b: seq<Frame>)
    requires AllValid(a) && AllValid(b)
    ensures AllValid(a + b) && EncodeAll(a + b) == EncodeAll(a) + EncodeAll(b)
  {
    if a == [] {
      assert a + b == b;
    } else {
      EncodeAllConcat(a[1..], b);
      EncodeAllCons(a[0], a[1..] + b);
      assert a + b == [a[0]] + (a[1..] + b);
      Associate(Encode(a[0]), EncodeAll(a[1..]), EncodeAll(b));
    }
  }

  lemma Associate(a: seq<byte>, b: seq<byte>, c: seq<byte>)
    ensures a + b + c == a + (b + c)
  {
  }

  lemma EncodeAllOne(f: Frame)
    requires ValidFrame(f)
    ensures AllValid([f]) && EncodeAll([f]) == Encode(f)
  {
    assert [f][1..] == [];
    assert EncodeAll([f]) == Encode(f) + EncodeAll([]);
  }

  /** No encoded frame is a proper prefix of another, so equal streams start with equal frames. */
  lemma FirstFrameUnique(f: Frame, g: Frame, s: seq<byte>, t: seq<byte>)
    requires ValidFrame(f) && ValidFrame(g)
    requires Encode(f) + s == Encode(g) + t
    ensures f == g && s == t
  {
    EncodedFrameParses(f);
    EncodedFrameParses(g);
    var stream := Encode(f) + s;
    assert stream[..4] == Encode(f)[..4] && stream[..4] == Encode(g)[..4];
    assert Encode(f) == stream[..|Encode(f)|] && Encode(g) == stream[..|Encode(g)|];
    assert s == stream[|Encode(f)|..] && t == stream[|Encode(g)|..];
  }

  /** A stream of encoded frames can be split into frames in only one way. */
  lemma {:induction false} StreamDecomposition(a: seq<Frame>, b: seq<Frame>, rest: seq<byte>)
    requires AllValid(a) && AllValid(b)
    requires EncodeAll(a) + rest == EncodeAll(b)
    ensures a <= b && rest == EncodeAll(b[|a|..])
  {
    if a != [] {
      assert b != [];
      var tailA, tailB := EncodeAll(a[1..]), EncodeAll(b[1..]);
      assert EncodeAll(a) + rest == Encode(a[0]) + (tailA + rest);
      FirstFrameUnique(a[0], b[0], tailA + rest, tailB);
      StreamDecomposition(a[1..], b[1..], rest);
      assert b[1..][|a| - 1..] == b[|a|..];
    }
  }

  // ----- Typed payloads

  datatype ClientHello = ClientHello(major: u16, minor: u16, scriptVersion: u32)
  datatype HelloStatus = Accepted | Rejected
  datatype ServerHello = ServerHello(
    status: HelloStatus, major: u16, minor: u16, appMajor: u16, appMinor: u16, appPatch: u16)
  datatype ReadRequest = ReadRequest(address: u32, size: u32)
  datatype WriteRequest = WriteRequest(address: u32, data: seq<byte>)

  /** UnsupportedProtocol, Busy, MalformedFrame, InvalidRequestId, InvalidAddress, InvalidSize, QueueFull, InternalError. */
  type ErrorCode = c: int | 1 <= c <= 8 witness 1
  const UNSUPPORTED_PROTOCOL: ErrorCode := 1
  const BUSY: ErrorCode := 2
  const MALFORMED_FRAME: ErrorCode := 3
  const INVALID_REQUEST_ID: ErrorCode := 4
  const INVALID_ADDRESS: ErrorCode := 5
  const INVALID_SIZE: ErrorCode := 6
  const QUEUE_FULL: ErrorCode := 7
  const INTERNAL_ERROR: ErrorCode := 8

  datatype ErrorMessage = ErrorMessage(code: ErrorCode, diagnostic: seq<byte>)

  const CLIENT_MAGIC: seq<byte> := [0x52, 0x41, 0x42, 0x31]

  function EncodeClientHello(h: ClientHello): Frame {
    Frame(CLIENT_HELLO, 0, 0, CLIENT_MAGIC + Le16(h.major) + Le16(h.minor) + Le32(h.scriptVersion))
  }

  function DecodeClientHello(f: Frame): Option<ClientHello> {
    if f.kind != CLIENT_HELLO || !ValidFrame(f) then None
    else if |f.payload| != 12 || f.payload[..4] != CLIENT_MAGIC then None
    else Some(ClientHello(U16(f.payload[4..6]), U16(f.payload[6..8]), U32(f.payload[8..12])))
  }

  function StatusByte(s: HelloStatus): byte {
    if s == Accepted then 0 else 1
  }

  function EncodeServerHello(h: ServerHello): Frame {
    Frame(SERVER_HELLO, 0, 0,
          [StatusByte(h.status), 0] + Le16(h.major) + Le16(h.minor)
          + Le16(h.appMajor) + Le16(h.appMinor) + Le16(h.appPatch))
  }

  function DecodeServerHello(f: Frame): Option<ServerHello> {
    if f.kind != SERVER_HELLO || !ValidFrame(f) then None
    else if |f.payload| != 12 || f.payload[1] != 0 then None
    else if f.payload[0] > 1 then None
    else Some(ServerHello(if f.payload[0] == 0 then Accepted else Rejected,
                          U16(f.payload[2..4]), U16(f.payload[4..6]),
                          U16(f.payload[6..8]), U16(f.payload[8..10]), U16(f.payload[10..12])))
  }

  function EncodeReadRequest(requestId: u32, r: ReadRequest): Frame {
    Frame(READ_REQUEST, 0, requestId, Le32(r.address) + Le32(r.size))
  }

  function DecodeReadRequest(f: Frame): Option<ReadRequest> {
    if f.kind != READ_REQUEST || !ValidFrame(f) then None
    else if |f.payload| != 8 then None
    else Some(ReadRequest(U32(f.payload[..4]), U32(f.payload[4..8])))
  }

  function TryEncodeWriteRequest(requestId: u32, r: WriteRequest): Option<Frame> {
    if |r.data| > MAX_BODY - BODY_HEADER_SIZE - 8 then None
    else
      var f := Frame(WRITE_REQUEST, 0, requestId, Le32(r.address) + Le32(|r.data|) + r.data);
      if ValidFrame(f) then Some(f) else None
  }

  function DecodeWriteRequest(f: Frame): Option<WriteRequest> {
    if f.kind != WRITE_REQUEST || !ValidFrame(f) then None
    else if |f.payload| < 8 then None
    else if U32(f.payload[4..8]) != |f.payload| - 8 then None
    else Some(WriteRequest(U32(f.payload[..4]), f.payload[8..]))
  }

  ghost function TryEncodeError(requestId: u32, m: ErrorMessage): Option<Frame> {
    if |m.diagnostic| > MAX_DIAGNOSTIC || !Utf8.Utf8Octets(m.diagnostic) then None
    else Some(Frame(ERROR, 0, requestId, Le16(m.code) + Le16(|m.diagnostic|) + m.diagnostic))
  }

  ghost function DecodeErrorMessage(f: Frame): Option<ErrorMessage> {
    if f.kind != ERROR || !ValidFrame(f) then None
    else if |f.payload| < 4 then None
    else
      var code, size := U16(f.payload[..2]), U16(f.payload[2..4]);
      if size != |f.payload| - 4 || size > MAX_DIAGNOSTIC then None
      else if !Utf8.Utf8Octets(f.payload[4..]) then None
      else if !(1 <= code <= 8) then None
      else Some(ErrorMessage(code, f.payload[4..]))
  }

  /** `TryEncodeError`. */
  method EncodeErrorMessage(requestId: u32, m: ErrorMessage) returns (f: Option<Frame>)
    ensures f == TryEncodeError(requestId, m)
  {
    if |m.diagnostic| > MAX_DIAGNOSTIC {
      return None;
    }
    var text := Utf8.IsValidUtf8(m.diagnostic);
    if !text {
      return None;
    }
    return Some(Frame(ERROR, 0, requestId, Le16(m.code) + Le16(|m.diagnostic|) + m.diagnostic));
  }

  /** `DecodeErrorMessage`. */
  method ReadErrorMessage(f: Frame) returns (m: Option<ErrorMessage>)
    ensures m == DecodeErrorMessage(f)
  {
    if f.kind != ERROR || !ValidFrame(f) || |f.payload| < 4 {
      return None;
    }
    var code, size := U16(f.payload[..2]), U16(f.payload[2..4]);
    if size != |f.payload| - 4 || size > MAX_DIAGNOSTIC {
      return None;
    }
    var text := Utf8.IsValidUtf8(f.payload[4..]);
    if !text || code < 1 || code > 8 {
      return None;
    }
    return Some(ErrorMessage(code, f.payload[4..]));
  }

  const CLOSE_FRAME: Frame := Frame(CLOSE, 0, 0, [])

  /** A frame decodes as a ClientHello exactly when it is that hello's encoding. */
  lemma ClientHelloBijection(f: Frame, h: ClientHello)
    ensures DecodeClientHello(f) == Some(h) <==> f == EncodeClientHello(h)
  {
    var p := EncodeClientHello(h).payload;
    assert p[..4] == CLIENT_MAGIC && p[4..6] == Le16(h.major) && p[6..8] == Le16(h.minor)
        && p[8..12] == Le32(h.scriptVersion);
    Le16Bijection(h.major, p[4..6]);
    Le16Bijection(h.minor, p[6..8]);
    Le32Bijection(h.scriptVersion, p[8..12]);
    if DecodeClientHello(f) == Some(h) {
      var q := f.payload;
      Le16Bijection(h.major, q[4..6]);
      Le16Bijection(h.minor, q[6..8]);
      Le32Bijection(h.scriptVersion, q[8..12]);
      assert q == q[..4] + q[4..6] + q[6..8] + q[8..12];
    }
  }

  lemma ServerHelloDecodes(h: ServerHello)
    ensures DecodeServerHello(EncodeServerHello(h)) == Some(h)
  {
    var p := EncodeServerHello(h).payload;
    assert p[2..4] == Le16(h.major) && p[4..6] == Le16(h.minor) && p[6..8] == Le16(h.appMajor)
        && p[8..10] == Le16(h.appMinor) && p[10..12] == Le16(h.appPatch);
    ServerFields(p, h);
  }

  lemma ServerHelloEncodes(f: Frame, h: ServerHello)
    requires DecodeServerHello(f) == Some(h)
    ensures f == EncodeServerHello(h)
  {
    var q := f.payload;
    ServerFields(q, h);
    assert q == [q[0], q[1]] + q[2..4] + q[4..6] + q[6..8] + q[8..10] + q[10..12];
  }

  /** A frame decodes as a ServerHello exactly when it is that hello's encoding. */
  lemma ServerHelloBijection(f: Frame, h: ServerHello)
    ensures DecodeServerHello(f) == Some(h) <==> f == EncodeServerHello(h)
  {
    ServerHelloDecodes(h);
    if DecodeServerHello(f) == Some(h) {
      ServerHelloEncodes(f, h);
    }
  }

  lemma ServerFields(p: seq<byte>, h: ServerHello)
    requires |p| == 12
    ensures U16(p[2..4]) == h.major <==> p[2..4] == Le16(h.major)
    ensures U16(p[4..6]) == h.minor <==> p[4..6] == Le16(h.minor)
    ensures U16(p[6..8]) == h.appMajor <==> p[6..8] == Le16(h.appMajor)
    ensures U16(p[8..10]) == h.appMinor <==> p[8..10] == Le16(h.appMinor)
    ensures U16(p[10..12]) == h.appPatch <==> p[10..12] == Le16(h.appPatch)
  {
    Le16Bijection(h.major, p[2..4]);
    Le16Bijection(h.minor, p[4..6]);
    Le16Bijection(h.appMajor, p[6..8]);
    Le16Bijection(h.appMinor, p[8..10]);
    Le16Bijection(h.appPatch, p[10..12]);
  }

  /** A frame decodes as a read request exactly when it is a valid encoding of that request. */
  lemma ReadRequestBijection(f: Frame, r: ReadRequest)
    ensures DecodeReadRequest(f) == Some(r) <==> f == EncodeReadRequest(f.requestId, r) && f.requestId != 0
  {
    var p := EncodeReadRequest(f.requestId, r).payload;
    assert p[..4] == Le32(r.address) && p[4..8] == Le32(r.size);
    Le32Bijection(r.address, p[..4]);
    Le32Bijection(r.size, p[4..8]);
    if DecodeReadRequest(f) == Some(r) {
      Le32Bijection(r.address, f.payload[..4]);
      Le32Bijection(r.size, f.payload[4..8]);
      assert f.payload == f.payload[..4] + f.payload[4..8];
    }
  }

  /** A frame decodes as a write request exactly when the encoder produces it for that request. */
  lemma WriteRequestBijection(f: Frame, r: WriteRequest)
    ensures DecodeWriteRequest(f) == Some(r) <==> TryEncodeWriteRequest(f.requestId, r) == Some(f)
  {
    if TryEncodeWriteRequest(f.requestId, r) == Some(f) {
      var p := f.payload;
      assert p[..4] == Le32(r.address) && p[4..8] == Le32(|r.data|) && p[8..] == r.data;
      Le32Bijection(r.address, p[..4]);
      Le32Bijection(|r.data|, p[4..8]);
    }
    if DecodeWriteRequest(f) == Some(r) {
      Le32Bijection(r.address, f.payload[..4]);
      Le32Bijection(|r.data|, f.payload[4..8]);
      assert f.payload == f.payload[..4] + f.payload[4..8] + f.payload[8..];
    }
  }

  /** A frame decodes as an error exactly when the encoder produces it for that message. */
  lemma ErrorMessageBijection(f: Frame, m: ErrorMessage)
    ensures DecodeErrorMessage(f) == Some(m) <==> TryEncodeError(f.requestId, m) == Some(f)
  {
    if TryEncodeError(f.requestId, m) == Some(f) {
      var p := f.payload;
      assert p[..2] == Le16(m.code) && p[2..4] == Le16(|m.diagnostic|) && p[4..] == m.diagnostic;
      Le16Bijection(m.code, p[..2]);
      Le16Bijection(|m.diagnostic|, p[2..4]);
    }
    if DecodeErrorMessage(f) == Some(m) {
      Le16Bijection(m.code, f.payload[..2]);
      Le16Bijection(|m.diagnostic|, f.payload[2..4]);
      assert f.payload == f.payload[..2] + f.payload[2..4] + f.payload[4..];
    }
  }
}
