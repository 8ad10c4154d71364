/** The script's end of the bridge: handshake, request checks, the operation queue and the send queue. */
module LuaScript {
  import opened Bytes
  import opened Frames
  import opened FrameDecoding
  import opened FrameWriting
  import opened GameMemory

  const MAX_OPERATIONS_PER_FRAME: nat := 64
  const MAX_IO_BYTES_PER_FRAME: nat := 256 * 1024

  datatype Phase = Offline | AwaitingHello | Online | Closing

  /** A queued memory operation; `parts` is the concatenation of what was read so far. */
  datatype Job = Job(
    operation: Operation, requestId: u32, address: u32, size: nat, data: seq<byte>,
    offset: nat, parts: seq<byte>, failed: bool, response: Option<Frame>)

  datatype Script = Script(phase: Phase, decoder: Decoder, jobs: seq<Job>, jobBytes: nat, outgoing: Writer)

  const OFFLINE: Script := Script(Offline, EMPTY_DECODER, [], 0, EMPTY_WRITER)
  const SCRIPT_HELLO: Frame := EncodeClientHello(ClientHello(PROTOCOL_MAJOR, PROTOCOL_MINOR, SCRIPT_VERSION))

  // ----- Well-formed states

  function TotalJobSize(jobs: seq<Job>): nat {
    if jobs == [] then 0 else jobs[0].size + TotalJobSize(jobs[1..])
  }

  lemma {:induction false} TotalJobSizeSnoc(jobs: seq<Job>, j: Job)
    ensures TotalJobSize(jobs + [j]) == TotalJobSize(jobs) + j.size
  {
    if jobs == [] {
      assert [j][1..] == [];
    } else {
      TotalJobSizeSnoc(jobs[1..], j);
      assert (jobs + [j])[1..] == jobs[1..] + [j];
    }
  }

  function ResponseOf(j: Job): Frame {
    if j.failed then ScriptError(j.requestId, INTERNAL_ERROR, FailureText(j.operation))
    else if j.operation == Read then Frame(READ_RESULT, 0, j.requestId, j.parts)
    else Frame(WRITE_RESULT, 0, j.requestId, [])
  }

  predicate Finished(j: Job) {
    j.failed || j.offset == j.size
  }

  predicate ValidJob(j: Job) {
    && j.requestId != 0
    && 0 < j.size <= MAX_BODY - BODY_HEADER_SIZE
    && j.address + j.size <= U32_LIMIT
    && j.offset <= j.size
    && (j.operation == Write ==> |j.data| == j.size)
    && (j.operation == Read && !j.failed ==> |j.parts| == j.offset)
    && j.response == if Finished(j) then Some(ResponseOf(j)) else None
  }

  lemma ResponsesAreValidFrames(j: Job)
    requires ValidJob(j)
    ensures ValidFrame(ResponseOf(j))
  {
  }

  ghost predicate ValidScript(s: Script) {
    && ValidDecoder(s.decoder) && ValidWriter(s.outgoing)
    && (forall j {:trigger ValidJob(j)} :: j in s.jobs ==> ValidJob(j))
    && |s.jobs| <= MAX_QUEUED_FRAMES
    && s.jobBytes == TotalJobSize(s.jobs) <= MAX_QUEUED_BYTES
  }

  // ----- Sending

  function FailureText(operation: Operation): seq<byte> {
    if operation == Read then Ascii("mGBA could not read the requested memory")
    else Ascii("mGBA could not write the requested memory")
  }

  function DecoderText(e: DecodeError): seq<byte> {
    match e
    case NoError => []
    case BodyTooSmall => Ascii("bridge frame body is too short")
    case FrameTooLarge => Ascii("bridge frame body exceeds 1 MiB")
    case InvalidMessageType => Ascii("unknown bridge message type")
    case UnsupportedFlags => Ascii("bridge flags and reserved bytes must be zero")
    case NonzeroReserved => Ascii("bridge flags and reserved bytes must be zero")
    case InvalidRequestId => Ascii("invalid bridge request ID")
    case QueueOverflow => Ascii("bridge receive queue is full")
  }

  function Truncated(text: seq<byte>): seq<byte> {
    if |text| > MAX_DIAGNOSTIC then text[..MAX_DIAGNOSTIC] else text
  }

  /** `encodeError`. */
  function ScriptError(requestId: u32, code: ErrorCode, text: seq<byte>): Frame {
    Frame(ERROR, 0, requestId, Le16(code) + Le16(|Truncated(text)|) + Truncated(text))
  }

  /** A frame is queued, or the connection fails because the queue is full. */
  function SendOrFail(s: Script, f: Frame): Script {
    if Queues(s.outgoing, f) then s.(outgoing := AfterQueue(s.outgoing, f)) else OFFLINE
  }

  /** `beginProtocolClose`: an error, then a close. */
  function ProtocolClose(s: Script, text: seq<byte>): Script {
    var e := ScriptError(0, MALFORMED_FRAME, text);
    if !Queues(s.outgoing, e) then OFFLINE
    else if !Queues(AfterQueue(s.outgoing, e), CLOSE_FRAME) then OFFLINE
    else s.(outgoing := AfterQueue(AfterQueue(s.outgoing, e), CLOSE_FRAME), phase := Closing)
  }

  // ----- Receiving

  predicate HasJobRoom(s: Script, size: nat) {
    |s.jobs| < MAX_QUEUED_FRAMES && s.jobBytes + size <= MAX_QUEUED_BYTES
  }

  function NewJob(operation: Operation, requestId: u32, address: u32, size: nat, data: seq<byte>): Job {
    Job(operation, requestId, address, size, data, 0, [], false, None)
  }

  function Enqueue(s: Script, j: Job): Script {
    if HasJobRoom(s, j.size) then s.(jobs := s.jobs + [j], jobBytes := s.jobBytes + j.size)
    else SendOrFail(s, ScriptError(j.requestId, QUEUE_FULL, Ascii("mGBA operation queue is full")))
  }

  /** What is wrong with the payload of a ServerHello. */
  function HelloProblem(payload: seq<byte>): Option<seq<byte>> {
    if |payload| != 12 then Some(Ascii("invalid ServerHello payload"))
    else if payload[1] != 0 then Some(Ascii("invalid ServerHello reserved byte"))
    else None
  }

  predicate HelloAccepts(payload: seq<byte>)
    requires HelloProblem(payload) == None
  {
    payload[0] == 0 && U16(payload[2..4]) == PROTOCOL_MAJOR && U16(payload[4..6]) == PROTOCOL_MINOR
  }

  function HelloArrives(s: Script, payload: seq<byte>): Script {
    match HelloProblem(payload)
    case Some(text) => ProtocolClose(s, text)
    case None => s.(phase := if HelloAccepts(payload) then Online else Closing)
  }

  function RefusalText(operation: Operation, code: ErrorCode): seq<byte> {
    if operation == Read then
      if code == INVALID_SIZE then Ascii("read is too large") else Ascii("read address is outside GBA memory")
    else
      if code == INVALID_SIZE then Ascii("write byte count does not match payload")
      else Ascii("write address is outside EWRAM/IWRAM")
  }

  function RequestArrives(s: Script, operation: Operation, f: Frame): Script
    requires f.kind == if operation == Read then READ_REQUEST else WRITE_REQUEST
  {
    match Judge(f)
    case Malformed =>
      ProtocolClose(s, if operation == Read then Ascii("invalid ReadRequest payload")
                       else Ascii("invalid WriteRequest payload"))
    case Refused(code) => SendOrFail(s, ScriptError(f.requestId, code, RefusalText(operation, code)))
    case Accepted(address, size, data) => Enqueue(s, NewJob(operation, f.requestId, address, size, data))
  }

  /** What is wrong with the payload of an Error. */
  function ErrorProblem(payload: seq<byte>): Option<seq<byte>> {
    if |payload| < 4 then Some(Ascii("invalid Error payload"))
    else
      var size := U16(payload[2..4]);
      if size != |payload| - 4 || size > MAX_DIAGNOSTIC then Some(Ascii("invalid Error diagnostic length")) else None
  }

  function ErrorArrives(s: Script, f: Frame): Script {
    match ErrorProblem(f.payload)
    case Some(text) => ProtocolClose(s, text)
    case None => if f.requestId == 0 then s.(phase := Closing) else s
  }

  /** `processIncomingFrame`. */
  function FrameArrives(s: Script, f: Frame): Script {
    if s.phase == AwaitingHello then
      if f.kind != SERVER_HELLO || f.requestId != 0 then ProtocolClose(s, Ascii("expected ServerHello"))
      else HelloArrives(s, f.payload)
    else if f.kind == ERROR then ErrorArrives(s, f)
    else if f.kind == CLOSE && f.requestId == 0 && f.payload == [] then
      var t := SendOrFail(s, CLOSE_FRAME);
      if t == OFFLINE then t else t.(phase := Closing)
    else if s.phase != Online then ProtocolClose(s, Ascii("unexpected message before bridge handshake"))
    else if f.kind == READ_REQUEST then RequestArrives(s, Read, f)
    else if f.kind == WRITE_REQUEST then RequestArrives(s, Write, f)
    else ProtocolClose(s, Ascii("unexpected bridge message from Emerald Rogue Assistant"))
  }

  function FramesArrive(s: Script, fs: seq<Frame>): Script
    decreases |fs|
  {
    if fs == [] || s.phase == Offline then s else FramesArrive(FrameArrives(s, fs[0]), fs[1..])
  }

  /** `processReceivedBytes`. */
  function BytesArrive(s: Script, bytes: seq<byte>): Script
    requires ValidDecoder(s.decoder)
  {
    var d := Feed(s.decoder, bytes);
    if d.error != NoError then ProtocolClose(s.(decoder := d), DecoderText(d.error))
    else FramesArrive(s.(decoder := Polled(d)), d.frames)
  }

  // ----- Working on memory

  /** One call into the emulator under `pcall`: a failing write may have written some of its bytes. */
  datatype EmulatorCall = Works | Fails(applied: nat)

  function Respond(j: Job): Job {
    if Finished(j) then j.(response := Some(ResponseOf(j))) else j
  }

  function JobMemory(j: Job, memory: seq<byte>, count: nat, call: EmulatorCall): (m: seq<byte>)
    requires ValidJob(j) && |memory| == U32_LIMIT && j.offset + count <= j.size
    ensures |m| == U32_LIMIT
  {
    if j.operation == Read then memory
    else
      var written: nat := if call.Works? then count else Min(call.applied, count);
      Patch(memory, j.address + j.offset, j.data[j.offset..j.offset + written])
  }

  function JobNext(j: Job, memory: seq<byte>, count: nat, call: EmulatorCall): (r: Job)
    requires ValidJob(j) && !Finished(j) && |memory| == U32_LIMIT && j.offset + count <= j.size
    ensures ValidJob(r)
  {
    var at: nat := j.address + j.offset;
    if call.Fails? then Respond(j.(failed := true, offset := j.offset + count))
    else if j.operation == Read then Respond(j.(parts := j.parts + memory[at..at + count], offset := j.offset + count))
    else Respond(j.(offset := j.offset + count))
  }

  /** A response leaves the operation queue for the send queue. */
  function ResponseQueued(s: Script): Script
    requires s.jobs != [] && s.jobs[0].response.Some?
  {
    s.(outgoing := AfterQueue(s.outgoing, s.jobs[0].response.value),
       jobs := s.jobs[1..],
       jobBytes := if s.jobBytes < s.jobs[0].size then 0 else s.jobBytes - s.jobs[0].size)
  }

  /** When there is room for the response of the first operation, and what is then queued. */
  lemma ResponseCanQueue(s: Script)
    requires ValidScript(s) && s.jobs != [] && s.jobs[0].response.Some?
    ensures var j := s.jobs[0];
            && ValidFrame(j.response.value) && j.size <= s.jobBytes
            && (CanQueue(s.outgoing, WireSize(j.response.value)) <==> Queues(s.outgoing, j.response.value))
            && (Queues(s.outgoing, j.response.value) ==> ValidScript(ResponseQueued(s)))
  {
    var j := s.jobs[0];
    assert j in s.jobs;
    ResponsesAreValidFrames(j);
    if Queues(s.outgoing, j.response.value) {
      ResponseQueuedIsValid(s);
    }
  }

  /** The loop of `processOperations`: the state, the memory, and what this call has done so far. */
  datatype Work = Work(script: Script, memory: seq<byte>, operations: nat, bytes: nat, calls: seq<EmulatorCall>)

  ghost predicate ValidWork(w: Work) {
    && ValidScript(w.script) && |w.memory| == U32_LIMIT
    && w.operations <= MAX_OPERATIONS_PER_FRAME && w.bytes <= MAX_IO_BYTES_PER_FRAME
  }

  predicate Continues(w: Work) {
    && w.script.jobs != [] && w.operations < MAX_OPERATIONS_PER_FRAME
    && match w.script.jobs[0].response
       case Some(f) => Queues(w.script.outgoing, f)
       case None => w.bytes < MAX_IO_BYTES_PER_FRAME
  }

  function NextCall(calls: seq<EmulatorCall>): EmulatorCall {
    if calls == [] then Works else calls[0]
  }

  function ChunkSize(w: Work): (count: nat)
    requires w.script.jobs != [] && ValidJob(w.script.jobs[0]) && w.bytes <= MAX_IO_BYTES_PER_FRAME
    ensures w.script.jobs[0].offset + count <= w.script.jobs[0].size && w.bytes + count <= MAX_IO_BYTES_PER_FRAME
  {
    Min(w.script.jobs[0].size - w.script.jobs[0].offset, MAX_IO_BYTES_PER_FRAME - w.bytes)
  }

  /** One turn of the loop. */
  ghost function WorkNext(w: Work): (r: Work)
    requires ValidWork(w) && Continues(w)
    ensures ValidWork(r)
    ensures w.operations + w.bytes < r.operations + r.bytes
  {
    var j := w.script.jobs[0];
    assert j in w.script.jobs;
    if j.response.Some? then
      ResponseQueuedIsValid(w.script);
      w.(script := ResponseQueued(w.script), operations := w.operations + 1)
    else
      var count, call := ChunkSize(w), NextCall(w.calls);
      HeadReplacedIsValid(w.script, JobNext(j, w.memory, count, call));
      Work(HeadReplaced(w.script, JobNext(j, w.memory, count, call)), JobMemory(j, w.memory, count, call),
           w.operations, w.bytes + count, if w.calls == [] then [] else w.calls[1..])
  }

  lemma AnswerTurn(w: Work)
    requires ValidWork(w) && w.script.jobs != [] && w.operations < MAX_OPERATIONS_PER_FRAME
    requires w.script.jobs[0].response.Some?
    ensures Continues(w) <==> Queues(w.script.outgoing, w.script.jobs[0].response.value)
    ensures Continues(w) ==> WorkNext(w) == w.(script := ResponseQueued(w.script), operations := w.operations + 1)
  {
  }

  lemma ChunkTurn(w: Work)
    requires ValidWork(w) && w.script.jobs != [] && w.operations < MAX_OPERATIONS_PER_FRAME
    requires w.script.jobs[0].response.None? && w.bytes < MAX_IO_BYTES_PER_FRAME
    ensures var j, call := w.script.jobs[0], NextCall(w.calls);
            && Continues(w) && ValidJob(j) && !Finished(j)
            && var count := ChunkSize(w);
            && WorkNext(w) == Work(HeadReplaced(w.script, JobNext(j, w.memory, count, call)),
                                   JobMemory(j, w.memory, count, call), w.operations, w.bytes + count,
                                   if w.calls == [] then [] else w.calls[1..])
  {
    assert w.script.jobs[0] in w.script.jobs;
  }

  /** The whole loop. */
  ghost function RunJobs(w: Work): (r: Work)
    requires ValidWork(w)
    ensures ValidWork(r) && !Continues(r)
    decreases MAX_OPERATIONS_PER_FRAME + MAX_IO_BYTES_PER_FRAME - w.operations - w.bytes
  {
    if Continues(w) then RunJobs(WorkNext(w)) else w
  }

  function HeadReplaced(s: Script, j: Job): Script
    requires s.jobs != []
  {
    s.(jobs := [j] + s.jobs[1..])
  }

  lemma HeadReplacedIsValid(s: Script, j: Job)
    requires ValidScript(s) && s.jobs != [] && ValidJob(j) && j.size == s.jobs[0].size
    ensures ValidScript(HeadReplaced(s, j))
  {
    var t := HeadReplaced(s, j);
    assert t.jobs[1..] == s.jobs[1..];
    assert forall k :: k in t.jobs ==> k == j || k in s.jobs;
  }

  lemma ResponseQueuedIsValid(s: Script)
    requires ValidScript(s) && s.jobs != [] && s.jobs[0].response.Some?
    requires Queues(s.outgoing, s.jobs[0].response.value)
    ensures ValidScript(ResponseQueued(s))
  {
    QueuedUnsent(s.outgoing, Encode(s.jobs[0].response.value));
    assert forall k :: k in s.jobs[1..] ==> k in s.jobs;
  }

  lemma OfflineIsValid()
    ensures ValidScript(OFFLINE)
  {
  }

  lemma SendOrFailIsValid(s: Script, f: Frame)
    requires ValidScript(s)
    ensures ValidScript(SendOrFail(s, f))
  {
    OfflineIsValid();
    if Queues(s.outgoing, f) {
      QueuedUnsent(s.outgoing, Encode(f));
    }
  }

  lemma ProtocolCloseIsValid(s: Script, text: seq<byte>)
    requires ValidScript(s)
    ensures ValidScript(ProtocolClose(s, text))
  {
    OfflineIsValid();
    var e := ScriptError(0, MALFORMED_FRAME, text);
    SendOrFailIsValid(s, e);
    if Queues(s.outgoing, e) {
      SendOrFailIsValid(s.(outgoing := AfterQueue(s.outgoing, e)), CLOSE_FRAME);
    }
  }

  lemma EnqueueIsValid(s: Script, j: Job)
    requires ValidScript(s) && ValidJob(j)
    ensures ValidScript(Enqueue(s, j))
  {
    if HasJobRoom(s, j.size) {
      TotalJobSizeSnoc(s.jobs, j);
    } else {
      SendOrFailIsValid(s, ScriptError(j.requestId, QUEUE_FULL, Ascii("mGBA operation queue is full")));
    }
  }

  lemma RequestArrivesIsValid(s: Script, operation: Operation, f: Frame)
    requires ValidScript(s) && ValidFrame(f)
    requires f.kind == if operation == Read then READ_REQUEST else WRITE_REQUEST
    ensures ValidScript(RequestArrives(s, operation, f))
  {
    match Judge(f)
    case Malformed =>
      ProtocolCloseIsValid(s, if operation == Read then Ascii("invalid ReadRequest payload")
                              else Ascii("invalid WriteRequest payload"));
    case Refused(code) => SendOrFailIsValid(s, ScriptError(f.requestId, code, RefusalText(operation, code)));
    case Accepted(address, size, data) => EnqueueIsValid(s, NewJob(operation, f.requestId, address, size, data));
  }

  lemma HelloArrivesIsValid(s: Script, payload: seq<byte>)
    requires ValidScript(s)
    ensures ValidScript(HelloArrives(s, payload))
  {
    match HelloProblem(payload)
    case Some(text) => ProtocolCloseIsValid(s, text);
    case None =>
  }

  lemma ErrorArrivesIsValid(s: Script, f: Frame)
    requires ValidScript(s)
    ensures ValidScript(ErrorArrives(s, f))
  {
    match ErrorProblem(f.payload)
    case Some(text) => ProtocolCloseIsValid(s, text);
    case None =>
  }

  /** Every frame, in every phase, leaves the queues within their limits. */
  lemma FrameArrivesIsValid(s: Script, f: Frame)
    requires ValidScript(s) && ValidFrame(f)
    ensures ValidScript(FrameArrives(s, f))
  {
    if s.phase == AwaitingHello {
      if f.kind != SERVER_HELLO || f.requestId != 0 {
        ProtocolCloseIsValid(s, Ascii("expected ServerHello"));
      } else {
        HelloArrivesIsValid(s, f.payload);
      }
    } else if f.kind == ERROR {
      ErrorArrivesIsValid(s, f);
    } else if f.kind == CLOSE && f.requestId == 0 && f.payload == [] {
      SendOrFailIsValid(s, CLOSE_FRAME);
    } else if s.phase != Online {
      ProtocolCloseIsValid(s, Ascii("unexpected message before bridge handshake"));
    } else if f.kind == READ_REQUEST {
      RequestArrivesIsValid(s, Read, f);
    } else if f.kind == WRITE_REQUEST {
      RequestArrivesIsValid(s, Write, f);
    } else {
      ProtocolCloseIsValid(s, Ascii("unexpected bridge message from Emerald Rogue Assistant"));
    }
  }

  lemma {:induction false} FramesArriveIsValid(s: Script, fs: seq<Frame>)
    requires ValidScript(s) && AllValid(fs)
    ensures ValidScript(FramesArrive(s, fs))
    decreases |fs|
  {
    if fs != [] && s.phase != Offline {
      FrameArrivesIsValid(s, fs[0]);
      FramesArriveIsValid(FrameArrives(s, fs[0]), fs[1..]);
    }
  }

  lemma BytesArriveIsValid(s: Script, bytes: seq<byte>)
    requires ValidScript(s)
    ensures ValidScript(BytesArrive(s, bytes))
  {
    var d := Feed(s.decoder, bytes);
    if d.error != NoError {
      ProtocolCloseIsValid(s.(decoder := d), DecoderText(d.error));
    } else {
      FramesArriveIsValid(s.(decoder := Polled(d)), d.frames);
    }
  }
}
