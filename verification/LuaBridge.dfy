/** The script's state table and the functions that update it, against the specification in LuaScript. */
module LuaBridge {
  import opened Bytes
  import opened Frames
  import opened FrameDecoding
  import opened FrameWriting
  import opened GameMemory
  import opened LuaScript

  function AfterFlush(s: Script, left: Writer, last: Option<SendOutcome>): Script {
    if last == Some(Broken) then OFFLINE else s.(outgoing := left)
  }

  /** `flushOutgoing` sends what the socket takes, and fails exactly if an attempt does. */
  ghost predicate IsFlushed(before: Script, outcomes: seq<SendOutcome>, sent: seq<byte>, after: Script)
    requires ValidScript(before)
  {
    exists left, last :: && Flushes(before.outgoing, MAX_IO_BYTES_PER_FRAME, outcomes, Flush(sent, left, last))
                         && after == AfterFlush(before, left, last)
  }

  lemma FlushedIsValid(s: Script, outcomes: seq<SendOutcome>, sent: seq<byte>, left: Writer, last: Option<SendOutcome>)
    requires ValidScript(s) && Flushes(s.outgoing, MAX_IO_BYTES_PER_FRAME, outcomes, Flush(sent, left, last))
    ensures ValidScript(AfterFlush(s, left, last)) && IsFlushed(s, outcomes, sent, AfterFlush(s, left, last))
  {
    FlushLosesNothing(s.outgoing, MAX_IO_BYTES_PER_FRAME, outcomes, Flush(sent, left, last));
  }

  class Bridge {
    var phase: Phase
    var decoder: Decoder
    var jobs: seq<Job>
    var jobBytes: nat
    var outgoing: Writer
    const emulator: Emulator

    function State(): Script
      reads this
    {
      Script(phase, decoder, jobs, jobBytes, outgoing)
    }

    ghost predicate Valid()
      reads this
    {
      ValidScript(State())
    }

    /** `newState` followed by `connect`: the greeting is queued. */
    constructor (emulator: Emulator)
      ensures Valid() && this.emulator == emulator
      ensures State() == Script(AwaitingHello, EMPTY_DECODER, [], 0, AfterQueue(EMPTY_WRITER, SCRIPT_HELLO))
    {
      QueuedUnsent(EMPTY_WRITER, Encode(SCRIPT_HELLO));
      phase, decoder, jobs, jobBytes := AwaitingHello, EMPTY_DECODER, [], 0;
      outgoing := AfterQueue(EMPTY_WRITER, SCRIPT_HELLO);
      this.emulator := emulator;
    }

    method FailConnection()
      modifies this
      ensures State() == OFFLINE
    {
      phase, decoder, jobs, jobBytes, outgoing := Offline, EMPTY_DECODER, [], 0, EMPTY_WRITER;
    }

    /** `queueFrame`, which encodes and calls `queueWire`. */
    method QueueFrame(f: Frame) returns (ok: bool)
      modifies this
      ensures ok <==> Queues(old(outgoing), f)
      ensures State() == old(State()).(outgoing := AfterQueue(old(outgoing), f))
    {
      var wire := ScriptEncode(f.kind, f.requestId, f.payload);
      if wire.None? || f.flags != 0 {
        return false;
      }
      EncodersAgree(f);
      if |outgoing.wires| >= MAX_QUEUED_FRAMES || outgoing.queuedBytes + |wire.value| > MAX_QUEUED_BYTES {
        return false;
      }
      outgoing := Queued(outgoing, wire.value);
      return true;
    }

    method BeginProtocolClose(text: seq<byte>)
      modifies this
      ensures State() == ProtocolClose(old(State()), text)
    {
      var queued := QueueFrame(ScriptError(0, MALFORMED_FRAME, text));
      if queued {
        queued := QueueFrame(CLOSE_FRAME);
      }
      if !queued {
        FailConnection();
        return;
      }
      phase := Closing;
    }

    method EnqueueOperation(j: Job) returns (ok: bool)
      modifies this
      ensures Enqueue(old(State()), j) == if ok then State() else OFFLINE
    {
      if |jobs| >= MAX_QUEUED_FRAMES || jobBytes + j.size > MAX_QUEUED_BYTES {
        ok := QueueFrame(ScriptError(j.requestId, QUEUE_FULL, Ascii("mGBA operation queue is full")));
        return ok;
      }
      jobs := jobs + [j];
      jobBytes := jobBytes + j.size;
      return true;
    }

    method ProcessServerHello(payload: seq<byte>)
      modifies this
      ensures State() == HelloArrives(old(State()), payload)
    {
      if |payload| != 12 {
        BeginProtocolClose(Ascii("invalid ServerHello payload"));
        return;
      }
      var status, reserved, major, minor := payload[0], payload[1], U16(payload[2..4]), U16(payload[4..6]);
      if reserved != 0 {
        BeginProtocolClose(Ascii("invalid ServerHello reserved byte"));
        return;
      }
      if status != 0 || major != PROTOCOL_MAJOR || minor != PROTOCOL_MINOR {
        phase := Closing;
        return;
      }
      phase := Online;
    }

    /** Queues an error for one request, or fails the connection. */
    method RefuseRequest(requestId: u32, code: ErrorCode, text: seq<byte>)
      modifies this
      ensures State() == SendOrFail(old(State()), ScriptError(requestId, code, text))
    {
      var queued := QueueFrame(ScriptError(requestId, code, text));
      if !queued {
        FailConnection();
      }
    }

    method ProcessReadRequest(f: Frame)
      requires f.kind == READ_REQUEST
      modifies this
      ensures State() == RequestArrives(old(State()), Read, f)
    {
      if |f.payload| != 8 {
        BeginProtocolClose(Ascii("invalid ReadRequest payload"));
        return;
      }
      var address, size := U32(f.payload[..4]), U32(f.payload[4..8]);
      if size > MAX_BODY - 8 {
        RefuseRequest(f.requestId, INVALID_SIZE, Ascii("read is too large"));
      } else if !ScriptIsRangeAllowed(address, size, READABLE) {
        RefuseRequest(f.requestId, INVALID_ADDRESS, Ascii("read address is outside GBA memory"));
      } else {
        var queued := EnqueueOperation(NewJob(Read, f.requestId, address, size, []));
        if !queued {
          FailConnection();
        }
      }
    }

    method ProcessWriteRequest(f: Frame)
      requires f.kind == WRITE_REQUEST
      modifies this
      ensures State() == RequestArrives(old(State()), Write, f)
    {
      if |f.payload| < 8 {
        BeginProtocolClose(Ascii("invalid WriteRequest payload"));
        return;
      }
      var address, size := U32(f.payload[..4]), U32(f.payload[4..8]);
      var data := f.payload[8..];
      if size != |data| || size == 0 {
        RefuseRequest(f.requestId, INVALID_SIZE, Ascii("write byte count does not match payload"));
      } else if !ScriptIsRangeAllowed(address, size, WRITABLE) {
        RefuseRequest(f.requestId, INVALID_ADDRESS, Ascii("write address is outside EWRAM/IWRAM"));
      } else {
        var queued := EnqueueOperation(NewJob(Write, f.requestId, address, size, data));
        if !queued {
          FailConnection();
        }
      }
    }

    method ProcessIncomingFrame(f: Frame)
      modifies this
      ensures State() == FrameArrives(old(State()), f)
    {
      if phase == AwaitingHello {
        if f.kind != SERVER_HELLO || f.requestId != 0 {
          BeginProtocolClose(Ascii("expected ServerHello"));
          return;
        }
        ProcessServerHello(f.payload);
        return;
      }
      if f.kind == ERROR {
        var problem := ErrorProblem(f.payload);
        if problem.Some? {
          BeginProtocolClose(problem.value);
          return;
        }
        if f.requestId == 0 {
          phase := Closing;
        }
        return;
      }
      if f.kind == CLOSE && f.requestId == 0 && f.payload == [] {
        var queued := QueueFrame(CLOSE_FRAME);
        if !queued {
          FailConnection();
          return;
        }
        phase := Closing;
        return;
      }
      if phase != Online {
        BeginProtocolClose(Ascii("unexpected message before bridge handshake"));
        return;
      }
      if f.kind == READ_REQUEST {
        ProcessReadRequest(f);
        return;
      }
      if f.kind == WRITE_REQUEST {
        ProcessWriteRequest(f);
        return;
      }
      BeginProtocolClose(Ascii("unexpected bridge message from Emerald Rogue Assistant"));
    }

    method ProcessReceivedBytes(bytes: seq<byte>)
      requires Valid()
      modifies this
      ensures Valid() && State() == BytesArrive(old(State()), bytes)
    {
      BytesArriveIsValid(State(), bytes);
      var fed := Feed(decoder, bytes);
      decoder := fed;
      if fed.error != NoError {
        BeginProtocolClose(DecoderText(fed.error));
        return;
      }
      decoder := Polled(fed);
      ProcessFrames(fed.frames);
    }

    method ProcessFrames(frames: seq<Frame>)
      modifies this
      ensures State() == FramesArrive(old(State()), frames)
    {
      var index := 0;
      while index < |frames|
        invariant index <= |frames|
        invariant FramesArrive(old(State()), frames) == FramesArrive(State(), frames[index..])
      {
        if phase == Offline {
          return;
        }
        assert frames[index..][1..] == frames[index + 1..];
        ProcessIncomingFrame(frames[index]);
        index := index + 1;
      }
    }

    /** `processOperations`: a bounded amount of work, and the state and memory that `RunJobs` says. */
    method ProcessOperations(calls: seq<EmulatorCall>) returns (operationsProcessed: nat, bytesProcessed: nat)
      requires Valid() && |emulator.memory| == U32_LIMIT
      modifies this, emulator
      ensures Valid() && |emulator.memory| == U32_LIMIT
      ensures operationsProcessed <= MAX_OPERATIONS_PER_FRAME && bytesProcessed <= MAX_IO_BYTES_PER_FRAME
      ensures old(phase) != Online ==> State() == old(State()) && emulator.memory == old(emulator.memory)
      ensures old(phase) == Online ==>
                var end := RunJobs(Work(old(State()), old(emulator.memory), 0, 0, calls));
                State() == end.script && emulator.memory == end.memory
    {
      operationsProcessed, bytesProcessed := 0, 0;
      if phase != Online {
        return;
      }
      ghost var start := Work(State(), emulator.memory, 0, 0, calls);
      ghost var here := start;
      var rest := calls;
      var more := true;
      while more && jobs != [] && operationsProcessed < MAX_OPERATIONS_PER_FRAME
        invariant here == Work(State(), emulator.memory, operationsProcessed, bytesProcessed, rest)
        invariant ValidWork(here) && RunJobs(here) == RunJobs(start)
        invariant !more ==> !Continues(here)
        decreases more, MAX_OPERATIONS_PER_FRAME - operationsProcessed + MAX_IO_BYTES_PER_FRAME - bytesProcessed
      {
        more, operationsProcessed, bytesProcessed, rest := WorkOnce(operationsProcessed, bytesProcessed, rest);
        if more {
          here := WorkNext(here);
        }
      }
    }

    /** The body of the loop; `more` is false where the script returns. */
    method WorkOnce(operationsProcessed: nat, bytesProcessed: nat, calls: seq<EmulatorCall>)
      returns (more: bool, operations: nat, bytes: nat, rest: seq<EmulatorCall>)
      requires ValidWork(Work(State(), emulator.memory, operationsProcessed, bytesProcessed, calls))
      requires jobs != [] && operationsProcessed < MAX_OPERATIONS_PER_FRAME
      modifies this, emulator
      ensures var before := Work(old(State()), old(emulator.memory), operationsProcessed, bytesProcessed, calls);
              && more == Continues(before)
              && Work(State(), emulator.memory, operations, bytes, rest) == if more then WorkNext(before) else before
    {
      operations, bytes, rest := operationsProcessed, bytesProcessed, calls;
      ghost var before := Work(State(), emulator.memory, operations, bytes, calls);
      if jobs[0].response.Some? {
        AnswerTurn(before);
        more := SendResponse();
        operations := if more then operations + 1 else operations;
      } else if bytes >= MAX_IO_BYTES_PER_FRAME {
        more := false;
      } else {
        more := true;
        bytes, rest := WorkChunk(operations, bytes, rest);
      }
    }

    method WorkChunk(ghost operations: nat, bytesProcessed: nat, calls: seq<EmulatorCall>)
      returns (bytes: nat, rest: seq<EmulatorCall>)
      requires ValidWork(Work(State(), emulator.memory, operations, bytesProcessed, calls))
      requires jobs != [] && operations < MAX_OPERATIONS_PER_FRAME
      requires jobs[0].response.None? && bytesProcessed < MAX_IO_BYTES_PER_FRAME
      modifies this, emulator
      ensures Work(State(), emulator.memory, operations, bytes, rest)
           == WorkNext(Work(old(State()), old(emulator.memory), operations, bytesProcessed, calls))
    {
      ChunkTurn(Work(State(), emulator.memory, operations, bytesProcessed, calls));
      var count: nat := Min(jobs[0].size - jobs[0].offset, MAX_IO_BYTES_PER_FRAME - bytesProcessed);
      AdvanceHead(count, NextCall(calls));
      bytes, rest := bytesProcessed + count, if calls == [] then [] else calls[1..];
    }

    /** Moves the first operation's response to the send queue when there is room. */
    method SendResponse() returns (queued: bool)
      requires Valid() && jobs != [] && jobs[0].response.Some?
      modifies this
      ensures Valid()
      ensures queued <==> Queues(old(outgoing), old(jobs[0]).response.value)
      ensures State() == if queued then ResponseQueued(old(State())) else old(State())
    {
      var operation := jobs[0];
      ResponseCanQueue(State());
      if !CanQueue(outgoing, WireSize(operation.response.value)) {
        return false;
      }
      outgoing := Queued(outgoing, Encode(operation.response.value));
      jobBytes := jobBytes - operation.size;
      jobs := jobs[1..];
      return true;
    }

    /** Prepares the response of the first operation once it is finished. */
    method FinishChunk(operation: Job)
      requires jobs != []
      modifies this`jobs
      ensures State() == HeadReplaced(old(State()), Respond(operation))
    {
      if operation.failed || operation.offset == operation.size {
        jobs := [operation.(response := Some(ResponseOf(operation)))] + jobs[1..];
      } else {
        jobs := [operation] + jobs[1..];
      }
    }

    /** Reads or writes `count` bytes for the first operation. */
    method AdvanceHead(count: nat, call: EmulatorCall)
      requires |emulator.memory| == U32_LIMIT
      requires jobs != [] && ValidJob(jobs[0]) && !Finished(jobs[0]) && jobs[0].offset + count <= jobs[0].size
      modifies this`jobs, emulator
      ensures State() == HeadReplaced(old(State()), JobNext(old(jobs[0]), old(emulator.memory), count, call))
      ensures emulator.memory == JobMemory(old(jobs[0]), old(emulator.memory), count, call)
    {
      if jobs[0].operation == Read {
        ReadChunk(count, call);
      } else {
        WriteChunk(count, call);
      }
    }

    method ReadChunk(count: nat, call: EmulatorCall)
      requires |emulator.memory| == U32_LIMIT
      requires jobs != [] && ValidJob(jobs[0]) && !Finished(jobs[0]) && jobs[0].offset + count <= jobs[0].size
      requires jobs[0].operation == Read
      modifies this`jobs
      ensures State() == HeadReplaced(old(State()), JobNext(old(jobs[0]), emulator.memory, count, call))
    {
      var operation := jobs[0];
      if call.Works? {
        var at: nat := operation.address + operation.offset;
        operation := operation.(parts := operation.parts + emulator.memory[at..at + count]);
      } else {
        operation := operation.(failed := true);
      }
      FinishChunk(operation.(offset := operation.offset + count));
    }

    method WriteChunk(count: nat, call: EmulatorCall)
      requires |emulator.memory| == U32_LIMIT
      requires jobs != [] && ValidJob(jobs[0]) && !Finished(jobs[0]) && jobs[0].offset + count <= jobs[0].size
      requires jobs[0].operation == Write
      modifies this`jobs, emulator
      ensures State() == HeadReplaced(old(State()), JobNext(old(jobs[0]), old(emulator.memory), count, call))
      ensures emulator.memory == JobMemory(old(jobs[0]), old(emulator.memory), count, call)
    {
      var operation := jobs[0];
      PutBytes(operation, count, call);
      if call.Fails? {
        operation := operation.(failed := true);
      }
      FinishChunk(operation.(offset := operation.offset + count));
    }

    /** The bytes of a write that the emulator takes. */
    method PutBytes(operation: Job, count: nat, call: EmulatorCall)
      requires |emulator.memory| == U32_LIMIT && operation.operation == Write
      requires ValidJob(operation) && operation.offset + count <= operation.size
      modifies emulator
      ensures emulator.memory == JobMemory(operation, old(emulator.memory), count, call)
    {
      var written: nat := if call.Works? then count else Min(call.applied, count);
      emulator.WriteAligned(operation.address, operation.data, operation.offset + 1, written);
    }

    /** `flushOutgoing`: hands bytes to the socket in order, at most 256 KiB, and keeps what was not taken. */
    method FlushOutgoing(outcomes: seq<SendOutcome>) returns (sent: seq<byte>)
      requires Valid() && phase != Offline
      modifies this
      ensures Valid() && IsFlushed(old(State()), outcomes, sent, State())
    {
      var left, last;
      left, sent, last := SendPending(outgoing, MAX_IO_BYTES_PER_FRAME, outcomes);
      FlushedIsValid(State(), outcomes, sent, left, last);
      outgoing := left;
      if last == Some(Broken) {
        FailConnection();
      }
    }
  }
}
