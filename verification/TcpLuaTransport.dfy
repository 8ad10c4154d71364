/** The app's end of the bridge: its fields and methods, against the rules for values in TransportRules. */
module TcpLuaTransport {
  import opened Bags
  import opened Bytes
  import opened Frames
  import opened FrameDecoding
  import opened FrameWriting
  import opened GameMemory
  import opened TransportRules

  const MAX_ACCEPTS_PER_POLL: nat := 8

  class TcpLuaTransport {
    var state: TransportState
    var client: Option<Peer>
    var pending: map<u32, PendingRequest>
    var results: seq<MemoryResult>
    const version: AppVersion
    ghost var ledger: Ledger

    function State(): Transport
      reads this
    {
      Transport(state, client, pending, results)
    }

    ghost predicate Valid()
      reads this
    {
      ValidTransport(State()) && Conserved(State(), ledger)
    }

    /** Nothing was accepted or handed out since `l`; at most results were added. */
    ghost predicate SameBooks(l: Ledger)
      reads this
    {
      Conserved(State(), ledger) && ledger == l.(answers := ledger.answers) && |l.answers| <= |ledger.answers|
    }

    constructor (version: AppVersion)
      ensures Valid() && State() == NEW_TRANSPORT && this.version == version
      ensures ledger == Ledger(multiset{}, multiset{}, [], multiset{})
    {
      state, client, pending, results := Listening, None, map[], [];
      this.version := version;
      ledger := Ledger(multiset{}, multiset{}, [], multiset{});
    }

    method Submit(request: MemoryRequest) returns (ok: bool)
      requires Valid()
      modifies this
      ensures Valid()
      ensures ok <==> CanSubmit(old(State()), request)
      ensures State() == if ok then Submitted(old(State()), request) else old(State())
      ensures ledger == if ok then Owing(old(ledger), request) else old(ledger)
    {
      if state != Connected || client.None? || !client.value.handshakeAccepted || client.value.closeAfterWrite
         || request.id in pending {
        return false;
      }
      var validation := ValidateMemoryRequest(request);
      var frame := RequestFrame(request);
      if validation != Ok || frame.None? {
        AnswerAtOnce(request, if validation != Ok then validation else InvalidSize);
        return true;
      }
      if !Queues(client.value.writer, frame.value) {
        return false;
      }
      Send(request, frame.value);
      return true;
    }

    /** A request that does not reach the wire. */
    method AnswerAtOnce(request: MemoryRequest, status: Status)
      requires Valid() && CanSubmit(State(), request) && Refusal(request) == Some(status)
      modifies this`results, this`ledger
      ensures Valid() && State() == Submitted(old(State()), request) && ledger == Owing(old(ledger), request)
    {
      SubmittedIsValid(State(), request);
      SubmittedConserves(State(), request, ledger);
      results := results + [MemoryResult(request.id, status, [])];
      ledger := Owing(ledger, request);
    }

    method Send(request: MemoryRequest, frame: Frame)
      requires Valid() && CanSubmit(State(), request) && Refusal(request).None? && RequestFrame(request) == Some(frame)
      modifies this`client, this`pending, this`ledger
      ensures Valid() && State() == Submitted(old(State()), request) && ledger == Owing(old(ledger), request)
    {
      SubmittedIsValid(State(), request);
      SubmittedConserves(State(), request, ledger);
      client := Some(client.value.(writer := AfterQueue(client.value.writer, frame)));
      pending := pending[request.id := RequestOf(request)];
      ledger := Owing(ledger, request);
    }

    /** `CompletePending`: every pending request gets the status, in the order of the hash table. */
    method CompletePending(status: Status) returns (ghost order: seq<u32>)
      requires status != Ok && Conserved(State(), ledger)
      modifies this`pending, this`results, this`ledger
      ensures Settles(Turn(old(State()), Some(status)), order, State())
      ensures SameBooks(old(ledger))
    {
      order := [];
      var left := pending;
      while left != map[]
        invariant pending == old(pending) && ledger == old(ledger) && left.Keys <= pending.Keys
        invariant Lists(order, pending.Keys - left.Keys)
        invariant results == old(results) + Abandoned(order, status)
        decreases |left|
      {
        var id :| id in left;
        results := results + [MemoryResult(id, status, [])];
        order := order + [id];
        left := left - {id};
      }
      SettledConserves(Turn(old(State()), Some(status)), order, ledger);
      ledger := ledger.(answers := ledger.answers + Entries(order, pending));
      pending := map[];
    }

    method CloseClient(status: Status) returns (ghost order: seq<u32>)
      requires status != Ok && Conserved(State(), ledger)
      modifies this`pending, this`results, this`ledger, this`client, this`state
      ensures Settles(Turn(Dropped(old(State())).t, Some(status)), order, State())
      ensures SameBooks(old(ledger))
    {
      order := CompletePending(status);
      client := None;
      if state != Stopped {
        state := Listening;
      }
    }

    method BeginProtocolClose(code: ErrorCode, text: seq<byte>) returns (ghost order: seq<u32>)
      requires client.Some? && Conserved(State(), ledger)
      modifies this`pending, this`results, this`ledger, this`client, this`state
      ensures Settles(ProtocolClosed(old(State()), code, text), order, State())
      ensures SameBooks(old(ledger))
    {
      var error := EncodeErrorMessage(0, ErrorMessage(code, text));
      var w := client.value.writer;
      var queued := error.Some? && Queues(w, error.value);
      if queued {
        w := AfterQueue(w, error.value);
        queued := Queues(w, CLOSE_FRAME);
        w := AfterQueue(w, CLOSE_FRAME);
      }
      client := Some(Peer(client.value.decoder, w, false, true));
      state := Listening;
      order := CompletePending(Status.ProtocolError);
      if !queued {
        ghost var none := CloseClient(Status.ProtocolError);
        assert none == [];
      }
    }

    method BeginOrderlyClose() returns (ghost order: seq<u32>)
      requires client.Some? && Conserved(State(), ledger)
      modifies this`pending, this`results, this`ledger, this`client, this`state
      ensures Settles(OrderlyClosed(old(State())), order, State())
      ensures SameBooks(old(ledger))
    {
      var queued := Queues(client.value.writer, CLOSE_FRAME);
      client := Some(Closing(client.value.(writer := AfterQueue(client.value.writer, CLOSE_FRAME))));
      state := Listening;
      order := CompletePending(Status.Disconnected);
      if !queued {
        ghost var none := CloseClient(Status.Disconnected);
        assert none == [];
      }
    }

    method ProcessHello(frame: Frame, text: seq<byte>) returns (ghost order: seq<u32>)
      requires client.Some? && Conserved(State(), ledger)
      modifies this
      ensures Settles(HelloArrives(old(State()), frame, version, text), order, State())
      ensures SameBooks(old(ledger))
    {
      order := [];
      var hello := DecodeClientHello(frame);
      if hello.None? {
        order := BeginProtocolClose(MALFORMED_FRAME, text);
        return;
      }
      if hello.value != ClientHello(PROTOCOL_MAJOR, PROTOCOL_MINOR, SCRIPT_VERSION) {
        client := Some(client.value.(writer := AfterQueue(client.value.writer, Reply(Rejected, version))));
        order := BeginProtocolClose(UNSUPPORTED_PROTOCOL, text);
        return;
      }
      var reply := Reply(HelloStatus.Accepted, version);
      if !Queues(client.value.writer, reply) {
        order := CloseClient(Status.Disconnected);
        return;
      }
      client := Some(client.value.(writer := AfterQueue(client.value.writer, reply), handshakeAccepted := true));
      state := Connected;
    }

    /** A result frame for a pending request, or for none. */
    method ProcessResult(frame: Frame, text: seq<byte>) returns (ghost order: seq<u32>)
      requires client.Some? && Conserved(State(), ledger)
      requires frame.kind == READ_RESULT || frame.kind == WRITE_RESULT
      modifies this
      ensures var before := old(State());
              Settles(if IsAnswer(before, frame) then Turn(Answered(before, frame.requestId, Ok, frame.payload), None)
                      else ProtocolClosed(before, INVALID_REQUEST_ID, text), order, State())
      ensures SameBooks(old(ledger))
    {
      order := [];
      if !IsAnswer(State(), frame) {
        order := BeginProtocolClose(INVALID_REQUEST_ID, text);
        return;
      }
      AnsweredConserves(State(), frame.requestId, Ok, frame.payload, ledger);
      ledger := ledger.(answers := ledger.answers + [(frame.requestId, pending[frame.requestId])]);
      results := results + [MemoryResult(frame.requestId, Ok, frame.payload)];
      pending := pending - {frame.requestId};
    }

    method ProcessError(frame: Frame, text: seq<byte>) returns (ghost order: seq<u32>)
      requires client.Some? && Conserved(State(), ledger)
      modifies this
      ensures Settles(ErrorArrives(old(State()), frame, text), order, State())
      ensures SameBooks(old(ledger))
    {
      order := [];
      var message := ReadErrorMessage(frame);
      if message.None? || frame.requestId == 0 || frame.requestId !in pending {
        order := BeginProtocolClose(MALFORMED_FRAME, text);
        return;
      }
      var status := ToMemoryStatus(message.value.code);
      AnsweredConserves(State(), frame.requestId, status, [], ledger);
      ledger := ledger.(answers := ledger.answers + [(frame.requestId, pending[frame.requestId])]);
      results := results + [MemoryResult(frame.requestId, status, [])];
      pending := pending - {frame.requestId};
      client := Some(Closing(client.value.(writer := AfterQueue(client.value.writer, CLOSE_FRAME))));
      state := Listening;
      order := CompletePending(Status.Disconnected);
    }

    method ProcessFrame(frame: Frame, text: seq<byte>) returns (ghost order: seq<u32>)
      requires client.Some? && Conserved(State(), ledger)
      modifies this
      ensures Settles(FrameArrives(old(State()), frame, version, text), order, State())
      ensures SameBooks(old(ledger))
    {
      if !client.value.handshakeAccepted {
        order := ProcessHello(frame, text);
      } else if frame.kind == READ_RESULT || frame.kind == WRITE_RESULT {
        order := ProcessResult(frame, text);
      } else if frame.kind == ERROR {
        order := ProcessError(frame, text);
      } else if frame == CLOSE_FRAME {
        order := BeginOrderlyClose();
      } else {
        order := BeginProtocolClose(MALFORMED_FRAME, text);
      }
    }

    method ProcessFrames(frames: seq<Frame>, text: seq<byte>) returns (ghost order: seq<u32>)
      requires Valid() && !IsClosing(State())
      modifies this
      ensures Settles(FramesArrive(Turn(old(State()), None), frames, version, text), order, State())
      ensures Valid() && SameBooks(old(ledger))
    {
      order := [];
      ghost var turn := Turn(State(), None);
      var index := 0;
      while index < |frames|
        invariant index <= |frames|
        invariant IsSound(turn) && Valid() && SameBooks(old(ledger))
        invariant Settles(turn, order, State())
        invariant FramesArrive(Turn(old(State()), None), frames, version, text)
               == FramesArrive(turn, frames[index..], version, text)
      {
        if client.None? || client.value.closeAfterWrite {
          return;
        }
        FrameArrivesIsSound(turn.t, frames[index], version, text);
        assert frames[index..][1..] == frames[index + 1..];
        turn := FrameArrives(turn.t, frames[index], version, text);
        order := ProcessFrame(frames[index], text);
        index := index + 1;
      }
    }

    /** One received chunk: the decoder, then the frames that are complete. */
    method ReceiveChunk(bytes: seq<byte>, text: seq<byte>) returns (more: bool, ghost order: seq<u32>)
      requires Valid() && !IsClosing(State())
      modifies this
      ensures Settles(BytesArrive(old(State()), bytes, version, text), order, State())
      ensures Valid() && SameBooks(old(ledger))
      ensures more <==> !IsClosing(State())
      ensures more ==> BytesArrive(old(State()), bytes, version, text) == Turn(State(), None)
    {
      BytesArriveIsSound(State(), bytes, version, text);
      var decoder := Feed(client.value.decoder, bytes);
      if decoder.error != NoError {
        client := Some(client.value.(decoder := decoder));
        order := BeginProtocolClose(MALFORMED_FRAME, text);
        return false, order;
      }
      client := Some(client.value.(decoder := Polled(decoder)));
      order := ProcessFrames(decoder.frames, text);
      more := client.Some? && !client.value.closeAfterWrite;
    }

    /** `ReceiveClient`: takes bytes from the socket in chunks, until the connection closes, or 256 KiB are taken, or an
        attempt yields nothing. */
    method ReceiveClient(net: Network)
      returns (consumed: nat, ghost chunks: seq<seq<byte>>, gone: bool, ghost order: seq<u32>)
      requires Valid() && !IsClosing(State())
      modifies this
      ensures ReceivesAll(old(State()), net, version, chunks, gone) && consumed == |Flatten(chunks)|
      ensures Settles(Received(old(State()), chunks, gone, version, net.text), order, State())
      ensures Valid() && SameBooks(old(ledger))
    {
      consumed, chunks, gone := ReceiveChunks(net);
      order :| Took(old(State()), chunks, version, net.text, order, State());
      if gone {
        order := CloseClient(Status.Disconnected);
      }
    }

    /** The loop; the peer may then be found to be gone. */
    method ReceiveChunks(net: Network) returns (consumed: nat, ghost chunks: seq<seq<byte>>, gone: bool)
      requires Valid() && !IsClosing(State())
      modifies this
      ensures ReceivesAll(old(State()), net, version, chunks, gone) && consumed == |Flatten(chunks)|
      ensures HasTaken(old(State()), chunks, version, net.text, State())
      ensures gone ==> !IsClosing(State())
      ensures Valid() && SameBooks(old(ledger))
    {
      consumed, chunks, gone := 0, [], false;
      var rest, more := net.receives, true;
      NothingIsTaken(State(), version, net.text);
      while more && consumed < MAX_IO_BYTES_PER_POLL
        invariant AreChunks(old(State()), net, version, chunks) && consumed == |Flatten(chunks)|
        invariant rest == if |chunks| <= |net.receives| then net.receives[|chunks|..] else []
        invariant HasTaken(old(State()), chunks, version, net.text, State())
        invariant more <==> !IsClosing(State())
        invariant Valid() && SameBooks(old(ledger)) && !gone
        decreases more, MAX_IO_BYTES_PER_POLL - consumed
      {
        var available := Min(RECEIVE_CHUNK_SIZE, MAX_IO_BYTES_PER_POLL - consumed);
        var outcome := if rest == [] then NothingYet else rest[0];
        rest := if rest == [] then [] else rest[1..];
        assert outcome == Attempt(net.receives, |chunks|);
        var taken: nat := if outcome.Bytes? then Min(outcome.count, Min(available, |net.incoming| - consumed)) else 0;
        if taken == 0 {
          gone := outcome.PeerGone?;
          TakenIsOpen(old(State()), chunks, version, net.text, State());
          return;
        }
        var chunk := net.incoming[consumed..consumed + taken];
        more := ReceiveNext(net, chunk, old(State()), chunks);
        chunks := chunks + [chunk];
        consumed := consumed + taken;
      }
      TakenIsClosing(old(State()), chunks, version, net.text, State());
    }

    /** One turn of the loop: the next chunk, after those of `chunks`. */
    method ReceiveNext(net: Network, chunk: seq<byte>, ghost start: Transport, ghost chunks: seq<seq<byte>>)
      returns (more: bool)
      requires Valid() && !IsClosing(State()) && ValidTransport(start) && !IsClosing(start)
      requires AreChunks(start, net, version, chunks) && IsNextChunk(net, chunks, chunk)
      requires HasTaken(start, chunks, version, net.text, State())
      modifies this
      ensures AreChunks(start, net, version, chunks + [chunk])
      ensures |Flatten(chunks + [chunk])| == |Flatten(chunks)| + |chunk|
      ensures HasTaken(start, chunks + [chunk], version, net.text, State())
      ensures more <==> !IsClosing(State())
      ensures Valid() && SameBooks(old(ledger))
    {
      ChunkIsTaken(start, net, version, chunks, chunk, State());
      ghost var order;
      more, order := ReceiveChunk(chunk, net.text);
      OneMoreTaken(start, chunks, chunk, version, net.text, old(State()), order, State());
    }

    /** `AcceptClients`: the first connection becomes the client, at most eight are looked at. */
    method AcceptClients(arrivals: nat)
      requires Valid() && state != Stopped
      modifies this`client
      ensures Valid() && State() == AfterAccepting(old(State()), arrivals)
    {
      var accepted := 0;
      while accepted < MAX_ACCEPTS_PER_POLL
        invariant accepted <= MAX_ACCEPTS_PER_POLL
        invariant Valid() && State() == AfterAccepting(old(State()), Min(accepted, arrivals))
      {
        if accepted >= arrivals {
          return;
        }
        if client.None? {
          client := Some(NEW_PEER);
        }
        accepted := accepted + 1;
      }
    }

    /** `FlushClient`: sends at most 256 KiB from the front of the queue. */
    method FlushClient(outcomes: seq<SendOutcome>) returns (sent: seq<byte>, ghost order: seq<u32>)
      requires Valid() && client.Some?
      modifies this
      ensures FlushEffect(old(State()), outcomes, sent, order, State())
      ensures Valid() && SameBooks(old(ledger))
      ensures state == Stopped <==> old(state) == Stopped
    {
      var left, last;
      left, sent, last := SendPending(client.value.writer, MAX_IO_BYTES_PER_POLL, outcomes);
      FlushLosesNothing(client.value.writer, MAX_IO_BYTES_PER_POLL, outcomes, Flush(sent, left, last));
      client := Some(client.value.(writer := left));
      order := EndFlush(last, old(State()));
    }

    /** What follows the sending loop. */
    method EndFlush(last: Option<SendOutcome>, ghost before: Transport) returns (ghost order: seq<u32>)
      requires Valid() && client.Some? && before.client.Some? && State() == WithWriter(before, client.value.writer)
      modifies this
      ensures EndOfFlush(before, old(client).value.writer, last, order, State())
      ensures Valid() && SameBooks(old(ledger))
      ensures state == Stopped <==> old(state) == Stopped
    {
      order := [];
      if last.Some? {
        if !last.value.Again? {
          order := CloseClient(Status.Disconnected);
        }
      } else if client.value.closeAfterWrite && Unsent(client.value.writer) == [] {
        order := CloseClient(Status.Disconnected);
      }
    }

    /** `PollResults`: hands out every result, and keeps none. */
    method PollResults(net: Network)
      returns (handed: seq<MemoryResult>, consumed: nat, ghost poll: PollTrace, ghost tickets: seq<Ticket>)
      requires Valid()
      modifies this
      ensures PollEffect(old(State()), net, poll, version) && consumed == |Flatten(poll.chunks)|
      ensures Valid() && State() == poll.after.(results := []) && handed == poll.after.results
      ensures |tickets| == |handed| && forall i :: 0 <= i < |handed| ==> Fits(tickets[i], handed[i])
      ensures ledger.accepted == old(ledger).accepted && ledger.answers == []
      ensures ledger.delivered == old(ledger).delivered + multiset(tickets)
      ensures old(ledger).owed == ledger.owed + multiset(tickets) && |old(ledger).answers| <= |tickets|
    {
      consumed, poll := 0, NothingDone(State());
      if state != Stopped {
        consumed, poll := Exchange(net);
      }
      handed, tickets := TakeResults();
    }

    method TakeResults() returns (handed: seq<MemoryResult>, ghost tickets: seq<Ticket>)
      requires Valid()
      modifies this`results, this`ledger
      ensures Valid() && results == [] && handed == old(results) && |tickets| == |handed|
      ensures forall i :: 0 <= i < |handed| ==> Fits(tickets[i], handed[i])
      ensures ledger.accepted == old(ledger).accepted && ledger.answers == []
      ensures ledger.delivered == old(ledger).delivered + multiset(tickets)
      ensures old(ledger).owed == ledger.owed + multiset(tickets)
      ensures tickets == old(ledger).answers
    {
      HandedOutConserves(State(), ledger);
      handed, tickets := results, ledger.answers;
      results := [];
      ledger := HandedOut(ledger);
    }

    /** What a poll does before it hands out the results. */
    method Exchange(net: Network) returns (consumed: nat, ghost poll: PollTrace)
      requires Valid() && state != Stopped
      modifies this
      ensures Valid() && SameBooks(old(ledger))
      ensures PollEffect(old(State()), net, poll, version) && consumed == |Flatten(poll.chunks)|
      ensures poll.after == State()
    {
      AcceptClients(net.arrivals);
      consumed, poll := 0, NothingDone(State());
      if client.Some? {
        consumed, poll := ReceiveAndFlush(net);
      }
    }

    method ReceiveAndFlush(net: Network) returns (consumed: nat, ghost poll: PollTrace)
      requires Valid() && client.Some?
      modifies this
      ensures Valid() && SameBooks(old(ledger)) && consumed == |Flatten(poll.chunks)| && poll.after == State()
      ensures ReceiveEffect(old(State()), net, poll, version) && ValidTransport(poll.afterReceive)
      ensures if poll.afterReceive.client.None? then poll.sent == [] && State() == poll.afterReceive
              else FlushEffect(poll.afterReceive, net.sends, poll.sent, poll.secondOrder, State())
    {
      consumed, poll := 0, NothingDone(State());
      if !client.value.closeAfterWrite {
        ghost var chunks, order;
        var gone;
        consumed, chunks, gone, order := ReceiveClient(net);
        poll := poll.(chunks := chunks, gone := gone, firstOrder := order);
      }
      poll := poll.(afterReceive := State(), after := State());
      if client.Some? {
        ghost var order;
        var sent;
        sent, order := FlushClient(net.sends);
        poll := poll.(sent := sent, secondOrder := order, after := State());
      }
    }

    /** `Stop`: tells an open script at most a close, answers every pending request, and drops the client. */
    method Stop(turns: seq<seq<SendOutcome>>) returns (sent: seq<byte>, ghost order: seq<u32>)
      requires Valid()
      modifies this
      ensures Valid() && SameBooks(old(ledger))
      ensures old(state) == Stopped ==> State() == old(State()) && sent == []
      ensures old(state) != Stopped ==>
                Settles(Turn(old(State()).(client := None, state := Stopped), Some(Status.Disconnected)), order, State())
      ensures sent <= if IsOpen(old(State())) then Encode(CLOSE_FRAME) else []
    {
      sent, order := [], [];
      if state == Stopped {
        return;
      }
      sent, order := Disconnect(turns);
      DroppedThenStopped(old(State()), order, State());
      state := Stopped;
    }

    /** What a stop does before it marks the transport as stopped. */
    method Disconnect(turns: seq<seq<SendOutcome>>) returns (sent: seq<byte>, ghost order: seq<u32>)
      requires Valid() && state != Stopped
      modifies this
      ensures Conserved(State(), ledger) && SameBooks(old(ledger))
      ensures Settles(Dropped(old(State())), order, State())
      ensures sent <= if IsOpen(old(State())) then Encode(CLOSE_FRAME) else []
    {
      sent, order := [], [];
      if client.Some? && client.value.handshakeAccepted {
        sent, order := SayClose(turns);
      } else if client.None? {
        NothingToDrop(State());
      }
      if client.Some? || pending != map[] {
        order := CloseClient(Status.Disconnected);
      }
    }

    /** Replaces whatever is queued by a close, and tries to send it until the deadline. */
    method SayClose(turns: seq<seq<SendOutcome>>) returns (sent: seq<byte>, ghost order: seq<u32>)
      requires Valid() && IsOpen(State())
      modifies this
      ensures Valid() && SameBooks(old(ledger)) && sent <= Encode(CLOSE_FRAME)
      ensures client.Some? ==> State() == old(State()).(client := client)
      ensures client.None? ==> Settles(Dropped(old(State())), order, State())
    {
      QueuedUnsent(EMPTY_WRITER, Encode(CLOSE_FRAME));
      client := Some(client.value.(writer := AfterQueue(EMPTY_WRITER, CLOSE_FRAME)));
      assert [] + Encode(CLOSE_FRAME) == Encode(CLOSE_FRAME);
      sent, order := FlushRepeatedly(turns);
    }

    method FlushRepeatedly(turns: seq<seq<SendOutcome>>) returns (sent: seq<byte>, ghost order: seq<u32>)
      requires Valid() && IsOpen(State())
      modifies this
      ensures Valid() && SameBooks(old(ledger)) && sent <= Unsent(old(client).value.writer)
      ensures client.Some? ==> State() == old(State()).(client := client)
      ensures client.None? ==> Settles(Dropped(old(State())), order, State())
    {
      sent, order := [], [];
      ghost var all := Unsent(client.value.writer);
      var turn := 0;
      while turn < |turns| && client.Some? && Pending(client.value.writer) != []
        invariant turn <= |turns| && Valid() && SameBooks(old(ledger)) && sent <= all
        invariant client.Some? ==> && sent + Unsent(client.value.writer) == all
                                   && State() == WithWriter(old(State()), client.value.writer)
        invariant client.None? ==> Settles(Dropped(old(State())), order, State())
      {
        ghost var before := client.value.writer;
        var more;
        ghost var start := State();
        more, order := FlushClient(turns[turn]);
        FlushSends(start, turns[turn], more, order, State());
        Extend(all, sent, Unsent(before), more, if client.Some? then Unsent(client.value.writer) else []);
        sent := sent + more;
        turn := turn + 1;
      }
    }
  }

  lemma Extend(all: seq<byte>, sent: seq<byte>, left: seq<byte>, more: seq<byte>, after: seq<byte>)
    requires all == sent + left && more <= left
    ensures sent + more <= all
    ensures left == more + after ==> sent + more + after == all
  {
    assert left == more + left[|more|..];
    Associate(sent, more, left[|more|..]);
    Associate(sent, more, after);
  }
}
