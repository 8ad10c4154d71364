/** The script's end of one connection: its jobs, the memory, and what it makes of the frames that it hears. */
module BridgeScript {
  import opened Bytes
  import opened Frames
  import opened FrameWriting
  import opened GameMemory
  import opened TransportRules
  import opened BridgeHistory
  import opened BridgeLink
  import opened BridgeApp

  /** The requests that were heard, those of them that were accepted, what was done for those, how much of the next
      is written; how many answers were said, what was said after them, and the queue. */
  datatype ScriptLog = ScriptLog(
    seen: nat, accepted: seq<MemoryRequest>, done: seq<Done>, partial: nat, answered: nat, tail: seq<Frame>,
    queue: Writer)

  function TotalRequestSize(rs: seq<MemoryRequest>): nat {
    if rs == [] then 0 else RequestSize(rs[0]) + TotalRequestSize(rs[1..])
  }

  /** The queued jobs are those of `rs`, of which only the first may have begun. */
  predicate JobsMatch(jobs: seq<Lua.Job>, rs: seq<MemoryRequest>, base: seq<byte>, memory: seq<byte>, partial: nat)
    requires |base| == U32_LIMIT && AllSendable(rs)
  {
    && |jobs| == |rs|
    && (if jobs == [] then memory == base else IsJobOf(jobs[0], rs[0], base, memory, partial))
    && forall i :: 1 <= i < |jobs| ==> jobs[i] == FreshJob(rs[i])
  }

  /** What the log says is consistent. */
  predicate IsRecord(rs: seq<MemoryRequest>, log: ScriptLog)
    requires AllSendable(rs)
  {
    && log.seen <= |rs| && AllSendable(log.accepted) && IsSubsequence(log.accepted, rs[..log.seen])
    && AllDone(log.done) && |log.done| <= |log.accepted| && Requests(log.done) == log.accepted[..|log.done|]
    && BeginsWhole(log.done, rs, log.answered) && IsTail(log.tail)
  }

  function Waiting(log: ScriptLog): seq<MemoryRequest>
    requires |log.done| <= |log.accepted|
  {
    log.accepted[|log.done|..]
  }

  /** The jobs of a script that is online. */
  predicate AtWork(jobs: seq<Lua.Job>, memory: seq<byte>, start: seq<byte>, rs: seq<MemoryRequest>, log: ScriptLog)
    requires |start| == U32_LIMIT && AllSendable(rs) && IsRecord(rs, log)
  {
    && JobsMatch(jobs, Waiting(log), Effect(start, log.done), memory, log.partial)
    && (log.tail == [] ==> log.accepted == rs[..log.seen] && |log.done| == log.answered)
  }

  ghost predicate ScriptSide(s: Lua.Script, memory: seq<byte>, start: seq<byte>, rs: seq<MemoryRequest>, log: ScriptLog)
    requires |start| == U32_LIMIT && AllSendable(rs)
  {
    && IsRecord(rs, log)
    && (s.phase != Lua.Offline ==> s.outgoing == log.queue)
    && match s.phase
       case AwaitingHello => s.jobs == [] && log == ScriptLog(0, [], [], 0, 0, [], log.queue) && memory == start
       case Online => AtWork(s.jobs, memory, start, rs, log)
       case _ => memory == Effect(start, log.done)
  }

  // ----- Sizes

  lemma {:induction false} TotalConcat(a: seq<MemoryRequest>, b: seq<MemoryRequest>)
    ensures TotalRequestSize(a + b) == TotalRequestSize(a) + TotalRequestSize(b)
    decreases |a|
  {
    if a == [] {
      assert a + b == b;
    } else {
      TotalConcat(a[1..], b);
      assert (a + b)[1..] == a[1..] + b;
    }
  }

  lemma InThree<T>(s: seq<T>, i: nat, j: nat)
    requires i <= j <= |s|
    ensures s == s[..i] + s[i..j] + s[j..]
  {
  }

  lemma TotalSlice(rs: seq<MemoryRequest>, i: nat, j: nat)
    requires i <= j <= |rs|
    ensures TotalRequestSize(rs[i..j]) <= TotalRequestSize(rs)
  {
    TotalConcat(rs[..i] + rs[i..j], rs[j..]);
    TotalConcat(rs[..i], rs[i..j]);
    InThree(rs, i, j);
  }

  lemma TotalOne(r: MemoryRequest)
    ensures TotalRequestSize([r]) == RequestSize(r)
  {
    assert [r][1..] == [];
  }

  lemma {:induction false} JobSizes(jobs: seq<Lua.Job>, rs: seq<MemoryRequest>)
    requires |jobs| == |rs| && forall i :: 0 <= i < |jobs| ==> jobs[i].size == RequestSize(rs[i])
    ensures Lua.TotalJobSize(jobs) == TotalRequestSize(rs)
    decreases |jobs|
  {
    if jobs != [] {
      JobSizes(jobs[1..], rs[1..]);
    }
  }

  /** The script's count of bytes is that of the waiting requests. */
  lemma JobBytesAre(s: Lua.Script, rs: seq<MemoryRequest>, base: seq<byte>, memory: seq<byte>, partial: nat)
    requires |base| == U32_LIMIT && AllSendable(rs) && JobsMatch(s.jobs, rs, base, memory, partial)
    requires s.jobBytes == Lua.TotalJobSize(s.jobs)
    ensures |s.jobs| == |rs| && s.jobBytes == TotalRequestSize(rs)
  {
    forall i | 0 <= i < |s.jobs| ensures s.jobs[i].size == RequestSize(rs[i]) {
      assert i == 0 || s.jobs[i] == FreshJob(rs[i]);
    }
    JobSizes(s.jobs, rs);
  }

  // ----- A request arrives

  lemma RequestArrival(s: Lua.Script, r: MemoryRequest)
    requires s.phase == Lua.Online && Sendable(r)
    ensures Lua.FrameArrives(s, FrameOf(r))
         == if Lua.HasJobRoom(s, RequestSize(r))
            then s.(jobs := s.jobs + [FreshJob(r)], jobBytes := s.jobBytes + RequestSize(r))
            else Lua.SendOrFail(s, FullError(r.id))
  {
    RequestIsAccepted(r);
  }

  function FullError(id: u32): Frame {
    Lua.ScriptError(id, QUEUE_FULL, Ascii("mGBA operation queue is full"))
  }

  lemma JobsMatchSnoc(jobs: seq<Lua.Job>, rs: seq<MemoryRequest>, r: MemoryRequest, base: seq<byte>, memory: seq<byte>,
                      partial: nat) returns (p: nat)
    requires |base| == U32_LIMIT && AllSendable(rs) && Sendable(r) && JobsMatch(jobs, rs, base, memory, partial)
    ensures AllSendable(rs + [r]) && JobsMatch(jobs + [FreshJob(r)], rs + [r], base, memory, p)
  {
    FreshIsJob(r, base);
    p := if jobs == [] then 0 else partial;
  }

  lemma PrefixNext<T>(s: seq<T>, n: nat)
    requires n < |s|
    ensures s[..n + 1] == s[..n] + [s[n]]
  {
  }

  lemma AcceptedIsRecord(rs: seq<MemoryRequest>, log: ScriptLog)
    requires AllSendable(rs) && IsRecord(rs, log) && log.seen < |rs|
    ensures var r := rs[log.seen];
            && Sendable(r) && IsRecord(rs, log.(seen := log.seen + 1, accepted := log.accepted + [r]))
            && Waiting(log.(accepted := log.accepted + [r])) == Waiting(log) + [r]
  {
    PrefixNext(rs, log.seen);
    SubsequenceGrows(log.accepted, rs[..log.seen], rs[log.seen]);
    assert Requests(log.done) == (log.accepted + [rs[log.seen]])[..|log.done|];
  }

  lemma RefusedIsRecord(rs: seq<MemoryRequest>, log: ScriptLog, f: Frame)
    requires AllSendable(rs) && IsRecord(rs, log) && log.seen < |rs| && IsBreak(f)
    ensures IsRecord(rs, log.(seen := log.seen + 1, tail := log.tail + [f]))
  {
    PrefixNext(rs, log.seen);
    SubsequenceGrows(log.accepted, rs[..log.seen], rs[log.seen]);
  }

  lemma TailGrows(start: seq<byte>, rs: seq<MemoryRequest>, answered: nat, tail: seq<Frame>, more: seq<Frame>)
    requires |start| == U32_LIMIT && AllSendable(rs) && answered <= |rs|
    ensures ScriptSaid(start, rs, answered, tail + more) == ScriptSaid(start, rs, answered, tail) + more
  {
  }

  /** The script is leaving: what it was working on stays as it is. */
  function Halted(jobs: seq<Lua.Job>, log: ScriptLog): ScriptLog
    requires |log.done| <= |log.accepted|
  {
    if jobs == [] || Waiting(log) == [] then log else log.(done := log.done + [Done(Waiting(log)[0], log.partial)])
  }

  /** The next of the accepted requests is done. */
  lemma DoneIsRecord(rs: seq<MemoryRequest>, log: ScriptLog, next: Done)
    requires AllSendable(rs) && IsRecord(rs, log) && IsDone(next)
    requires Waiting(log) != [] && next.request == Waiting(log)[0]
    ensures IsRecord(rs, log.(done := log.done + [next])) && Waiting(log.(done := log.done + [next])) == Waiting(log)[1..]
  {
    assert next.request == log.accepted[|log.done|];
    RequestsNext(log.done, next);
    PrefixNext(log.accepted, |log.done|);
  }

  lemma DoneEffect(start: seq<byte>, rs: seq<MemoryRequest>, log: ScriptLog, written: nat)
    requires |start| == U32_LIMIT && AllSendable(rs) && IsRecord(rs, log)
    requires Waiting(log) != [] && written <= |Waiting(log)[0].data|
    ensures var next := Done(Waiting(log)[0], written);
            && IsDone(next) && IsRecord(rs, log.(done := log.done + [next]))
            && Effect(start, log.done + [next]) == PartlyApplied(Effect(start, log.done), next.request, written)
  {
    var next := Done(Waiting(log)[0], written);
    assert next.request in log.accepted && Sendable(next.request);
    DoneIsRecord(rs, log, next);
    EffectNext(start, log.done, next);
  }

  lemma HaltedIsRecord(jobs: seq<Lua.Job>, memory: seq<byte>, start: seq<byte>, rs: seq<MemoryRequest>, log: ScriptLog)
    requires |start| == U32_LIMIT && AllSendable(rs) && IsRecord(rs, log) && AtWork(jobs, memory, start, rs, log)
    ensures IsRecord(rs, Halted(jobs, log)) && memory == Effect(start, Halted(jobs, log).done)
    ensures Halted(jobs, log) == log.(done := Halted(jobs, log).done)
  {
    if jobs != [] {
      DoneEffect(start, rs, log, log.partial);
    }
  }

  lemma Accept(s: Lua.Script, memory: seq<byte>, start: seq<byte>, rs: seq<MemoryRequest>, log: ScriptLog)
    returns (g: ScriptLog)
    requires |start| == U32_LIMIT && AllSendable(rs) && ScriptSide(s, memory, start, rs, log)
    requires s.phase == Lua.Online && log.seen < |rs| && Lua.HasJobRoom(s, RequestSize(rs[log.seen]))
    ensures ScriptSide(Lua.FrameArrives(s, FrameOf(rs[log.seen])), memory, start, rs, g)
    ensures g == log.(seen := log.seen + 1, accepted := g.accepted, partial := g.partial)
    ensures var t := Lua.FrameArrives(s, FrameOf(rs[log.seen]));
            && t.phase == Lua.Online && t.decoder == s.decoder
            && (IsOrderly(s, log) ==> IsOrderly(t, g))
  {
    var r := rs[log.seen];
    RequestArrival(s, r);
    AcceptedIsRecord(rs, log);
    var p := JobsMatchSnoc(s.jobs, Waiting(log), r, Effect(start, log.done), memory, log.partial);
    g := log.(seen := log.seen + 1, accepted := log.accepted + [r], partial := p);
    PrefixNext(rs, log.seen);
  }

  /** A request is refused for want of room in the operation queue. */
  lemma Refuse(s: Lua.Script, memory: seq<byte>, start: seq<byte>, rs: seq<MemoryRequest>, log: ScriptLog)
    returns (g: ScriptLog, more: seq<Frame>)
    requires |start| == U32_LIMIT && AllSendable(rs) && ScriptSide(s, memory, start, rs, log)
    requires s.phase == Lua.Online && log.seen < |rs| && !Lua.HasJobRoom(s, RequestSize(rs[log.seen]))
    ensures ScriptSide(Lua.FrameArrives(s, FrameOf(rs[log.seen])), memory, start, rs, g)
    ensures g.answered == log.answered && g.tail == log.tail + more && Says(log.queue, more, g.queue)
    ensures var t := Lua.FrameArrives(s, FrameOf(rs[log.seen]));
            t.phase != Lua.Offline ==> g.seen == log.seen + 1 && t.decoder == s.decoder && t.phase == Lua.Online
  {
    var f := FullError(rs[log.seen].id);
    RequestArrival(s, rs[log.seen]);
    if Queues(s.outgoing, f) {
      RefusedIsRecord(rs, log, f);
      SaysOne(log.queue, f);
      g, more := log.(seen := log.seen + 1, tail := log.tail + [f], queue := AfterQueue(log.queue, f)), [f];
    } else {
      HaltedIsRecord(s.jobs, memory, start, rs, log);
      g, more := Halted(s.jobs, log), [];
    }
  }

  // ----- Closing

  /** `t` is a script that has left its work, and has said breaks only. */
  predicate Leaves(s: Lua.Script, t: Lua.Script, more: seq<Frame>) {
    && t.phase in {Lua.Closing, Lua.Offline}
    && (forall f {:trigger IsBreak(f)} :: f in more ==> IsBreak(f))
    && (if t.phase == Lua.Offline then more == [] else Says(s.outgoing, more, t.outgoing))
  }

  lemma ProtocolCloseLeaves(s: Lua.Script, text: seq<byte>) returns (more: seq<Frame>)
    ensures Leaves(s, Lua.ProtocolClose(s, text), more)
  {
    var e := Lua.ScriptError(0, MALFORMED_FRAME, text);
    more := [];
    if Queues(s.outgoing, e) && Queues(AfterQueue(s.outgoing, e), CLOSE_FRAME) {
      SaysTwo(s.outgoing, e, CLOSE_FRAME);
      more := [e, CLOSE_FRAME];
    }
  }

  lemma CloseFrameLeaves(s: Lua.Script, f: Frame) returns (more: seq<Frame>)
    requires s.phase in {Lua.Online, Lua.Closing} && f == Frame(CLOSE, f.flags, 0, [])
    ensures Leaves(s, Lua.FrameArrives(s, f), more)
  {
    more := [];
    if Queues(s.outgoing, CLOSE_FRAME) {
      SaysOne(s.outgoing, CLOSE_FRAME);
      more := [CLOSE_FRAME];
    }
  }

  lemma ErrorFrameLeaves(s: Lua.Script, f: Frame) returns (more: seq<Frame>)
    requires s.phase in {Lua.Online, Lua.Closing} && f.kind == ERROR && (f.requestId == 0 || s.phase == Lua.Closing)
    ensures Leaves(s, Lua.FrameArrives(s, f), more)
  {
    var problem := Lua.ErrorProblem(f.payload);
    more := [];
    if problem.Some? {
      more := ProtocolCloseLeaves(s, problem.value);
    }
  }

  /** A closer of the app makes any script leave, and any frame leaves a closing script closing. */
  lemma CloserLeaves(s: Lua.Script, f: Frame) returns (more: seq<Frame>)
    requires s.phase != Lua.Offline && (IsCloser(f) || s.phase == Lua.Closing)
    ensures Leaves(s, Lua.FrameArrives(s, f), more)
  {
    if s.phase == Lua.AwaitingHello {
      more := ProtocolCloseLeaves(s, Ascii("expected ServerHello"));
    } else if f.kind == ERROR {
      more := ErrorFrameLeaves(s, f);
    } else if f.kind == CLOSE && f.requestId == 0 && f.payload == [] {
      more := CloseFrameLeaves(s, f);
    } else {
      more := ProtocolCloseLeaves(s, if s.phase != Lua.Online then Ascii("unexpected message before bridge handshake")
                                     else Ascii("unexpected bridge message from Emerald Rogue Assistant"));
    }
  }

  /** The log of a script that leaves. */
  function LeftLog(s: Lua.Script, t: Lua.Script, more: seq<Frame>, log: ScriptLog): ScriptLog
    requires |log.done| <= |log.accepted|
  {
    (if s.phase == Lua.Online then Halted(s.jobs, log) else log)
      .(tail := log.tail + more, queue := if t.phase == Lua.Offline then log.queue else t.outgoing)
  }

  lemma LeavingIsRecord(s: Lua.Script, t: Lua.Script, more: seq<Frame>, memory: seq<byte>, start: seq<byte>,
                        rs: seq<MemoryRequest>, log: ScriptLog)
    requires |start| == U32_LIMIT && AllSendable(rs) && ScriptSide(s, memory, start, rs, log)
    requires s.phase != Lua.Offline && Leaves(s, t, more)
    ensures var g := LeftLog(s, t, more, log);
            && ScriptSide(t, memory, start, rs, g) && g.answered == log.answered && g.tail == log.tail + more
            && Says(log.queue, more, g.queue)
  {
    if s.phase == Lua.Online {
      HaltedIsRecord(s.jobs, memory, start, rs, log);
    }
    assert more != [] ==> IsBreak(more[0]);
  }

  lemma Leave(s: Lua.Script, f: Frame, memory: seq<byte>, start: seq<byte>, rs: seq<MemoryRequest>, log: ScriptLog)
    returns (g: ScriptLog, more: seq<Frame>)
    requires |start| == U32_LIMIT && AllSendable(rs) && ScriptSide(s, memory, start, rs, log)
    requires s.phase != Lua.Offline && (IsCloser(f) || s.phase == Lua.Closing)
    ensures ScriptSide(Lua.FrameArrives(s, f), memory, start, rs, g)
    ensures Lua.FrameArrives(s, f).phase in {Lua.Closing, Lua.Offline}
    ensures g.answered == log.answered && g.tail == log.tail + more && Says(log.queue, more, g.queue)
  {
    more := CloserLeaves(s, f);
    LeavingIsRecord(s, Lua.FrameArrives(s, f), more, memory, start, rs, log);
    g := LeftLog(s, Lua.FrameArrives(s, f), more, log);
  }

  // ----- Work

  lemma JobsMatchTail(jobs: seq<Lua.Job>, rs: seq<MemoryRequest>, base: seq<byte>, memory: seq<byte>, partial: nat)
    requires |base| == U32_LIMIT == |memory| && AllSendable(rs) && JobsMatch(jobs, rs, base, memory, partial) && jobs != []
    ensures AllSendable(rs[1..]) && JobsMatch(jobs[1..], rs[1..], memory, memory, 0)
  {
    if |jobs| > 1 {
      FreshIsJob(rs[1], memory);
    }
  }

  /** The response of a job that did not fail is the answer to its request. */
  lemma ResponseIsAnswer(j: Lua.Job, base: seq<byte>, memory: seq<byte>, start: seq<byte>, rs: seq<MemoryRequest>, n: nat,
                         written: nat)
    requires |start| == U32_LIMIT && AllSendable(rs) && n < |rs| && base == After(start, rs[..n])
    requires IsJobOf(j, rs[n], base, memory, written) && Lua.ValidJob(j) && j.response.Some? && !j.failed
    ensures written == |rs[n].data| && j.response.value == AnswerFrame(start, rs, n)
  {
    FinishedJob(j, rs[n], base, memory, written);
  }

  /** While nothing was refused and nothing has failed, the next job is that of the next request. */
  lemma NextIsWaiting(rs: seq<MemoryRequest>, log: ScriptLog)
    requires AllSendable(rs) && IsRecord(rs, log) && Waiting(log) != []
    requires log.accepted == rs[..log.seen] && |log.done| == log.answered
    ensures log.answered < |rs| && Waiting(log)[0] == rs[log.answered]
  {
  }

  /** The base memory of the next job, while every request so far was executed as a whole. */
  lemma WholeBase(start: seq<byte>, rs: seq<MemoryRequest>, log: ScriptLog)
    requires |start| == U32_LIMIT && AllSendable(rs) && IsRecord(rs, log) && |log.done| == log.answered
    ensures Effect(start, log.done) == After(start, rs[..log.answered])
  {
    WholeEffect(start, log.done, rs[..log.answered]);
  }

  /** The log after the first job has left its queue with its response. */
  function AnsweredLog(j: Lua.Job, log: ScriptLog): ScriptLog
    requires |log.done| < |log.accepted|
  {
    var f := Lua.ResponseOf(j);
    var g := log.(done := log.done + [Done(Waiting(log)[0], log.partial)], partial := 0, queue := AfterQueue(log.queue, f));
    if log.tail == [] && !j.failed then g.(answered := log.answered + 1) else g.(tail := log.tail + [f])
  }

  lemma FailureIsBreak(j: Lua.Job)
    requires j.failed
    ensures IsBreak(Lua.ResponseOf(j))
  {
  }

  lemma WholeGrows(ds: seq<Done>, d: Done, rs: seq<MemoryRequest>, n: nat)
    requires BeginsWhole(ds, rs, n) && n == |ds| < |rs| && d == Whole(rs[n])
    ensures BeginsWhole(ds + [d], rs, n + 1)
  {
  }

  lemma AnswersNext(start: seq<byte>, rs: seq<MemoryRequest>, n: nat)
    requires |start| == U32_LIMIT && AllSendable(rs) && n < |rs|
    ensures ScriptSaid(start, rs, n + 1, []) == ScriptSaid(start, rs, n, []) + [AnswerFrame(start, rs, n)]
  {
  }

  /** The first job has left, and what it did is on record. */
  lemma AnsweredIsRecord(j: Lua.Job, memory: seq<byte>, start: seq<byte>, rs: seq<MemoryRequest>, log: ScriptLog)
    requires |start| == U32_LIMIT && AllSendable(rs) && IsRecord(rs, log) && Waiting(log) != []
    requires log.tail == [] && !j.failed ==> log.answered < |rs| && |log.done| == log.answered
                                             && Done(Waiting(log)[0], log.partial) == Whole(rs[log.answered])
    requires log.partial <= |Waiting(log)[0].data|
    ensures IsRecord(rs, AnsweredLog(j, log)) && Waiting(AnsweredLog(j, log)) == Waiting(log)[1..]
  {
    var next := Done(Waiting(log)[0], log.partial);
    DoneEffect(start, rs, log, log.partial);
    DoneIsRecord(rs, log, next);
    if j.failed {
      FailureIsBreak(j);
    } else if log.tail == [] {
      WholeGrows(log.done, next, rs, log.answered);
    }
  }

  lemma AnsweredIsSaid(j: Lua.Job, start: seq<byte>, rs: seq<MemoryRequest>, log: ScriptLog)
    requires |start| == U32_LIMIT && AllSendable(rs) && log.answered <= |rs| && |log.done| < |log.accepted|
    requires log.tail == [] && !j.failed ==>
               log.answered < |rs| && Lua.ResponseOf(j) == AnswerFrame(start, rs, log.answered)
    ensures var g := AnsweredLog(j, log);
            && g.answered <= |rs|
            && ScriptSaid(start, rs, g.answered, g.tail) == ScriptSaid(start, rs, log.answered, log.tail) + [Lua.ResponseOf(j)]
  {
    if log.tail == [] && !j.failed {
      AnswersNext(start, rs, log.answered);
    } else {
      TailGrows(start, rs, log.answered, log.tail, [Lua.ResponseOf(j)]);
    }
  }

  lemma AnsweredAtWork(jobs: seq<Lua.Job>, memory: seq<byte>, start: seq<byte>, rs: seq<MemoryRequest>, log: ScriptLog)
    requires |start| == U32_LIMIT == |memory| && AllSendable(rs) && IsRecord(rs, log)
    requires AtWork(jobs, memory, start, rs, log) && jobs != []
    requires IsRecord(rs, AnsweredLog(jobs[0], log)) && Waiting(AnsweredLog(jobs[0], log)) == Waiting(log)[1..]
    ensures AtWork(jobs[1..], memory, start, rs, AnsweredLog(jobs[0], log))
  {
    DoneEffect(start, rs, log, log.partial);
    JobsMatchTail(jobs, Waiting(log), Effect(start, log.done), memory, log.partial);
  }

  lemma Respond(s: Lua.Script, memory: seq<byte>, start: seq<byte>, rs: seq<MemoryRequest>, log: ScriptLog)
    requires |start| == U32_LIMIT == |memory| && AllSendable(rs) && ScriptSide(s, memory, start, rs, log)
    requires s.phase == Lua.Online && s.jobs != [] && Lua.ValidJob(s.jobs[0]) && s.jobs[0].response.Some?
    requires Queues(s.outgoing, s.jobs[0].response.value)
    ensures |log.done| < |log.accepted|
    ensures var g, f := AnsweredLog(s.jobs[0], log), s.jobs[0].response.value;
            && ScriptSide(Lua.ResponseQueued(s), memory, start, rs, g)
            && ScriptSaid(start, rs, g.answered, g.tail) == ScriptSaid(start, rs, log.answered, log.tail) + [f]
            && Says(log.queue, [f], g.queue)
  {
    if log.tail == [] && !s.jobs[0].failed {
      NextIsWaiting(rs, log);
      WholeBase(start, rs, log);
      ResponseIsAnswer(s.jobs[0], Effect(start, log.done), memory, start, rs, log.answered, log.partial);
    }
    AnsweredIsRecord(s.jobs[0], memory, start, rs, log);
    AnsweredIsSaid(s.jobs[0], start, rs, log);
    AnsweredAtWork(s.jobs, memory, start, rs, log);
    SaysOne(log.queue, s.jobs[0].response.value);
  }

  lemma JobsMatchProgress(jobs: seq<Lua.Job>, rs: seq<MemoryRequest>, base: seq<byte>, memory: seq<byte>, partial: nat,
                          count: nat, call: Lua.EmulatorCall)
    requires |base| == U32_LIMIT == |memory| && AllSendable(rs) && JobsMatch(jobs, rs, base, memory, partial)
    requires jobs != [] && Lua.ValidJob(jobs[0]) && !Lua.Finished(jobs[0]) && jobs[0].offset + count <= jobs[0].size
    ensures JobsMatch([Lua.JobNext(jobs[0], memory, count, call)] + jobs[1..], rs, base,
                      Lua.JobMemory(jobs[0], memory, count, call), WrittenAfter(rs[0], partial, count, call))
  {
    ChunkKeepsJob(jobs[0], rs[0], base, memory, partial, count, call);
  }

  lemma Progress(s: Lua.Script, memory: seq<byte>, start: seq<byte>, rs: seq<MemoryRequest>, log: ScriptLog, count: nat,
                 call: Lua.EmulatorCall)
    requires |start| == U32_LIMIT == |memory| && AllSendable(rs) && ScriptSide(s, memory, start, rs, log)
    requires s.phase == Lua.Online && s.jobs != [] && Lua.ValidJob(s.jobs[0]) && !Lua.Finished(s.jobs[0])
    requires s.jobs[0].offset + count <= s.jobs[0].size
    ensures |log.done| < |log.accepted|
    ensures var g := log.(partial := WrittenAfter(Waiting(log)[0], log.partial, count, call));
            ScriptSide(Lua.HeadReplaced(s, Lua.JobNext(s.jobs[0], memory, count, call)),
                       Lua.JobMemory(s.jobs[0], memory, count, call), start, rs, g)
  {
    JobsMatchProgress(s.jobs, Waiting(log), Effect(start, log.done), memory, log.partial, count, call);
  }

  predicate AllHealthy(jobs: seq<Lua.Job>) {
    forall j :: j in jobs ==> !j.failed
  }

  /** Nothing was refused, nothing has failed, and nobody is closing. */
  predicate IsOrderly(s: Lua.Script, log: ScriptLog) {
    s.phase in {Lua.AwaitingHello, Lua.Online} && log.tail == [] && AllHealthy(s.jobs)
  }

  /** The script `t` with the log `g` comes after `log`, with these frames more to say. */
  ghost predicate Goes(log: ScriptLog, t: Lua.Script, memory: seq<byte>, start: seq<byte>, rs: seq<MemoryRequest>,
                       g: ScriptLog, more: seq<Frame>)
    requires |start| == U32_LIMIT && AllSendable(rs)
  {
    && log.answered <= g.answered && g.answered <= |rs| && ScriptSide(t, memory, start, rs, g)
    && Says(log.queue, more, g.queue)
    && ScriptSaid(start, rs, g.answered, g.tail) == ScriptSaid(start, rs, log.answered, log.tail) + more
  }

  lemma GoesOn(log: ScriptLog, t: Lua.Script, m1: seq<byte>, u: Lua.Script, m2: seq<byte>, start: seq<byte>,
               rs: seq<MemoryRequest>, g: ScriptLog, h: ScriptLog, x: seq<Frame>, y: seq<Frame>)
    requires |start| == U32_LIMIT && AllSendable(rs)
    requires Goes(log, t, m1, start, rs, g, x) && Goes(g, u, m2, start, rs, h, y)
    ensures Goes(log, u, m2, start, rs, h, x + y)
  {
    SaysMore(log.queue, x, g.queue, y, h.queue);
    Associate3(ScriptSaid(start, rs, log.answered, log.tail), x, y);
  }

  lemma GoesNowhere(s: Lua.Script, log: ScriptLog, memory: seq<byte>, start: seq<byte>, rs: seq<MemoryRequest>)
    requires |start| == U32_LIMIT && AllSendable(rs) && ScriptSide(s, memory, start, rs, log)
    ensures Goes(log, s, memory, start, rs, log, [])
  {
    assert ScriptSaid(start, rs, log.answered, log.tail) + [] == ScriptSaid(start, rs, log.answered, log.tail);
  }

  // ----- A call of `processOperations`

  lemma RespondGoes(s: Lua.Script, memory: seq<byte>, start: seq<byte>, rs: seq<MemoryRequest>, log: ScriptLog)
    requires |start| == U32_LIMIT == |memory| && AllSendable(rs) && ScriptSide(s, memory, start, rs, log)
    requires s.phase == Lua.Online && s.jobs != [] && Lua.ValidJob(s.jobs[0]) && s.jobs[0].response.Some?
    requires Queues(s.outgoing, s.jobs[0].response.value)
    ensures |log.done| < |log.accepted|
    ensures var g := AnsweredLog(s.jobs[0], log);
            && Goes(log, Lua.ResponseQueued(s), memory, start, rs, g, [s.jobs[0].response.value])
            && (IsOrderly(s, log) ==> IsOrderly(Lua.ResponseQueued(s), g))
  {
    Respond(s, memory, start, rs, log);
    assert s.jobs[0] in s.jobs;
  }

  lemma HeadStaysHealthy(s: Lua.Script, memory: seq<byte>, count: nat)
    requires |memory| == U32_LIMIT && s.jobs != [] && Lua.ValidJob(s.jobs[0]) && !Lua.Finished(s.jobs[0])
    requires s.jobs[0].offset + count <= s.jobs[0].size && AllHealthy(s.jobs)
    ensures AllHealthy(Lua.HeadReplaced(s, Lua.JobNext(s.jobs[0], memory, count, Lua.Works)).jobs)
  {
    var t := Lua.HeadReplaced(s, Lua.JobNext(s.jobs[0], memory, count, Lua.Works));
    assert s.jobs[0] in s.jobs && t.jobs[1..] == s.jobs[1..];
    assert forall j :: j in t.jobs ==> j == t.jobs[0] || j in s.jobs;
  }

  lemma ProgressGoes(s: Lua.Script, memory: seq<byte>, start: seq<byte>, rs: seq<MemoryRequest>, log: ScriptLog,
                     count: nat, call: Lua.EmulatorCall)
    requires |start| == U32_LIMIT == |memory| && AllSendable(rs) && ScriptSide(s, memory, start, rs, log)
    requires s.phase == Lua.Online && s.jobs != [] && Lua.ValidJob(s.jobs[0]) && !Lua.Finished(s.jobs[0])
    requires s.jobs[0].offset + count <= s.jobs[0].size
    ensures |log.done| < |log.accepted|
    ensures var g := log.(partial := WrittenAfter(Waiting(log)[0], log.partial, count, call));
            var t := Lua.HeadReplaced(s, Lua.JobNext(s.jobs[0], memory, count, call));
            && Goes(log, t, Lua.JobMemory(s.jobs[0], memory, count, call), start, rs, g, [])
            && (call.Works? && IsOrderly(s, log) ==> IsOrderly(t, g))
  {
    Progress(s, memory, start, rs, log, count, call);
    assert ScriptSaid(start, rs, log.answered, log.tail) + [] == ScriptSaid(start, rs, log.answered, log.tail);
    if call.Works? && IsOrderly(s, log) {
      HeadStaysHealthy(s, memory, count);
    }
  }

  /** One turn of the loop. */
  lemma WorkTurn(w: Lua.Work, start: seq<byte>, rs: seq<MemoryRequest>, log: ScriptLog)
    returns (g: ScriptLog, more: seq<Frame>)
    requires |start| == U32_LIMIT && AllSendable(rs) && Lua.ValidWork(w) && Lua.Continues(w)
    requires w.script.phase == Lua.Online && ScriptSide(w.script, w.memory, start, rs, log)
    ensures var u := Lua.WorkNext(w);
            && Goes(log, u.script, u.memory, start, rs, g, more) && g.seen == log.seen
            && u.script.phase == Lua.Online && u.script.decoder == w.script.decoder
            && (w.calls == [] ==> u.calls == [])
            && (w.calls == [] && IsOrderly(w.script, log) ==> IsOrderly(u.script, g))
  {
    var s := w.script;
    assert s.jobs[0] in s.jobs;
    if s.jobs[0].response.Some? {
      Lua.AnswerTurn(w);
      RespondGoes(s, w.memory, start, rs, log);
      g, more := AnsweredLog(s.jobs[0], log), [s.jobs[0].response.value];
    } else {
      Lua.ChunkTurn(w);
      var count, call := Lua.ChunkSize(w), Lua.NextCall(w.calls);
      ProgressGoes(s, w.memory, start, rs, log, count, call);
      g, more := log.(partial := WrittenAfter(Waiting(log)[0], log.partial, count, call)), [];
    }
  }

  lemma {:induction false} WorkAll(w: Lua.Work, start: seq<byte>, rs: seq<MemoryRequest>, log: ScriptLog)
    returns (g: ScriptLog, more: seq<Frame>)
    requires |start| == U32_LIMIT && AllSendable(rs) && Lua.ValidWork(w)
    requires w.script.phase == Lua.Online && ScriptSide(w.script, w.memory, start, rs, log)
    ensures var u := Lua.RunJobs(w);
            && Goes(log, u.script, u.memory, start, rs, g, more) && g.seen == log.seen
            && u.script.phase == Lua.Online && u.script.decoder == w.script.decoder
            && (w.calls == [] && IsOrderly(w.script, log) ==> IsOrderly(u.script, g))
    decreases Lua.MAX_OPERATIONS_PER_FRAME + Lua.MAX_IO_BYTES_PER_FRAME - w.operations - w.bytes
  {
    if Lua.Continues(w) {
      var u, rest := Lua.WorkNext(w), Lua.RunJobs(w);
      g, more := WorkTurn(w, start, rs, log);
      var h, y := WorkAll(u, start, rs, g);
      GoesOn(log, u.script, u.memory, rest.script, rest.memory, start, rs, g, h, more, y);
      g, more := h, more + y;
    } else {
      g, more := log, [];
      GoesNowhere(w.script, log, w.memory, start, rs);
    }
  }

  // ----- Frames of the app

  /** How many frames a script has heard that still listens. */
  function Heard(s: Lua.Script, log: ScriptLog): nat {
    if s.phase == Lua.AwaitingHello then 0 else log.seen + 1
  }

  lemma AppSaidAt(alog: AppLog, v: AppVersion, rs: seq<MemoryRequest>, at: nat)
    requires AllSendable(rs) && AllClosers(alog.closers) && at < |AppSaid(alog, v, rs)| && (alog.taken == 0 ==> rs == [])
    ensures var f := AppSaid(alog, v, rs)[at];
            || IsCloser(f) || (at == 0 && f == Greeting(v))
            || (0 < at <= |rs| && f == FrameOf(rs[at - 1]))
    ensures alog.closers == [] ==> at <= |rs|
  {
    if 0 < at <= |rs| {
      RequestFrameAt(rs, at - 1);
    }
  }

  lemma GreetingArrives(s: Lua.Script, v: AppVersion)
    requires s.phase == Lua.AwaitingHello
    ensures Lua.FrameArrives(s, Greeting(v)) == s.(phase := Lua.Online)
  {
    GreetingIsAccepted(v);
  }

  /** There is room for the next request, if there is one. */
  predicate HasRoomForNext(s: Lua.Script, log: ScriptLog, rs: seq<MemoryRequest>) {
    s.phase == Lua.Online && log.seen < |rs| ==> Lua.HasJobRoom(s, RequestSize(rs[log.seen]))
  }

  lemma GreetingGoes(s: Lua.Script, v: AppVersion, memory: seq<byte>, start: seq<byte>, rs: seq<MemoryRequest>, log: ScriptLog)
    requires |start| == U32_LIMIT && AllSendable(rs) && ScriptSide(s, memory, start, rs, log) && s.phase == Lua.AwaitingHello
    ensures var t := Lua.FrameArrives(s, Greeting(v));
            t == s.(phase := Lua.Online) && Goes(log, t, memory, start, rs, log, [])
  {
    GreetingArrives(s, v);
    GoesNowhere(s, log, memory, start, rs);
    assert rs[..0] == [] && Effect(start, []) == start;
  }

  lemma RequestGoes(s: Lua.Script, memory: seq<byte>, start: seq<byte>, rs: seq<MemoryRequest>, log: ScriptLog)
    returns (g: ScriptLog, more: seq<Frame>)
    requires |start| == U32_LIMIT && AllSendable(rs) && ScriptSide(s, memory, start, rs, log)
    requires s.phase == Lua.Online && log.seen < |rs|
    ensures var t := Lua.FrameArrives(s, FrameOf(rs[log.seen]));
            && Goes(log, t, memory, start, rs, g, more)
            && (t.phase != Lua.Offline ==> g.seen == log.seen + 1 && t.decoder == s.decoder && t.phase == Lua.Online)
            && (IsOrderly(s, log) && HasRoomForNext(s, log, rs) ==> IsOrderly(t, g))
  {
    if Lua.HasJobRoom(s, RequestSize(rs[log.seen])) {
      g := Accept(s, memory, start, rs, log);
      more := [];
      assert ScriptSaid(start, rs, log.answered, log.tail) + [] == ScriptSaid(start, rs, log.answered, log.tail);
    } else {
      g, more := Refuse(s, memory, start, rs, log);
      TailGrows(start, rs, log.answered, log.tail, more);
    }
  }

  lemma LeaveGoes(s: Lua.Script, f: Frame, memory: seq<byte>, start: seq<byte>, rs: seq<MemoryRequest>, log: ScriptLog)
    returns (g: ScriptLog, more: seq<Frame>)
    requires |start| == U32_LIMIT && AllSendable(rs) && ScriptSide(s, memory, start, rs, log)
    requires s.phase != Lua.Offline && (IsCloser(f) || s.phase == Lua.Closing)
    ensures var t := Lua.FrameArrives(s, f);
            Goes(log, t, memory, start, rs, g, more) && t.phase in {Lua.Closing, Lua.Offline}
  {
    g, more := Leave(s, f, memory, start, rs, log);
    TailGrows(start, rs, log.answered, log.tail, more);
  }

  /** The next frame of the app, for a script that listens. */
  predicate IsNextFrame(s: Lua.Script, f: Frame, v: AppVersion, rs: seq<MemoryRequest>, log: ScriptLog)
    requires AllSendable(rs)
  {
    || IsCloser(f)
    || (s.phase == Lua.AwaitingHello && f == Greeting(v))
    || (s.phase == Lua.Online && log.seen < |rs| && f == FrameOf(rs[log.seen]))
  }

  /** The script hears the next frame of the app. */
  lemma ScriptHears(s: Lua.Script, f: Frame, memory: seq<byte>, start: seq<byte>, rs: seq<MemoryRequest>, v: AppVersion,
                    log: ScriptLog) returns (g: ScriptLog, more: seq<Frame>)
    requires |start| == U32_LIMIT && AllSendable(rs) && ScriptSide(s, memory, start, rs, log)
    requires s.phase in {Lua.AwaitingHello, Lua.Online} && IsNextFrame(s, f, v, rs, log)
    ensures var t := Lua.FrameArrives(s, f);
            && Goes(log, t, memory, start, rs, g, more)
            && (t.phase in {Lua.AwaitingHello, Lua.Online} ==>
                  t.decoder == s.decoder && Heard(t, g) == Heard(s, log) + 1)
            && (IsOrderly(s, log) && !IsCloser(f) && HasRoomForNext(s, log, rs) ==> IsOrderly(t, g))
  {
    if IsCloser(f) {
      g, more := LeaveGoes(s, f, memory, start, rs, log);
    } else if s.phase == Lua.AwaitingHello {
      GreetingGoes(s, v, memory, start, rs, log);
      g, more := log, [];
    } else {
      g, more := RequestGoes(s, memory, start, rs, log);
    }
  }

  /** An app that is not closing says no closers. */
  lemma ProperFrame(alog: AppLog, v: AppVersion, rs: seq<MemoryRequest>, at: nat)
    requires AllSendable(rs) && at < |AppSaid(alog, v, rs)|
    ensures alog.closers == [] ==> !IsCloser(AppSaid(alog, v, rs)[at])
  {
    if alog.closers == [] && at > 0 {
      RequestIsAccepted(rs[at - 1]);
      RequestFrameAt(rs, at - 1);
    }
  }

  lemma ScriptFramesStep(s: Lua.Script, fs: seq<Frame>, next: Lua.Script)
    requires fs != [] && s.phase != Lua.Offline && Lua.FrameArrives(s, fs[0]) == next
    ensures Lua.FramesArrive(s, fs) == Lua.FramesArrive(next, fs[1..])
  {
  }

  lemma ScriptFramesEnd(s: Lua.Script, fs: seq<Frame>)
    requires fs == [] || s.phase == Lua.Offline
    ensures Lua.FramesArrive(s, fs) == s
  {
  }

  /** A closing script hears frames, whatever they are. */
  lemma {:induction false} ClosingHearsAll(s: Lua.Script, fs: seq<Frame>, memory: seq<byte>, start: seq<byte>,
                                           rs: seq<MemoryRequest>, log: ScriptLog)
    returns (g: ScriptLog, more: seq<Frame>)
    requires |start| == U32_LIMIT && AllSendable(rs) && ScriptSide(s, memory, start, rs, log)
    requires s.phase in {Lua.Closing, Lua.Offline}
    ensures var t := Lua.FramesArrive(s, fs);
            Goes(log, t, memory, start, rs, g, more) && t.phase in {Lua.Closing, Lua.Offline}
    decreases |fs|
  {
    if fs == [] || s.phase == Lua.Offline {
      ScriptFramesEnd(s, fs);
      GoesNowhere(s, log, memory, start, rs);
      g, more := log, [];
    } else {
      var t := Lua.FrameArrives(s, fs[0]);
      ScriptFramesStep(s, fs, t);
      g, more := LeaveGoes(s, fs[0], memory, start, rs, log);
      var h, y := ClosingHearsAll(t, fs[1..], memory, start, rs, g);
      GoesOn(log, t, memory, Lua.FramesArrive(s, fs), memory, start, rs, g, h, more, y);
      g, more := h, more + y;
    }
  }

  // ----- Room in the operation queue

  /** What a caller must keep to: the limits of the script's operation queue, for all that is unanswered. */
  predicate Affordable(rs: seq<MemoryRequest>) {
    |rs| <= MAX_QUEUED_FRAMES && TotalRequestSize(rs) <= MAX_QUEUED_BYTES
  }

  lemma TotalNext(rs: seq<MemoryRequest>, i: nat, j: nat)
    requires i <= j < |rs|
    ensures TotalRequestSize(rs[i..j + 1]) == TotalRequestSize(rs[i..j]) + RequestSize(rs[j])
  {
    assert rs[i..j + 1] == rs[i..j] + [rs[j]];
    TotalConcat(rs[i..j], [rs[j]]);
    TotalOne(rs[j]);
  }

  lemma SliceOfTail<T>(s: seq<T>, first: nat, i: nat, j: nat)
    requires first <= i <= j <= |s|
    ensures s[first..][i - first..j - first] == s[i..j]
  {
  }

  /** If all unanswered requests fit the operation queue, each fits when it arrives. */
  lemma RoomForNext(rs: seq<MemoryRequest>, first: nat, i: nat, j: nat)
    requires first <= i <= j < |rs| && Affordable(rs[first..])
    ensures j - i < MAX_QUEUED_FRAMES
    ensures TotalRequestSize(rs[i..j]) + RequestSize(rs[j]) <= MAX_QUEUED_BYTES
  {
    TotalNext(rs, i, j);
    TotalSlice(rs[first..], i - first, j + 1 - first);
    SliceOfTail(rs, first, i, j + 1);
  }

  lemma WaitingAre(rs: seq<MemoryRequest>, log: ScriptLog)
    requires AllSendable(rs) && IsRecord(rs, log) && log.accepted == rs[..log.seen] && |log.done| == log.answered
    ensures log.answered <= log.seen && Waiting(log) == rs[log.answered..log.seen]
  {
  }

  /** For a caller that keeps to the limits there is always room. */
  lemma AffordableHasRoom(s: Lua.Script, memory: seq<byte>, start: seq<byte>, rs: seq<MemoryRequest>, log: ScriptLog,
                          first: nat)
    requires |start| == U32_LIMIT && AllSendable(rs) && ScriptSide(s, memory, start, rs, log) && IsOrderly(s, log)
    requires s.jobBytes == Lua.TotalJobSize(s.jobs) && first <= log.answered <= |rs| && Affordable(rs[first..])
    ensures HasRoomForNext(s, log, rs)
  {
    if s.phase == Lua.Online && log.seen < |rs| {
      JobBytesAre(s, Waiting(log), Effect(start, log.done), memory, log.partial);
      WaitingAre(rs, log);
      RoomForNext(rs, first, log.answered, log.seen);
    }
  }

  /** The script hears the next frame; for a caller that keeps to the limits it goes on as before. */
  lemma ScriptHearsNext(s: Lua.Script, f: Frame, memory: seq<byte>, start: seq<byte>, rs: seq<MemoryRequest>,
                        v: AppVersion, alog: AppLog, log: ScriptLog, first: nat)
    returns (g: ScriptLog, more: seq<Frame>)
    requires |start| == U32_LIMIT && AllSendable(rs) && ScriptSide(s, memory, start, rs, log)
    requires s.phase in {Lua.AwaitingHello, Lua.Online} && AllClosers(alog.closers) && (alog.taken == 0 ==> rs == [])
    requires first <= |rs| && Lua.ValidScript(s) && ValidFrame(f)
    requires Heard(s, log) < |AppSaid(alog, v, rs)| && f == AppSaid(alog, v, rs)[Heard(s, log)]
    ensures var t := Lua.FrameArrives(s, f);
            && Goes(log, t, memory, start, rs, g, more) && Lua.ValidScript(t)
            && (t.phase in {Lua.AwaitingHello, Lua.Online} ==>
                  t.decoder == s.decoder && Heard(t, g) == Heard(s, log) + 1)
            && (IsOrderly(s, log) && alog.closers == [] && first <= log.answered && Affordable(rs[first..])
                ==> IsOrderly(t, g))
  {
    if IsOrderly(s, log) && first <= log.answered && Affordable(rs[first..]) {
      assert log.answered <= |rs|;
      AffordableHasRoom(s, memory, start, rs, log, first);
    }
    AppSaidAt(alog, v, rs, Heard(s, log));
    ProperFrame(alog, v, rs, Heard(s, log));
    g, more := ScriptHears(s, f, memory, start, rs, v, log);
    Lua.FrameArrivesIsValid(s, f);
  }

  /** The script hears any number of frames, and listens to them until one makes it leave. */
  lemma {:induction false} ScriptHearsAll(s: Lua.Script, fs: seq<Frame>, memory: seq<byte>, start: seq<byte>,
                                          rs: seq<MemoryRequest>, v: AppVersion, alog: AppLog, log: ScriptLog, first: nat)
    returns (t: Lua.Script, g: ScriptLog, more: seq<Frame>)
    requires |start| == U32_LIMIT && AllSendable(rs) && ScriptSide(s, memory, start, rs, log)
    requires s.phase in {Lua.AwaitingHello, Lua.Online} && AllClosers(alog.closers) && (alog.taken == 0 ==> rs == [])
    requires first <= |rs| && Lua.ValidScript(s) && AllValid(fs) && Continues(AppSaid(alog, v, rs), Heard(s, log), fs)
    ensures t == Lua.FramesArrive(s, fs) && Goes(log, t, memory, start, rs, g, more)
    ensures t.phase in {Lua.AwaitingHello, Lua.Online} ==> t.decoder == s.decoder && Heard(t, g) == Heard(s, log) + |fs|
    ensures IsOrderly(s, log) && alog.closers == [] && first <= log.answered && Affordable(rs[first..]) ==> IsOrderly(t, g)
    decreases |fs|
  {
    if fs == [] {
      ScriptFramesEnd(s, fs);
      GoesNowhere(s, log, memory, start, rs);
      return s, log, [];
    }
    ContinuesNext(AppSaid(alog, v, rs), Heard(s, log), fs);
    assert fs[0] in fs;
    var next := Lua.FrameArrives(s, fs[0]);
    ScriptFramesStep(s, fs, next);
    g, more := ScriptHearsNext(s, fs[0], memory, start, rs, v, alog, log, first);
    var h, y;
    if next.phase in {Lua.AwaitingHello, Lua.Online} {
      t, h, y := ScriptHearsAll(next, fs[1..], memory, start, rs, v, alog, g, first);
    } else {
      h, y := ClosingHearsAll(next, fs[1..], memory, start, rs, g);
      t := Lua.FramesArrive(next, fs[1..]);
    }
    GoesOn(log, next, memory, t, memory, start, rs, g, h, more, y);
    g, more := h, more + y;
  }
}
