/** What a sequence of memory requests means, and what the script makes of it. */
module BridgeHistory {
  import opened Bytes
  import opened Frames
  import opened FrameDecoding
  import opened GameMemory
  import opened TransportRules
  import Lua = LuaScript

  /** A request that reaches the wire, when the send queue has room. */
  predicate Sendable(r: MemoryRequest) {
    Refusal(r).None?
  }

  predicate AllSendable(rs: seq<MemoryRequest>) {
    forall r {:trigger Sendable(r)} :: r in rs ==> Sendable(r)
  }

  /** A request that reaches the wire is one that the script accepts, with the same operation, range and data. */
  lemma RequestIsAccepted(r: MemoryRequest)
    requires Sendable(r)
    ensures var f := RequestFrame(r).value;
            && ValidFrame(f) && f.requestId == r.id != 0
            && f.kind == (if r.operation == Read then READ_REQUEST else WRITE_REQUEST)
            && Judge(f) == Verdict.Accepted(r.address, RequestSize(r), r.data)
            && 0 < RequestSize(r) && r.address + RequestSize(r) <= U32_LIMIT
            && (r.operation == Read ==> r.data == [])
            && RequestSize(r) <= MAX_BODY - BODY_HEADER_SIZE
  {
    ChecksAgree(r, RequestFrame(r).value);
  }

  lemma RequestFits(r: MemoryRequest)
    requires Sendable(r)
    ensures r.address + RequestSize(r) <= U32_LIMIT && (r.operation == Read ==> r.data == [])
  {
    RequestIsAccepted(r);
  }

  // ----- The meaning of requests

  function Apply(memory: seq<byte>, r: MemoryRequest): (m: seq<byte>)
    requires |memory| == U32_LIMIT && Sendable(r)
    ensures |m| == U32_LIMIT
  {
    if r.operation == Read then memory else Patch(memory, r.address, r.data)
  }

  /** Memory after the requests, one after the other. */
  function After(memory: seq<byte>, rs: seq<MemoryRequest>): (m: seq<byte>)
    requires |memory| == U32_LIMIT && AllSendable(rs)
    ensures |m| == U32_LIMIT
  {
    if rs == [] then memory else Apply(After(memory, rs[..|rs| - 1]), rs[|rs| - 1])
  }

  /** What a request is answered over some memory. */
  function AnswerOver(memory: seq<byte>, r: MemoryRequest): seq<byte>
    requires |memory| == U32_LIMIT && Sendable(r)
  {
    if r.operation == Read then
      RequestIsAccepted(r);
      memory[r.address..r.address + r.readSize]
    else []
  }

  /** The answer to the i-th request: a read sees all the writes before it. */
  function Answer(memory: seq<byte>, rs: seq<MemoryRequest>, i: nat): seq<byte>
    requires |memory| == U32_LIMIT && AllSendable(rs) && i < |rs|
  {
    AnswerOver(After(memory, rs[..i]), rs[i])
  }

  function ResultFrame(r: MemoryRequest, data: seq<byte>): Frame {
    Frame(if r.operation == Read then READ_RESULT else WRITE_RESULT, 0, r.id, data)
  }

  function AnswerFrame(memory: seq<byte>, rs: seq<MemoryRequest>, i: nat): Frame
    requires |memory| == U32_LIMIT && AllSendable(rs) && i < |rs|
  {
    ResultFrame(rs[i], Answer(memory, rs, i))
  }

  function AnswerFrames(memory: seq<byte>, rs: seq<MemoryRequest>, n: nat): (fs: seq<Frame>)
    requires |memory| == U32_LIMIT && AllSendable(rs) && n <= |rs|
    ensures |fs| == n
  {
    if n == 0 then [] else AnswerFrames(memory, rs, n - 1) + [AnswerFrame(memory, rs, n - 1)]
  }

  lemma {:induction false} AnswerFrameAt(memory: seq<byte>, rs: seq<MemoryRequest>, n: nat, i: nat)
    requires |memory| == U32_LIMIT && AllSendable(rs) && i < n <= |rs|
    ensures AnswerFrames(memory, rs, n)[i] == AnswerFrame(memory, rs, i)
    decreases n
  {
    if i < n - 1 {
      AnswerFrameAt(memory, rs, n - 1, i);
    }
  }

  function FrameOf(r: MemoryRequest): (f: Frame)
    requires Sendable(r)
    ensures ValidFrame(f)
  {
    RequestIsAccepted(r);
    RequestFrame(r).value
  }

  function RequestFrames(rs: seq<MemoryRequest>): (fs: seq<Frame>)
    requires AllSendable(rs)
    ensures |fs| == |rs|
  {
    if rs == [] then [] else RequestFrames(rs[..|rs| - 1]) + [FrameOf(rs[|rs| - 1])]
  }

  lemma {:induction false} RequestFrameAt(rs: seq<MemoryRequest>, i: nat)
    requires AllSendable(rs) && i < |rs|
    ensures RequestFrames(rs)[i] == FrameOf(rs[i])
    decreases |rs|
  {
    if i < |rs| - 1 {
      RequestFrameAt(rs[..|rs| - 1], i);
    }
  }

  lemma AnswerStays(memory: seq<byte>, rs: seq<MemoryRequest>, r: MemoryRequest, i: nat)
    requires |memory| == U32_LIMIT && AllSendable(rs) && Sendable(r) && i < |rs|
    ensures AllSendable(rs + [r])
    ensures Answer(memory, rs + [r], i) == Answer(memory, rs, i)
  {
    assert (rs + [r])[..i] == rs[..i];
  }

  /** Later requests do not change earlier answers. */
  lemma {:induction false} AnswersStay(memory: seq<byte>, rs: seq<MemoryRequest>, r: MemoryRequest, n: nat)
    requires |memory| == U32_LIMIT && AllSendable(rs) && Sendable(r) && n <= |rs|
    ensures AllSendable(rs + [r])
    ensures AnswerFrames(memory, rs + [r], n) == AnswerFrames(memory, rs, n)
    decreases n
  {
    if n != 0 {
      AnswersStay(memory, rs, r, n - 1);
      AnswerStays(memory, rs, r, n - 1);
    }
  }

  lemma FramesGrow(rs: seq<MemoryRequest>, r: MemoryRequest)
    requires AllSendable(rs) && Sendable(r)
    ensures AllSendable(rs + [r]) && RequestFrames(rs + [r]) == RequestFrames(rs) + [FrameOf(r)]
  {
    assert (rs + [r])[..|rs|] == rs;
  }

  /** A frame by which the script does not answer. */
  predicate IsBreak(f: Frame) {
    f.kind == ERROR || f.kind == CLOSE
  }

  /** What the script says is its greeting, the answers to the first requests, and nothing else or a break first. */
  function ScriptSaid(start: seq<byte>, rs: seq<MemoryRequest>, answered: nat, tail: seq<Frame>): seq<Frame>
    requires |start| == U32_LIMIT && AllSendable(rs) && answered <= |rs|
  {
    [Lua.SCRIPT_HELLO] + AnswerFrames(start, rs, answered) + tail
  }

  predicate IsTail(tail: seq<Frame>) {
    tail == [] || IsBreak(tail[0])
  }

  // ----- What was executed

  /** A request that the script has worked on, and how many bytes of its data were written. */
  datatype Done = Done(request: MemoryRequest, written: nat)

  predicate IsDone(d: Done) {
    && Sendable(d.request) && d.written <= |d.request.data|
  }

  predicate AllDone(ds: seq<Done>) {
    forall d {:trigger IsDone(d)} :: d in ds ==> IsDone(d)
  }

  function Whole(r: MemoryRequest): Done {
    Done(r, |r.data|)
  }

  /** Memory after the first `n` bytes of a write; a read changes nothing. */
  function PartlyApplied(memory: seq<byte>, r: MemoryRequest, n: nat): (m: seq<byte>)
    requires |memory| == U32_LIMIT && Sendable(r) && n <= |r.data|
    ensures |m| == U32_LIMIT
  {
    if r.operation == Read then memory
    else
      RequestFits(r);
      Patch(memory, r.address, r.data[..n])
  }

  /** Memory after what was executed, in that order. */
  function Effect(memory: seq<byte>, ds: seq<Done>): (m: seq<byte>)
    requires |memory| == U32_LIMIT && AllDone(ds)
    ensures |m| == U32_LIMIT
  {
    if ds == [] then memory
    else
      var last := ds[|ds| - 1];
      assert IsDone(last);
      PartlyApplied(Effect(memory, ds[..|ds| - 1]), last.request, last.written)
  }

  lemma EffectNext(memory: seq<byte>, ds: seq<Done>, d: Done)
    requires |memory| == U32_LIMIT && AllDone(ds) && IsDone(d)
    ensures AllDone(ds + [d])
    ensures Effect(memory, ds + [d]) == PartlyApplied(Effect(memory, ds), d.request, d.written)
  {
    assert (ds + [d])[..|ds|] == ds;
  }

  function Requests(ds: seq<Done>): (rs: seq<MemoryRequest>)
    ensures |rs| == |ds|
  {
    if ds == [] then [] else Requests(ds[..|ds| - 1]) + [ds[|ds| - 1].request]
  }

  lemma RequestsNext(ds: seq<Done>, d: Done)
    ensures Requests(ds + [d]) == Requests(ds) + [d.request]
  {
    assert (ds + [d])[..|ds|] == ds;
  }

  /** The first `n` of the requests were executed first, one after the other and each as a whole. */
  predicate BeginsWhole(ds: seq<Done>, rs: seq<MemoryRequest>, n: nat) {
    n <= |ds| && n <= |rs| && forall i :: 0 <= i < n ==> ds[i] == Whole(rs[i])
  }

  /** Whole requests have the effect that requests have by definition. */
  lemma {:induction false} WholeEffect(memory: seq<byte>, ds: seq<Done>, rs: seq<MemoryRequest>)
    requires |memory| == U32_LIMIT && AllDone(ds) && AllSendable(rs) && |ds| == |rs| && BeginsWhole(ds, rs, |rs|)
    ensures Effect(memory, ds) == After(memory, rs)
    decreases |ds|
  {
    if ds != [] {
      var n := |ds| - 1;
      assert ds[n] == Whole(rs[n]) && IsDone(ds[n]);
      WholeEffect(memory, ds[..n], rs[..n]);
      assert rs[n].data[..|rs[n].data|] == rs[n].data;
    }
  }

  /** `a` is `b` without some of its elements. */
  predicate IsSubsequence<T(==)>(a: seq<T>, b: seq<T>) {
    if a == [] then true
    else if b == [] then false
    else
      || (a[|a| - 1] == b[|b| - 1] && IsSubsequence(a[..|a| - 1], b[..|b| - 1]))
      || IsSubsequence(a, b[..|b| - 1])
  }

  lemma SubsequenceGrows<T>(a: seq<T>, b: seq<T>, x: T)
    requires IsSubsequence(a, b)
    ensures IsSubsequence(a, b + [x]) && IsSubsequence(a + [x], b + [x])
  {
    assert (a + [x])[..|a|] == a && (b + [x])[..|b|] == b;
  }

  lemma {:induction false} SubsequenceOfMore<T>(a: seq<T>, b: seq<T>, n: nat)
    requires n <= |b| && IsSubsequence(a, b[..n])
    ensures IsSubsequence(a, b)
    decreases |b| - n
  {
    if n == |b| {
      assert b[..n] == b;
    } else {
      SubsequenceGrows(a, b[..n], b[n]);
      assert b[..n + 1] == b[..n] + [b[n]];
      SubsequenceOfMore(a, b, n + 1);
    }
  }

  lemma {:induction false} AllAreSubsequence<T>(a: seq<T>)
    ensures IsSubsequence(a, a)
  {
    if a != [] {
      AllAreSubsequence(a[..|a| - 1]);
    }
  }

  // ----- A request on the script's side

  function FreshJob(r: MemoryRequest): Lua.Job {
    Lua.NewJob(r.operation, r.id, r.address, RequestSize(r), r.data)
  }

  /** The job of `r`, begun over the memory `base`, of which `written` bytes are written. */
  predicate IsJobOf(j: Lua.Job, r: MemoryRequest, base: seq<byte>, memory: seq<byte>, written: nat)
    requires |base| == U32_LIMIT && Sendable(r)
  {
    && j == FreshJob(r).(offset := j.offset, parts := j.parts, failed := j.failed, response := j.response)
    && j.offset <= j.size && written <= |r.data| && memory == PartlyApplied(base, r, written)
    && (!j.failed ==> if r.operation == Read then j.parts == Region(base, r.address, r.address + j.offset)
                      else j.size == |r.data| && written == j.offset)
  }

  function Region(memory: seq<byte>, from: nat, to: nat): seq<byte> {
    if from <= to <= |memory| then memory[from..to] else []
  }

  lemma FreshIsJob(r: MemoryRequest, base: seq<byte>)
    requires |base| == U32_LIMIT && Sendable(r)
    ensures IsJobOf(FreshJob(r), r, base, base, 0)
  {
    RequestIsAccepted(r);
    assert r.operation == Write ==> Patch(base, r.address, r.data[..0]) == base;
  }

  lemma Adjacent(s: seq<byte>, i: nat, j: nat, k: nat)
    requires i <= j <= k <= |s|
    ensures s[i..j] + s[j..k] == s[i..k]
  {
  }

  /** How many bytes of the data are written after the next chunk. */
  function WrittenAfter(r: MemoryRequest, written: nat, count: nat, call: Lua.EmulatorCall): nat {
    if r.operation == Read then written
    else if call.Works? then written + count else written + Min(call.applied, count)
  }

  lemma ChunkOfJob(j: Lua.Job, memory: seq<byte>, count: nat, call: Lua.EmulatorCall)
    requires |memory| == U32_LIMIT && Lua.ValidJob(j) && !Lua.Finished(j) && j.offset + count <= j.size
    ensures var k, at := Lua.JobNext(j, memory, count, call), j.address + j.offset;
            k == j.(offset := j.offset + count, failed := call.Fails?, response := k.response,
                    parts := if call.Works? && j.operation == Read then j.parts + memory[at..at + count] else j.parts)
  {
  }

  lemma ReadChunkKeepsJob(j: Lua.Job, r: MemoryRequest, base: seq<byte>, written: nat, count: nat, call: Lua.EmulatorCall)
    requires |base| == U32_LIMIT && Sendable(r) && IsJobOf(j, r, base, base, written) && r.operation == Read
    requires Lua.ValidJob(j) && !Lua.Finished(j) && j.offset + count <= j.size
    ensures IsJobOf(Lua.JobNext(j, base, count, call), r, base, base, written)
  {
    ChunkOfJob(j, base, count, call);
    RegionGrows(base, r.address, r.address + j.offset, r.address + j.offset + count);
  }

  lemma RegionGrows(memory: seq<byte>, i: nat, j: nat, k: nat)
    requires i <= j <= k <= |memory|
    ensures Region(memory, i, j) + memory[j..k] == Region(memory, i, k)
  {
  }

  /** The next bytes of a write. */
  lemma WriteMore(base: seq<byte>, r: MemoryRequest, from: nat, to: nat)
    requires |base| == U32_LIMIT && Sendable(r) && r.operation == Write && from <= to <= |r.data|
    ensures r.address + to <= U32_LIMIT
    ensures Patch(PartlyApplied(base, r, from), r.address + from, r.data[from..to]) == PartlyApplied(base, r, to)
  {
    RequestFits(r);
    PatchCompose(base, r.address, r.data[..from], r.data[from..to]);
    Adjacent(r.data, 0, from, to);
  }

  lemma ChunkIsWritten(j: Lua.Job, memory: seq<byte>, count: nat, call: Lua.EmulatorCall)
    requires |memory| == U32_LIMIT && Lua.ValidJob(j) && j.operation == Write && j.offset + count <= j.size
    ensures var to: nat := j.offset + if call.Works? then count else Min(call.applied, count);
            to <= |j.data| && Lua.JobMemory(j, memory, count, call) == Patch(memory, j.address + j.offset, j.data[j.offset..to])
  {
  }

  /** The memory that the next chunk of a write leaves. */
  lemma WriteChunkMemory(j: Lua.Job, r: MemoryRequest, base: seq<byte>, memory: seq<byte>, count: nat, call: Lua.EmulatorCall)
    requires |base| == U32_LIMIT == |memory| && Sendable(r) && r.operation == Write && Lua.ValidJob(j)
    requires j.operation == Write && j.address == r.address && j.data == r.data && j.offset + count <= j.size == |r.data|
    requires memory == PartlyApplied(base, r, j.offset)
    ensures var to := WrittenAfter(r, j.offset, count, call);
            to <= |r.data| && Lua.JobMemory(j, memory, count, call) == PartlyApplied(base, r, to)
  {
    ChunkIsWritten(j, memory, count, call);
    WriteMore(base, r, j.offset, WrittenAfter(r, j.offset, count, call));
  }

  lemma WriteChunkKeepsJob(j: Lua.Job, r: MemoryRequest, base: seq<byte>, memory: seq<byte>, count: nat, call: Lua.EmulatorCall)
    requires |base| == U32_LIMIT == |memory| && Sendable(r) && r.operation == Write
    requires IsJobOf(j, r, base, memory, j.offset) && Lua.ValidJob(j) && !Lua.Finished(j) && j.offset + count <= j.size
    ensures IsJobOf(Lua.JobNext(j, memory, count, call), r, base, Lua.JobMemory(j, memory, count, call),
                    WrittenAfter(r, j.offset, count, call))
  {
    WriteChunkMemory(j, r, base, memory, count, call);
    ChunkOfJob(j, memory, count, call);
  }

  /** A chunk of a job: the pieces of split reads and writes add up, and a call that fails leaves a part of its piece. */
  lemma ChunkKeepsJob(j: Lua.Job, r: MemoryRequest, base: seq<byte>, memory: seq<byte>, written: nat, count: nat,
                      call: Lua.EmulatorCall)
    requires |base| == U32_LIMIT == |memory| && Sendable(r) && IsJobOf(j, r, base, memory, written)
    requires Lua.ValidJob(j) && !Lua.Finished(j) && j.offset + count <= j.size
    ensures IsJobOf(Lua.JobNext(j, memory, count, call), r, base, Lua.JobMemory(j, memory, count, call),
                    WrittenAfter(r, written, count, call))
  {
    if r.operation == Read {
      ReadChunkKeepsJob(j, r, base, written, count, call);
    } else {
      WriteChunkKeepsJob(j, r, base, memory, count, call);
    }
  }

  /** A job that finishes without a failure has had the effect of its request, and its response is the answer. */
  lemma FinishedJob(j: Lua.Job, r: MemoryRequest, base: seq<byte>, memory: seq<byte>, written: nat)
    requires |base| == U32_LIMIT && Sendable(r) && IsJobOf(j, r, base, memory, written)
    requires Lua.ValidJob(j) && j.response.Some? && !j.failed
    ensures memory == Apply(base, r) && written == |r.data|
    ensures j.response.value == ResultFrame(r, AnswerOver(base, r))
  {
    RequestIsAccepted(r);
    assert r.operation == Write ==> r.data[..j.size] == r.data;
  }
}
