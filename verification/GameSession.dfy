/** The app's session: request IDs, pending completions, and completions that submit or stop again.

    A completion is modelled by what it goes on to do: a finite list of calls into the session, which may depend
    on whether it was given a success, and which may submit further requests with completions of their own. */
module GameSession {
  import opened Bags
  import opened Bytes
  import opened GameMemory
  import opened FrameWriting
  import opened TransportRules
  import opened TcpLuaTransport

  const MAX_OUTSTANDING: nat := 256

  datatype Calls =
    | Done
    | Ask(request: MemoryRequest, completion: Completion, next: Calls)
    | StopThen(next: Calls)
  datatype Completion = Completion(onOk: Calls, onFailure: Calls)

  /** A submission that a completion makes. */
  type Question = (MemoryRequest, Completion)

  /** How often calls make a submission. */
  function TimesIn(calls: Calls, q: Question): nat {
    match calls
    case Done => 0
    case Ask(request, completion, next) => TimesIn(next, q) + if q == (request, completion) then 1 else 0
    case StopThen(next) => TimesIn(next, q)
  }

  predicate Stops(calls: Calls) {
    match calls
    case Done => false
    case Ask(_, _, next) => Stops(next)
    case StopThen(_) => true
  }

  function CallsAfter(c: Completion, result: MemoryResult): (calls: Calls)
    ensures calls < c
  {
    if result.status == Ok then c.onOk else c.onFailure
  }

  datatype Entry = Entry(request: PendingRequest, completion: Completion)

  /** An accepted request with its ID, and a completion that was run. */
  type Submission = (u32, Entry)
  datatype Run = Run(submission: Submission, result: MemoryResult)

  ghost predicate Answers(s: Submission, r: MemoryResult) {
    && r.id == s.0
    && (r.status == Ok ==> |r.data| == if s.1.request.operation == Read then s.1.request.expectedSize else 0)
  }

  function Requests(pending: map<u32, Entry>): map<u32, PendingRequest> {
    map id | id in pending :: pending[id].request
  }

  ghost function Completed(log: seq<Run>): multiset<Submission> {
    if log == [] then multiset{}
    else Completed(log[..|log| - 1]) + multiset{log[|log| - 1].submission}
  }

  lemma CompletedOneMore(log: seq<Run>, r: Run)
    ensures Completed(log + [r]) == Completed(log) + multiset{r.submission}
  {
    assert (log + [r])[..|log|] == log;
  }

  function CallsOf(r: Run): Calls {
    CallsAfter(r.submission.1.completion, r.result)
  }

  /** How often the completions that ran had to make a submission. */
  function TimesDue(log: seq<Run>, q: Question): nat {
    if log == [] then 0 else TimesDue(log[..|log| - 1], q) + TimesIn(CallsOf(log[|log| - 1]), q)
  }

  lemma DueOneMore(log: seq<Run>, r: Run, q: Question)
    ensures TimesDue(log + [r], q) == TimesDue(log, q) + TimesIn(CallsOf(r), q)
  {
    assert (log + [r])[..|log|] == log;
  }

  /** What the session expects from its transport. */
  ghost function Expected(pending: map<u32, Entry>): multiset<Ticket> {
    Bag(Requests(pending))
  }

  lemma ExpectedRemove(pending: map<u32, Entry>, id: u32)
    requires id in pending
    ensures Expected(pending) == Expected(pending - {id}) + multiset{(id, pending[id].request)}
  {
    BagRemove(Requests(pending), id);
    assert Requests(pending - {id}) == Requests(pending) - {id};
  }

  lemma ExpectedAdd(pending: map<u32, Entry>, id: u32, e: Entry)
    requires id !in pending
    ensures Expected(pending[id := e]) == Expected(pending) + multiset{(id, e.request)}
  {
    ExpectedRemove(pending[id := e], id);
    assert pending[id := e] - {id} == pending;
  }

  // ----- Request IDs

  const ID_COUNT: nat := U32_LIMIT - 1

  /** Zero is skipped when the counter wraps. */
  function NextId(id: u32): (next: u32)
    ensures next != 0
  {
    if id == U32_LIMIT - 1 then 1 else id + 1
  }

  /** The k-th candidate from `start`. */
  function Candidate(start: u32, k: nat): (id: u32)
    requires start != 0
    ensures id != 0
  {
    if k == 0 then start else NextId(Candidate(start, k - 1))
  }

  lemma {:induction false} CandidateIs(start: u32, k: nat)
    requires start != 0
    ensures Candidate(start, k) == (start - 1 + k) % ID_COUNT + 1
  {
    if k != 0 {
      CandidateIs(start, k - 1);
    }
  }

  lemma CandidatesDiffer(start: u32, i: nat, j: nat)
    requires start != 0 && i < j < ID_COUNT
    ensures Candidate(start, i) != Candidate(start, j)
  {
    CandidateIs(start, i);
    CandidateIs(start, j);
  }

  ghost function Candidates(start: u32, n: nat): set<u32>
    requires start != 0
  {
    if n == 0 then {} else Candidates(start, n - 1) + {Candidate(start, n - 1)}
  }

  lemma {:induction false} LaterIsNew(start: u32, n: nat, k: nat)
    requires start != 0 && n <= k < ID_COUNT
    ensures Candidate(start, k) !in Candidates(start, n)
    decreases n
  {
    if n != 0 {
      LaterIsNew(start, n - 1, k);
      CandidatesDiffer(start, n - 1, k);
    }
  }

  lemma {:induction false} CandidatesCount(start: u32, n: nat)
    requires start != 0 && n <= ID_COUNT
    ensures |Candidates(start, n)| == n
  {
    if n != 0 {
      CandidatesCount(start, n - 1);
      LaterIsNew(start, n - 1, n - 1);
    }
  }

  lemma {:induction false} CandidatesContain(start: u32, n: nat)
    requires start != 0
    ensures forall k :: 0 <= k < n ==> Candidate(start, k) in Candidates(start, n)
  {
    if n != 0 {
      CandidatesContain(start, n - 1);
    }
  }

  // ----- Sessions as values

  datatype Session = Session(pending: map<u32, Entry>, nextRequestId: u32, protocolErrorCount: nat, stopped: bool)

  /** What Read and Write returned true for, which completions ran, which ran for a request that was refused, and every
      call of Read and Write. */
  datatype Books = Books(submitted: multiset<Submission>, log: seq<Run>, refused: seq<Run>, asked: multiset<Question>)

  const NEW_SESSION: Session := Session(map[], 1, 0, false)
  const NEW_BOOKS: Books := Books(multiset{}, [], [], multiset{})

  /** Every submission is pending, or among `extra`, or its completion ran once, with an answer of the right shape. */
  ghost predicate ValidSession(s: Session, b: Books, extra: multiset<Submission>) {
    && s.nextRequestId != 0 && 0 !in s.pending && |s.pending| <= MAX_OUTSTANDING
    && (s.stopped ==> s.pending == map[])
    && b.submitted == Bag(s.pending) + Completed(b.log) + extra
    && (forall r :: r in b.log ==> Answers(r.submission, r.result))
  }

  /** The pending requests are those that the transport still owes an answer, or whose answers are `coming`. */
  ghost predicate Balanced(s: Session, owed: multiset<Ticket>, coming: multiset<Ticket>) {
    !s.stopped ==> Expected(s.pending) == owed + coming
  }

  /** What every call keeps, whatever the completions did. */
  ghost predicate Advances(s: Session, b: Books, t: Session, c: Books) {
    && (s.stopped ==> t == s.(protocolErrorCount := t.protocolErrorCount) && c == b.(asked := c.asked))
    && b.log <= c.log && b.refused <= c.refused && b.submitted <= c.submitted
    && (!t.stopped ==> t.protocolErrorCount == s.protocolErrorCount)
  }

  /** Calls into the session take nothing off the books while it runs: no pending request is answered or changed. */
  ghost predicate LeavesPending(s: Session, b: Books, t: Session, c: Books) {
    && t.protocolErrorCount == s.protocolErrorCount
    && (!t.stopped ==> c.log == b.log && StaysPending(s.pending, t.pending))
  }

  ghost predicate StaysPending(before: map<u32, Entry>, after: map<u32, Entry>) {
    forall id :: id in before ==> id in after && after[id] == before[id]
  }

  /** From one state of the books to another, every submission that a completion had to make was made, each once, and
      besides those only the ones of `own`. */
  ghost predicate Asked(b: Books, c: Books, own: Calls) {
    forall q: Question :: TimesAsked(c, q) + AllDue(b, q) == TimesAsked(b, q) + AllDue(c, q) + TimesIn(own, q)
  }

  function TimesAsked(b: Books, q: Question): nat {
    b.asked[q]
  }

  function AllDue(b: Books, q: Question): nat {
    TimesDue(b.log, q) + TimesDue(b.refused, q)
  }

  /** `z` makes the submissions of `x` and `y`. */
  ghost predicate AreBoth(x: Calls, y: Calls, z: Calls) {
    forall q: Question :: TimesIn(z, q) == TimesIn(x, q) + TimesIn(y, q)
  }

  lemma AskedBoth(b: Books, c: Books, d: Books, x: Calls, y: Calls, z: Calls)
    requires Asked(b, c, x) && Asked(c, d, y) && AreBoth(x, y, z)
    ensures Asked(b, d, z)
  {
    forall q: Question
      ensures TimesAsked(d, q) + AllDue(b, q) == TimesAsked(b, q) + AllDue(d, q) + TimesIn(z, q)
    {
      assert TimesAsked(c, q) + AllDue(b, q) == TimesAsked(b, q) + AllDue(c, q) + TimesIn(x, q);
    }
  }

  /** A completion ran, and made its calls. */
  lemma RunAsked(b: Books, c: Books, d: Books, run: Run)
    requires c == b.(log := b.log + [run]) || c == b.(refused := b.refused + [run])
    requires Asked(c, d, CallsOf(run))
    ensures Asked(b, d, Done)
  {
    forall q: Question ensures TimesAsked(d, q) + AllDue(b, q) == TimesAsked(b, q) + AllDue(d, q) {
      DueOneMore(b.log, run, q);
      DueOneMore(b.refused, run, q);
      assert TimesAsked(c, q) == TimesAsked(b, q) && AllDue(c, q) == AllDue(b, q) + TimesIn(CallsOf(run), q);
    }
  }

  /** The runs that results for pending requests call for. */
  ghost function RunsOf(pending: map<u32, Entry>, handed: seq<MemoryResult>): (runs: seq<Run>)
    requires forall r <- handed :: r.id in pending
    ensures |runs| == |handed|
  {
    if handed == [] then []
    else
      var last := handed[|handed| - 1];
      RunsOf(pending, handed[..|handed| - 1]) + [Run((last.id, pending[last.id]), last)]
  }

  /** Results for different pending requests. */
  ghost predicate ArePending(pending: map<u32, Entry>, handed: seq<MemoryResult>) {
    && (forall r <- handed :: r.id in pending)
    && (forall i, j :: 0 <= i < j < |handed| ==> Differ(handed, i, j))
  }

  predicate Differ(handed: seq<MemoryResult>, i: nat, j: nat)
    requires i < |handed| && j < |handed|
  {
    handed[i].id != handed[j].id
  }

  /** What a poll makes of the first `n` results it was handed: the completions of the requests that they answer run, in
      order, each with its result as it came; unless one of them stops the session, and then no later result is used. */
  ghost predicate Handles(s: Session, b: Books, handed: seq<MemoryResult>, n: nat, ran: nat, t: Session, c: Books)
    requires ArePending(s.pending, handed)
  {
    && ran <= n <= |handed|
    && b.log + RunsOf(s.pending, handed[..ran]) <= c.log
    && (if t.stopped then ran > 0 else ran == n && c.log == b.log + RunsOf(s.pending, handed[..n]))
    && (forall i :: 0 <= i < ran && Stops(CallsAfter(s.pending[handed[i].id].completion, handed[i])) ==> t.stopped)
    && t.protocolErrorCount == s.protocolErrorCount + n - ran
    && Asked(b, c, Done)
  }

  lemma TicketsDiffer(pending: map<u32, Entry>, owed: multiset<Ticket>, tickets: seq<Ticket>, i: nat, j: nat)
    requires Expected(pending) == owed + multiset(tickets) && i < j < |tickets|
    ensures tickets[i].0 != tickets[j].0
  {
    var k := tickets[i];
    assert k in Expected(pending) && tickets[j] in Expected(pending);
    assert tickets == tickets[..j] + tickets[j..];
    assert tickets[i] in tickets[..j] && tickets[j] in tickets[j..];
    assert Expected(pending)[k] <= 1;
  }
  /** A session, its books, and the state of its transport, what that has handed out, and what it holds. */
  datatype Snapshot = Snapshot(
    session: Session, books: Books, link: TransportState, delivered: multiset<Ticket>, results: seq<MemoryResult>)

  /** Nothing is handed out, and the only new results are for requests that no frame can carry. */
  ghost predicate HoldsMore(p: Snapshot, q: Snapshot) {
    && q.link == p.link && q.delivered == p.delivered && p.results <= q.results
    && forall i :: |p.results| <= i < |q.results| ==> q.results[i].status == InvalidSize
  }

  /** What calls into a session do, whatever completions they run. */
  ghost predicate Does(p: Snapshot, q: Snapshot, own: Calls) {
    && Advances(p.session, p.books, q.session, q.books) && LeavesPending(p.session, p.books, q.session, q.books)
    && HoldsMore(p, q) && Asked(p.books, q.books, own)
  }

  lemma DoesBoth(p: Snapshot, q: Snapshot, r: Snapshot, x: Calls, y: Calls, z: Calls)
    requires Does(p, q, x) && Does(q, r, y) && AreBoth(x, y, z)
    ensures Does(p, r, z)
  {
    AskedBoth(p.books, q.books, r.books, x, y, z);
  }

  /** One call after the other. */
  lemma DoesInTurn(p: Snapshot, q: Snapshot, r: Snapshot, calls: Calls)
    requires !calls.Done? && Does(q, r, calls.next)
    requires Does(p, q, if calls.Ask? then Ask(calls.request, calls.completion, Done) else Done)
    ensures Does(p, r, calls)
  {
    DoesBoth(p, q, r, if calls.Ask? then Ask(calls.request, calls.completion, Done) else Done, calls.next, calls);
  }

  lemma RecordedThenDoes(p: Snapshot, request: MemoryRequest, completion: Completion, r: Snapshot)
    requires Does(p.(books := Recorded(p.books, request, completion)), r, Done)
    ensures Does(p, r, Ask(request, completion, Done))
  {
    var q, own := p.(books := Recorded(p.books, request, completion)), Ask(request, completion, Done);
    assert forall x: Question :: TimesIn(own, x) == if x == (request, completion) then 1 else 0;
    assert Asked(p.books, q.books, own);
    DoesBoth(p, q, r, own, Done, own);
  }

  /** The transport took the request exactly if it can, and did nothing else. */
  ghost predicate IsForwarded(before: Transport, after: Transport, request: MemoryRequest, ok: bool) {
    && (ok <==> CanSubmit(before, request))
    && after == if ok then Submitted(before, request) else before
  }

  /** The completion of a request that was refused ran first of all, with the status. */
  ghost predicate IsRefused(b: Books, c: Books, completion: Completion, status: Status) {
    && b.refused < c.refused
    && var r := c.refused[|b.refused|];
       r.submission.1.completion == completion && r.result.status == status
  }

  ghost function Recorded(b: Books, request: MemoryRequest, completion: Completion): Books {
    b.(asked := b.asked + multiset{(request, completion)})
  }

  ghost function Added(s: Session, id: u32, e: Entry): Session {
    s.(pending := s.pending[id := e])
  }

  ghost function AddedTo(b: Books, id: u32, e: Entry): Books {
    b.(submitted := b.submitted + multiset{(id, e)})
  }

  lemma AddIsValid(s: Session, b: Books, extra: multiset<Submission>, id: u32, e: Entry,
                   owed: multiset<Ticket>, coming: multiset<Ticket>)
    requires ValidSession(s, b, extra) && Balanced(s, owed, coming)
    requires !s.stopped && id != 0 && id !in s.pending && |s.pending| < MAX_OUTSTANDING
    ensures ValidSession(Added(s, id, e), AddedTo(b, id, e), extra)
    ensures Balanced(Added(s, id, e), owed + multiset{(id, e.request)}, coming)
  {
    BagAdd(s.pending, id, e);
    ExpectedAdd(s.pending, id, e);
  }

  function Removed(s: Session, id: u32): Session {
    s.(pending := s.pending - {id})
  }

  ghost function RunOf(s: Session, id: u32, result: MemoryResult): Run
    requires id in s.pending
  {
    Run((id, s.pending[id]), result)
  }

  lemma CompleteIsValid(s: Session, b: Books, id: u32, result: MemoryResult, owed: multiset<Ticket>,
                        coming: multiset<Ticket>)
    requires ValidSession(s, b, multiset{}) && id in s.pending
    requires Answers((id, s.pending[id]), result)
    requires Balanced(s, owed, coming) && (id, s.pending[id].request) in coming
    ensures ValidSession(Removed(s, id), b.(log := b.log + [RunOf(s, id, result)]), multiset{})
    ensures Balanced(Removed(s, id), owed, coming - multiset{(id, s.pending[id].request)})
  {
    BagRemove(s.pending, id);
    ExpectedRemove(s.pending, id);
    CompletedOneMore(b.log, RunOf(s, id, result));
    MoveOver(Bag(s.pending - {id}), (id, s.pending[id]), Completed(b.log), multiset{});
    if !s.stopped {
      TakeOut(Expected(s.pending - {id}), (id, s.pending[id].request), owed, coming);
    }
  }

  ghost function StopRun(left: map<u32, Entry>, id: u32): Run
    requires id in left
  {
    Run((id, left[id]), MemoryResult(id, Status.Disconnected, []))
  }

  lemma StopStarts(s: Session, b: Books, extra: multiset<Submission>)
    requires ValidSession(s, b, extra)
    ensures ValidSession(s.(stopped := true, pending := map[]), b, extra + Bag(s.pending))
  {
    assert Bag<u32, Entry>(map[]) == multiset{};
  }

  lemma AllCompleted(s: Session, b: Books, extra: multiset<Submission>)
    requires ValidSession(s, b, extra) && s.stopped
    ensures b.submitted == Completed(b.log) + extra
  {
    assert Bag<u32, Entry>(map[]) == multiset{};
  }

  lemma StopOneIsValid(s: Session, b: Books, left: map<u32, Entry>, id: u32, extra: multiset<Submission>)
    requires ValidSession(s, b, extra + Bag(left)) && id in left
    ensures ValidSession(s, b.(log := b.log + [StopRun(left, id)]), extra + Bag(left - {id}))
  {
    BagRemove(left, id);
    CompletedOneMore(b.log, StopRun(left, id));
    MoveOver(Bag(left - {id}), (id, left[id]), Completed(b.log), extra);
  }

  /** A ticket that is coming is pending under its ID, with its operation and size. */
  lemma ComingIsPending(s: Session, owed: multiset<Ticket>, k: Ticket, coming: multiset<Ticket>)
    requires Balanced(s, owed, coming) && !s.stopped && k in coming
    ensures k.0 in s.pending && s.pending[k.0].request == k.1
  {
    assert k in Expected(s.pending);
  }

  /** A success of the wrong shape. */
  predicate IsMisfit(request: PendingRequest, result: MemoryResult) {
    var validRead := request.operation == Read && |result.data| == request.expectedSize;
    var validWrite := request.operation == Write && result.data == [];
    result.status == Ok && !validRead && !validWrite
  }

  /** What the session makes of a result for a pending request. */
  function Handled(s: Session, result: MemoryResult): (Session, MemoryResult)
    requires result.id in s.pending
  {
    var misfit := IsMisfit(s.pending[result.id].request, result);
    var t := s.(pending := s.pending - {result.id});
    if misfit then
      (t.(protocolErrorCount := s.protocolErrorCount + 1), MemoryResult(result.id, Status.ProtocolError, []))
    else (t, result)
  }

  /** A result that fits its ticket is passed on as it is. */
  lemma HandledAsIs(s: Session, k: Ticket, result: MemoryResult)
    requires k.0 in s.pending && s.pending[k.0].request == k.1 && Fits(k, result)
    ensures Handled(s, result) == (Removed(s, result.id), result)
    ensures Answers((result.id, s.pending[result.id]), result)
  {
  }

  /** The later completions were told that the connection is gone. */
  ghost predicate AreCancelled(before: seq<Run>, after: seq<Run>) {
    forall i :: |before| <= i < |after| ==>
      after[i].result == MemoryResult(after[i].submission.0, Status.Disconnected, [])
  }

  /** What becomes of a session that has stopped while the completions of its pending requests run. */
  ghost predicate IsReleased(s: Session, b: Books, t: Session, c: Books) {
    && t == s && t.stopped
    && b.log <= c.log && AreCancelled(b.log, c.log) && c.refused == b.refused && c.submitted == b.submitted && Asked(b, c, Done)
  }

  /** One result of a session that has not stopped. */
  ghost predicate IsHandled(s: Session, b: Books, result: MemoryResult, t: Session, c: Books)
    requires result.id in s.pending
  {
    var run := RunOf(s, result.id, result);
    && b.log + [run] <= c.log && (Stops(CallsOf(run)) ==> t.stopped)
    && (!t.stopped ==> c.log == b.log + [run] && StaysPending(s.pending - {result.id}, t.pending))
  }

  /** The later results are for requests that are still pending as they were. */
  ghost predicate RestIsPending(before: map<u32, Entry>, handed: seq<MemoryResult>, index: nat, now: map<u32, Entry>)
    requires ArePending(before, handed)
  {
    forall i :: index <= i < |handed| ==> handed[i].id in now && now[handed[i].id] == before[handed[i].id]
  }

  /** A poll after `index` of its results. */
  ghost predicate IsHandling(s: Session, b: Books, handed: seq<MemoryResult>, index: nat, ran: nat, t: Session, c: Books)
    requires ArePending(s.pending, handed)
  {
    Handles(s, b, handed, index, ran, t, c) && (!t.stopped ==> RestIsPending(s.pending, handed, index, t.pending))
  }

  ghost predicate IsPolling(p: Snapshot, handed: seq<MemoryResult>, index: nat, ran: nat, q: Snapshot)
    requires ArePending(p.session.pending, handed)
  {
    && IsHandling(p.session, p.books, handed, index, ran, q.session, q.books)
    && Advances(p.session, p.books, q.session, q.books) && HoldsMore(p, q)
  }

  /** The first `index` results are dealt with. */
  ghost predicate HasHandled(p: Snapshot, handed: seq<MemoryResult>, index: nat, q: Snapshot)
    requires ArePending(p.session.pending, handed)
  {
    exists ran: nat :: IsPolling(p, handed, index, ran, q)
  }

  lemma HandlingStarts(p: Snapshot, owed: multiset<Ticket>, tickets: seq<Ticket>, handed: seq<MemoryResult>)
    requires Expected(p.session.pending) == owed + multiset(tickets) && !p.session.stopped
    requires |tickets| == |handed| && forall i :: 0 <= i < |handed| ==> Fits(tickets[i], handed[i])
    ensures ArePending(p.session.pending, handed) && HasHandled(p, handed, 0, p)
  {
    var pending := p.session.pending;
    forall i | 0 <= i < |handed| ensures handed[i].id in pending {
      assert tickets[i] in Expected(pending) && Fits(tickets[i], handed[i]);
    }
    forall i, j | 0 <= i < j < |handed| ensures Differ(handed, i, j) {
      assert Fits(tickets[i], handed[i]) && Fits(tickets[j], handed[j]);
      TicketsDiffer(pending, owed, tickets, i, j);
    }
    assert handed[..0] == [] && p.books.log + [] == p.books.log;
    assert IsPolling(p, handed, 0, 0, p);
  }

  lemma RunsOneMore(pending: map<u32, Entry>, handed: seq<MemoryResult>, index: nat)
    requires index < |handed| && forall r <- handed :: r.id in pending
    ensures RunsOf(pending, handed[..index + 1])
         == RunsOf(pending, handed[..index]) + [Run((handed[index].id, pending[handed[index].id]), handed[index])]
  {
    assert handed[..index + 1][..index] == handed[..index];
  }

  /** One more result of a session that has not stopped. */
  lemma OneMoreHandled(s: Session, b: Books, handed: seq<MemoryResult>, index: nat, t: Session, c: Books, u: Session,
                       d: Books)
    requires ArePending(s.pending, handed) && index < |handed| && !t.stopped && handed[index].id in t.pending
    requires IsHandling(s, b, handed, index, index, t, c)
    requires Asked(c, d, Done) && u.protocolErrorCount == t.protocolErrorCount
    requires IsHandled(t, c, handed[index], u, d)
    ensures IsHandling(s, b, handed, index + 1, index + 1, u, d)
  {
    AskedBoth(b, c, d, Done, Done, Done);
    RunsOneMore(s.pending, handed, index);
    var run := RunOf(t, handed[index].id, handed[index]);
    forall i | index + 1 <= i < |handed| && !u.stopped
      ensures handed[i].id in u.pending && u.pending[handed[i].id] == s.pending[handed[i].id]
    {
      assert Differ(handed, index, i) && handed[i].id in t.pending - {handed[index].id};
    }
    assert b.log + RunsOf(s.pending, handed[..index + 1]) == c.log + [run];
  }

  /** One more result after a completion has stopped the session. */
  lemma OneMoreDropped(s: Session, b: Books, handed: seq<MemoryResult>, index: nat, ran: nat, t: Session, c: Books,
                       u: Session, d: Books)
    requires ArePending(s.pending, handed) && index < |handed| && t.stopped
    requires IsHandling(s, b, handed, index, ran, t, c)
    requires Advances(t, c, u, d) && Asked(c, d, Done) && u.protocolErrorCount == t.protocolErrorCount + 1
    ensures IsHandling(s, b, handed, index + 1, ran, u, d)
  {
    AskedBoth(b, c, d, Done, Done, Done);
  }

  lemma OneMoreResult(p: Snapshot, handed: seq<MemoryResult>, index: nat, q: Snapshot, r: Snapshot)
    requires ArePending(p.session.pending, handed) && index < |handed| && HasHandled(p, handed, index, q)
    requires Advances(q.session, q.books, r.session, r.books) && HoldsMore(q, r) && Asked(q.books, r.books, Done)
    requires r.session.protocolErrorCount == q.session.protocolErrorCount + if q.session.stopped then 1 else 0
    requires !q.session.stopped ==> && handed[index].id in q.session.pending
                                    && IsHandled(q.session, q.books, handed[index], r.session, r.books)
    ensures HasHandled(p, handed, index + 1, r)
  {
    var ran: nat :| IsPolling(p, handed, index, ran, q);
    if q.session.stopped {
      OneMoreDropped(p.session, p.books, handed, index, ran, q.session, q.books, r.session, r.books);
      assert IsPolling(p, handed, index + 1, ran, r);
    } else {
      OneMoreHandled(p.session, p.books, handed, index, q.session, q.books, r.session, r.books);
      assert IsPolling(p, handed, index + 1, ran + 1, r);
    }
  }

  /** A request that is accepted, or refused by the transport. */
  lemma SubmittingDoes(p: Snapshot, q: Snapshot, id: u32, e: Entry, ok: bool)
    requires id !in p.session.pending && !p.session.stopped && HoldsMore(p, q)
    requires q.session == if ok then Added(p.session, id, e) else p.session
    requires q.books == if ok then AddedTo(p.books, id, e) else p.books
    ensures Does(p, q, Done)
  {
  }

  // ----- The session

  class GameSession {
    const transport: TcpLuaTransport
    var pending: map<u32, Entry>
    var nextRequestId: u32
    var protocolErrorCount: nat
    var stopped: bool
    ghost var books: Books

    function State(): Session
      reads this
    {
      Session(pending, nextRequestId, protocolErrorCount, stopped)
    }

    ghost predicate Valid(extra: multiset<Submission>)
      reads this
    {
      ValidSession(State(), books, extra)
    }

    ghost predicate Linked(coming: multiset<Ticket>)
      reads this, transport
    {
      transport.Valid() && Balanced(State(), transport.ledger.owed, coming)
    }

    ghost function Now(): Snapshot
      reads this, transport
    {
      Snapshot(State(), books, transport.state, transport.ledger.delivered, transport.results)
    }

    constructor (transport: TcpLuaTransport)
      ensures State() == NEW_SESSION && books == NEW_BOOKS && Valid(multiset{}) && this.transport == transport
    {
      this.transport := transport;
      pending, nextRequestId, protocolErrorCount, stopped := map[], 1, 0, false;
      books := NEW_BOOKS;
    }

    predicate CanSubmit()
      reads this, transport
    {
      !stopped && transport.state == Connected && |pending| < MAX_OUTSTANDING
    }

    /** `AllocateRequestId`: a nonzero ID that is not pending, after at most one try more than there are pending
        requests, also across the wrap of the counter. */
    method AllocateRequestId() returns (id: u32, ghost tries: nat)
      requires nextRequestId != 0 && |pending| <= MAX_OUTSTANDING
      modifies this`nextRequestId
      ensures id != 0 && id !in pending && nextRequestId != 0
      ensures 1 <= tries <= |pending| + 1
      ensures id == Candidate(old(nextRequestId), tries - 1)
      ensures forall k :: 0 <= k < tries - 1 ==> Candidate(old(nextRequestId), k) in pending
    {
      tries := 0;
      ghost var start := nextRequestId;
      while true
        invariant tries <= |pending| && Candidates(start, tries) <= pending.Keys
        invariant nextRequestId == Candidate(start, tries)
        decreases |pending| - tries
      {
        id := nextRequestId;
        nextRequestId := Incremented(nextRequestId);
        tries := tries + 1;
        if id != 0 && id !in pending {
          CandidatesContain(start, tries - 1);
          return;
        }
        CandidatesCount(start, tries);
        CardinalityOfSubset(Candidates(start, tries), pending.Keys);
      }
    }

    /** `m_NextRequestId++` in 32 bits, and past zero. */
    method Incremented(counter: u32) returns (next: u32)
      ensures next == NextId(counter)
    {
      next := (counter + 1) % U32_LIMIT;
      if next == 0 {
        next := 1;
      }
    }

    /** `Submit`, which is behind `Read` and `Write`. A request that is accepted waits for its answer; an invalid one
        has its completion run at once, and is refused; any other refusal changes at most the request counter. */
    method Submit(request: MemoryRequest, completion: Completion,
                  ghost coming: multiset<Ticket>, ghost extra: multiset<Submission>) returns (ok: bool, ghost id: u32)
      requires Valid(extra) && Linked(coming)
      modifies this, transport
      ensures Valid(extra) && Linked(coming)
      ensures Does(old(Now()), Now(), Ask(request, completion, Done))
      ensures old(stopped) ==> unchanged(transport)
      ensures ok ==> && old(CanSubmit()) && id != 0 && id !in old(pending)
                     && State() == Added(old(State()), id, NewEntry(request, completion)).(nextRequestId := nextRequestId)
                     && books == AddedTo(Recorded(old(books), request, completion), id, NewEntry(request, completion))
      ensures !ok && !(old(CanSubmit()) && IsInvalid(request)) ==>
                && State() == old(State()).(nextRequestId := nextRequestId)
                && books == Recorded(old(books), request, completion)
      ensures !old(CanSubmit()) ==> !ok && transport.State() == old(transport.State())
      ensures old(CanSubmit()) && !IsInvalid(request) ==>
                IsForwarded(old(transport.State()), transport.State(), request.(id := id), ok)
      ensures old(CanSubmit()) && IsInvalid(request) ==>
                !ok && IsRefused(old(books), books, completion, ValidateMemoryRequest(request.(id := 1)))
      decreases if stopped then 1 else 4, completion, 3
    {
      books := Recorded(books, request, completion);
      ok, id := SubmitNew(request, completion, coming, extra);
      RecordedThenDoes(old(Now()), request, completion, Now());
    }

    /** `Submit` once the call is on the books. */
    method SubmitNew(request: MemoryRequest, completion: Completion,
                       ghost coming: multiset<Ticket>, ghost extra: multiset<Submission>) returns (ok: bool, ghost id: u32)
      requires Valid(extra) && Linked(coming)
      modifies this, transport
      ensures Valid(extra) && Linked(coming)
      ensures Does(old(Now()), Now(), Done)
      ensures old(stopped) ==> unchanged(transport)
      ensures ok ==> && old(CanSubmit()) && id != 0 && id !in old(pending)
                     && State() == Added(old(State()), id, NewEntry(request, completion)).(nextRequestId := nextRequestId)
                     && books == AddedTo(old(books), id, NewEntry(request, completion))
      ensures !ok && !(old(CanSubmit()) && IsInvalid(request)) ==>
                State() == old(State()).(nextRequestId := nextRequestId) && books == old(books)
      ensures !old(CanSubmit()) ==> !ok && transport.State() == old(transport.State())
      ensures old(CanSubmit()) && !IsInvalid(request) ==>
                IsForwarded(old(transport.State()), transport.State(), request.(id := id), ok)
      ensures old(CanSubmit()) && IsInvalid(request) ==>
                !ok && IsRefused(old(books), books, completion, ValidateMemoryRequest(request.(id := 1)))
      decreases if stopped then 1 else 4, completion, 2
    {
      if !CanSubmit() {
        return false, 1;
      }
      var number := NewId(coming, extra);
      id := number;
      ok := SubmitAs(number, request, completion, coming, extra);
    }

    /** `Submit` once the request has its ID. */
    method SubmitAs(id: u32, request: MemoryRequest, completion: Completion,
                    ghost coming: multiset<Ticket>, ghost extra: multiset<Submission>) returns (ok: bool)
      requires Valid(extra) && Linked(coming) && CanSubmit() && id != 0 && id !in pending
      modifies this, transport
      ensures Valid(extra) && Linked(coming)
      ensures Does(old(Now()), Now(), Done)
      ensures ok ==> && State() == Added(old(State()), id, NewEntry(request, completion))
                     && books == AddedTo(old(books), id, NewEntry(request, completion))
      ensures !ok && !IsInvalid(request) ==> State() == old(State()) && books == old(books)
      ensures !IsInvalid(request) ==> IsForwarded(old(transport.State()), transport.State(), request.(id := id), ok)
      ensures IsInvalid(request) ==>
                !ok && IsRefused(old(books), books, completion, ValidateMemoryRequest(request.(id := 1)))
      decreases if stopped then 1 else 4, completion, 1
    {
      IdIsIrrelevant(request, id);
      var validation := ValidateMemoryRequest(request.(id := id));
      if validation != Ok {
        Refuse(id, request, validation, completion, coming, extra);
        return false;
      }
      ok := Forward(request.(id := id), completion, coming, extra);
    }

    method NewId(ghost coming: multiset<Ticket>, ghost extra: multiset<Submission>) returns (id: u32)
      requires Valid(extra) && Linked(coming)
      modifies this`nextRequestId
      ensures Valid(extra) && Linked(coming) && id != 0 && id !in pending
    {
      ghost var tries;
      id, tries := AllocateRequestId();
    }

    function NewEntry(request: MemoryRequest, completion: Completion): Entry {
      Entry(RequestOf(request), completion)
    }

    predicate IsInvalid(request: MemoryRequest) {
      ValidateMemoryRequest(request.(id := 1)) != Ok
    }

    /** An invalid request: its completion runs before Read or Write returns false. */
    method Refuse(id: u32, request: MemoryRequest, status: Status, completion: Completion,
                  ghost coming: multiset<Ticket>, ghost extra: multiset<Submission>)
      requires Valid(extra) && Linked(coming) && status != Ok && !stopped
      modifies this, transport
      ensures Valid(extra) && Linked(coming)
      ensures Does(old(Now()), Now(), Done)
      ensures IsRefused(old(books), books, completion, status)
      decreases if stopped then 1 else 4, completion, 0
    {
      var result := MemoryResult(id, status, []);
      ghost var run := Run((id, NewEntry(request, completion)), result);
      books := books.(refused := books.refused + [run]);
      ghost var before := books;
      assert before.refused[|old(books).refused|] == run;
      RunCalls(completion.onFailure, coming, extra);
      RunAsked(old(books), before, books, run);
      assert books.refused[|old(books).refused|] == run;
    }

    /** A valid request: pending first, then submitted to the transport, and not pending if that fails. */
    method Forward(request: MemoryRequest, completion: Completion,
                   ghost coming: multiset<Ticket>, ghost extra: multiset<Submission>) returns (ok: bool)
      requires Valid(extra) && Linked(coming) && CanSubmit() && request.id != 0 && request.id !in pending
      requires ValidateMemoryRequest(request) == Ok
      modifies this, transport
      ensures Valid(extra) && Linked(coming) && Does(old(Now()), Now(), Done)
      ensures IsForwarded(old(transport.State()), transport.State(), request, ok)
      ensures State() == if ok then Added(old(State()), request.id, NewEntry(request, completion)) else old(State())
      ensures books == if ok then AddedTo(old(books), request.id, NewEntry(request, completion)) else old(books)
    {
      AddIsValid(State(), books, extra, request.id, NewEntry(request, completion), transport.ledger.owed, coming);
      ok := Emplace(request, NewEntry(request, completion));
      SubmittingDoes(old(Now()), Now(), request.id, NewEntry(request, completion), ok);
    }

    method Emplace(request: MemoryRequest, e: Entry) returns (ok: bool)
      requires transport.Valid() && request.id !in pending && e.request == RequestOf(request)
      requires ValidateMemoryRequest(request) == Ok
      modifies this, transport
      ensures transport.Valid()
      ensures State() == if ok then Added(old(State()), request.id, e) else old(State())
      ensures books == if ok then AddedTo(old(books), request.id, e) else old(books)
      ensures transport.ledger.owed
           == old(transport.ledger.owed) + if ok then multiset{(request.id, e.request)} else multiset{}
      ensures HoldsMore(old(Now()), Now()) && IsForwarded(old(transport.State()), transport.State(), request, ok)
    {
      ghost var before := State();
      pending := pending[request.id := e];
      ok := HandOver(request);
      if ok {
        books := AddedTo(books, request.id, e);
      } else {
        Erase(request.id, before, e);
      }
    }

    method Erase(id: u32, ghost before: Session, ghost e: Entry)
      requires State() == Added(before, id, e) && id !in before.pending
      modifies this`pending
      ensures State() == before
    {
      pending := pending - {id};
      assert pending == before.pending;
    }

    method HandOver(request: MemoryRequest) returns (ok: bool)
      requires transport.Valid() && ValidateMemoryRequest(request) == Ok
      modifies transport
      ensures transport.Valid()
      ensures transport.ledger.owed
           == old(transport.ledger.owed) + if ok then multiset{(request.id, RequestOf(request))} else multiset{}
      ensures HoldsMore(old(Now()), Now()) && IsForwarded(old(transport.State()), transport.State(), request, ok)
    {
      ok := transport.Submit(request);
    }

    /** One result of a poll whose ticket is `k`: unless a completion has stopped the session, it belongs to a pending
        request, and its completion runs once, with the result as it came. */
    method HandleResult(result: MemoryResult, ghost k: Ticket, ghost coming: multiset<Ticket>)
      requires Valid(multiset{}) && Linked(coming) && k in coming && Fits(k, result)
      modifies this, transport
      ensures Valid(multiset{}) && Linked(coming - multiset{k})
      ensures Advances(old(State()), old(books), State(), books)
      ensures HoldsMore(old(Now()), Now())
      ensures Asked(old(books), books, Done)
      ensures protocolErrorCount == old(protocolErrorCount) + if old(stopped) then 1 else 0
      ensures !old(stopped) ==> && result.id in old(pending)
                                && IsHandled(old(State()), old(books), result, State(), books)
    {
      if !stopped {
        ComingIsPending(State(), transport.ledger.owed, k, coming);
      }
      if result.id !in pending {
        CountUnknown(k, coming);
        return;
      }
      var completion := TakeOff(result, k, coming);
      Dispatch(completion, result, RunOf(old(State()), result.id, result), old(books), coming - multiset{k});
    }

    /** A result for no pending request: the session has stopped, or one of its completions has. */
    method CountUnknown(ghost k: Ticket, ghost coming: multiset<Ticket>)
      requires Valid(multiset{}) && Linked(coming) && stopped
      modifies this`protocolErrorCount
      ensures Valid(multiset{}) && Linked(coming - multiset{k}) && stopped
      ensures Advances(old(State()), old(books), State(), books)
      ensures protocolErrorCount == old(protocolErrorCount) + 1
    {
      protocolErrorCount := protocolErrorCount + 1;
    }

    /** Takes the request that `result` answers off the books. */
    method TakeOff(result: MemoryResult, ghost k: Ticket, ghost coming: multiset<Ticket>) returns (completion: Completion)
      requires Valid(multiset{}) && Linked(coming) && k in coming && Fits(k, result)
      requires !stopped && k.0 in pending && pending[k.0].request == k.1
      modifies this
      ensures Valid(multiset{}) && Linked(coming - multiset{k})
      ensures State() == Removed(old(State()), result.id) && completion == old(pending)[result.id].completion
      ensures books == old(books).(log := old(books).log + [RunOf(old(State()), result.id, result)])
    {
      HandledAsIs(State(), k, result);
      CompleteIsValid(State(), books, result.id, result, transport.ledger.owed, coming);
      completion := pending[result.id].completion;
      Record(result);
    }

    method Record(result: MemoryResult)
      requires result.id in pending
      modifies this
      ensures State() == Handled(old(State()), result).0
      ensures books == old(books).(log := old(books).log + [RunOf(old(State()), result.id, Handled(old(State()), result).1)])
    {
      var found := pending[result.id];
      var checked := result;
      if IsMisfit(found.request, result) {
        checked := MemoryResult(result.id, Status.ProtocolError, []);
        protocolErrorCount := protocolErrorCount + 1;
      }
      pending := pending - {result.id};
      books := books.(log := books.log + [Run((result.id, found), checked)]);
    }

    /** Runs the completion of a request that was taken off the books, which were `before`. */
    method Dispatch(completion: Completion, result: MemoryResult, ghost run: Run, ghost before: Books,
                    ghost coming: multiset<Ticket>)
      requires Valid(multiset{}) && Linked(coming) && books == before.(log := before.log + [run])
      requires CallsOf(run) == CallsAfter(completion, result)
      modifies this, transport
      ensures Valid(multiset{}) && Linked(coming)
      ensures Advances(old(State()), old(books), State(), books) && LeavesPending(old(State()), old(books), State(), books)
      ensures HoldsMore(old(Now()), Now())
      ensures Asked(before, books, Done) && before.log + [run] <= books.log
      ensures Stops(CallsOf(run)) ==> stopped
    {
      RunCalls(CallsAfter(completion, result), coming, multiset{});
      RunAsked(before, old(books), books, run);
    }

    /** `Poll`: every result that the transport hands out is dealt with; a success of the wrong shape cannot happen.
        The transport is left with results only for requests that no frame can carry, submitted by completions. */
    method Poll(net: Network)
      returns (handed: seq<MemoryResult>, consumed: nat, ghost poll: PollTrace, ghost tickets: seq<Ticket>, ghost ran: nat)
      requires Valid(multiset{}) && Linked(multiset{})
      modifies this, transport
      ensures Valid(multiset{}) && Linked(multiset{}) && Advances(old(State()), old(books), State(), books)
      ensures old(stopped) ==> && State() == old(State()) && books == old(books) && unchanged(transport)
                               && handed == [] && consumed == 0
      ensures !old(stopped) ==>
                && PollEffect(old(transport.State()), net, poll, transport.version)
                && consumed == |Flatten(poll.chunks)| && handed == poll.after.results
                && ArePending(old(pending), handed)
                && Handles(old(State()), old(books), handed, |handed|, ran, State(), books)
      ensures !old(stopped) ==>
                && |tickets| == |handed| && (forall i :: 0 <= i < |handed| ==> Fits(tickets[i], handed[i]))
                && transport.ledger.delivered == old(transport.ledger).delivered + multiset(tickets)
                && transport.state == poll.after.state && forall r <- transport.results :: r.status == InvalidSize
    {
      handed, consumed, poll, tickets, ran := [], 0, NothingDone(transport.State()), [], 0;
      if stopped {
        return;
      }
      handed, consumed, poll, tickets := Fetch(net);
      ran := HandleResults(handed, tickets);
    }

    method HandleResults(handed: seq<MemoryResult>, ghost tickets: seq<Ticket>) returns (ghost ran: nat)
      requires Valid(multiset{}) && Linked(multiset(tickets)) && |tickets| == |handed| && !stopped
      requires forall i :: 0 <= i < |handed| ==> Fits(tickets[i], handed[i])
      modifies this, transport
      ensures Valid(multiset{}) && Linked(multiset{})
      ensures ArePending(old(pending), handed) && IsPolling(old(Now()), handed, |handed|, ran, Now())
    {
      HandlingStarts(Now(), transport.ledger.owed, tickets, handed);
      assert tickets[0..] == tickets && tickets[|handed|..] == [];
      HandleAll(handed, tickets, Now());
      ran :| IsPolling(old(Now()), handed, |handed|, ran, Now());
    }

    /** The loop; `start` is what there was before it. */
    method HandleAll(handed: seq<MemoryResult>, ghost tickets: seq<Ticket>, ghost start: Snapshot)
      requires Valid(multiset{}) && |tickets| == |handed| && Linked(multiset(tickets[0..]))
      requires forall i :: 0 <= i < |handed| ==> Fits(tickets[i], handed[i])
      requires ArePending(start.session.pending, handed) && HasHandled(start, handed, 0, Now())
      modifies this, transport
      ensures Valid(multiset{}) && Linked(multiset(tickets[|handed|..]))
      ensures HasHandled(start, handed, |handed|, Now())
    {
      var index := 0;
      while index < |handed|
        invariant index <= |handed| && Valid(multiset{}) && Linked(multiset(tickets[index..]))
        invariant HasHandled(start, handed, index, Now())
      {
        HandleNext(handed, index, tickets, start);
        index := index + 1;
      }
    }

    /** The body of the loop. */
    method HandleNext(handed: seq<MemoryResult>, index: nat, ghost tickets: seq<Ticket>, ghost start: Snapshot)
      requires Valid(multiset{}) && index < |handed| == |tickets| && Linked(multiset(tickets[index..]))
      requires Fits(tickets[index], handed[index])
      requires ArePending(start.session.pending, handed) && HasHandled(start, handed, index, Now())
      modifies this, transport
      ensures Valid(multiset{}) && Linked(multiset(tickets[index + 1..]))
      ensures HasHandled(start, handed, index + 1, Now())
    {
      TakeFirst(tickets[index..]);
      assert tickets[index..][1..] == tickets[index + 1..];
      HandleResult(handed[index], tickets[index], multiset(tickets[index..]));
      OneMoreResult(start, handed, index, old(Now()), Now());
    }

    method Fetch(net: Network)
      returns (handed: seq<MemoryResult>, consumed: nat, ghost poll: PollTrace, ghost tickets: seq<Ticket>)
      requires Linked(multiset{})
      modifies transport
      ensures Linked(multiset(tickets)) && |tickets| == |handed|
      ensures PollEffect(old(transport.State()), net, poll, transport.version)
      ensures consumed == |Flatten(poll.chunks)| && handed == poll.after.results
      ensures forall i :: 0 <= i < |handed| ==> Fits(tickets[i], handed[i])
      ensures transport.results == [] && transport.state == poll.after.state
      ensures transport.ledger.delivered == old(transport.ledger).delivered + multiset(tickets)
    {
      handed, consumed, poll, tickets := transport.PollResults(net);
    }

    /** What a completion does: calls into the session, one after the other. */
    method RunCalls(calls: Calls, ghost coming: multiset<Ticket>, ghost extra: multiset<Submission>)
      requires Valid(extra) && Linked(coming)
      modifies this, transport
      ensures Valid(extra) && Linked(coming)
      ensures Does(old(Now()), Now(), calls) && (Stops(calls) ==> stopped)
      ensures old(stopped) ==> unchanged(transport)
      decreases if stopped then 1 else 4, calls, 1
    {
      match calls
      case Done =>
      case Ask(_, _, _) => AskFirst(calls, coming, extra);
      case StopThen(_) => StopFirst(calls, coming, extra);
    }

    method AskFirst(calls: Calls, ghost coming: multiset<Ticket>, ghost extra: multiset<Submission>)
      requires Valid(extra) && Linked(coming) && calls.Ask?
      modifies this, transport
      ensures Valid(extra) && Linked(coming)
      ensures Does(old(Now()), Now(), calls) && (Stops(calls) ==> stopped)
      ensures old(stopped) ==> unchanged(transport)
      decreases if stopped then 1 else 4, calls, 0
    {
      SubmitAgain(calls.request, calls.completion, coming, extra);
      ghost var middle := Now();
      RunCalls(calls.next, coming, extra);
      DoesInTurn(old(Now()), middle, Now(), calls);
    }

    /** A submission by a completion, which ignores whether it is accepted. */
    method SubmitAgain(request: MemoryRequest, completion: Completion,
                       ghost coming: multiset<Ticket>, ghost extra: multiset<Submission>)
      requires Valid(extra) && Linked(coming)
      modifies this, transport
      ensures Valid(extra) && Linked(coming)
      ensures Does(old(Now()), Now(), Ask(request, completion, Done))
      ensures old(stopped) ==> unchanged(transport)
      decreases if stopped then 1 else 4, completion, 4
    {
      var ok;
      ghost var id;
      ok, id := Submit(request, completion, coming, extra);
    }

    method StopFirst(calls: Calls, ghost coming: multiset<Ticket>, ghost extra: multiset<Submission>)
      requires Valid(extra) && Linked(coming) && calls.StopThen?
      modifies this, transport
      ensures Valid(extra) && Linked(coming)
      ensures Does(old(Now()), Now(), calls) && (Stops(calls) ==> stopped)
      ensures old(stopped) ==> unchanged(transport)
      decreases if stopped then 1 else 4, calls, 0
    {
      Stop(coming, extra);
      ghost var middle := Now();
      RunCalls(calls.next, coming, extra);
      DoesInTurn(old(Now()), middle, Now(), calls);
    }

    /** `Stop`: afterwards every accepted request has had its completion run, whatever those completions did. */
    method Stop(ghost coming: multiset<Ticket>, ghost extra: multiset<Submission>)
      requires Valid(extra) && Linked(coming)
      modifies this, transport
      ensures Valid(extra) && Linked(coming)
      ensures Does(old(Now()), Now(), Done)
      ensures stopped && books.submitted == Completed(books.log) + extra && unchanged(transport)
      ensures AreCancelled(old(books).log, books.log)
      decreases if stopped then 0 else 3
    {
      if stopped {
        AllCompleted(State(), books, extra);
        return;
      }
      var left := MarkStopped(extra);
      Release(left, coming, extra);
      AllCompleted(State(), books, extra);
    }

    method MarkStopped(ghost extra: multiset<Submission>) returns (left: map<u32, Entry>)
      requires Valid(extra)
      modifies this`stopped, this`pending
      ensures Valid(extra + Bag(left)) && left == old(pending)
      ensures State() == old(State()).(stopped := true, pending := map[])
    {
      StopStarts(State(), books, extra);
      stopped := true;
      left := pending;
      pending := map[];
    }

    /** Runs the completions that were pending when the session stopped. */
    method Release(pending: map<u32, Entry>, ghost coming: multiset<Ticket>, ghost extra: multiset<Submission>)
      requires Valid(extra + Bag(pending)) && Linked(coming) && stopped
      modifies this, transport
      ensures Valid(extra) && Linked(coming)
      ensures IsReleased(old(State()), old(books), State(), books) && unchanged(transport)
      decreases 2, 1
    {
      var left := pending;
      while left != map[]
        invariant Valid(extra + Bag(left)) && Linked(coming)
        invariant IsReleased(old(State()), old(books), State(), books) && unchanged(transport)
        decreases |left|
      {
        var id :| id in left;
        ghost var b := books;
        ReleaseOne(left, id, coming, extra);
        AskedBoth(old(books), b, books, Done, Done, Done);
        left := left - {id};
      }
    }

    method ReleaseOne(left: map<u32, Entry>, id: u32, ghost coming: multiset<Ticket>, ghost extra: multiset<Submission>)
      requires Valid(extra + Bag(left)) && Linked(coming) && stopped && id in left
      modifies this, transport
      ensures Valid(extra + Bag(left - {id})) && Linked(coming)
      ensures IsReleased(old(State()), old(books), State(), books) && unchanged(transport)
      decreases 2, 0
    {
      StopOneIsValid(State(), books, left, id, extra);
      books := books.(log := books.log + [StopRun(left, id)]);
      ghost var before := books;
      RunCalls(left[id].completion.onFailure, coming, extra + Bag(left - {id}));
      RunAsked(old(books), before, books, StopRun(left, id));
    }
  }

  lemma IdIsIrrelevant(request: MemoryRequest, id: u32)
    requires id != 0
    ensures ValidateMemoryRequest(request.(id := id)) == ValidateMemoryRequest(request.(id := 1))
  {
  }

  lemma CardinalityOfSubset(a: set<u32>, b: set<u32>)
    requires a <= b
    ensures |a| <= |b|
  {
    if a != {} {
      var x :| x in a;
      CardinalityOfSubset(a - {x}, b - {x});
    }
  }
}
