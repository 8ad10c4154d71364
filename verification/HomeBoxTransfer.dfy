/** Moving boxes between the game's storage and the Home Box: which box is where while slots are rewritten. */
module HomeBoxTransfer {
  import opened Bytes
  import opened Permutations
  import opened HomeBoxFile

  const CHUNK: nat := 1024

  datatype Box = Box(metadata: seq<byte>, pokemon: seq<byte>)

  /** `BoxWriteRequest`. */
  datatype BoxWrite = BoxWrite(slot: nat, data: seq<byte>, offset: nat, remaining: nat)

  /** A write on its way to the game. */
  datatype Flight = Flight(at: nat, from: nat, data: seq<byte>, applied: bool)

  /** `localCount` of the boxes live in slots of `monSize` bytes of the game's storage. */
  datatype Shape = Shape(localCount: nat, totalCount: nat, metadataSize: nat, monSize: nat)

  // ----- Slots

  function SlotStart(size: nat, i: nat): nat {
    if i == 0 then 0 else SlotStart(size, i - 1) + size
  }

  lemma {:induction false} SlotStartIsLinear(size: nat, i: nat)
    ensures SlotStart(size, i) == size * i
  {
    if i > 0 {
      SlotStartIsLinear(size, i - 1);
    }
  }

  lemma {:induction false} SlotsAreApart(size: nat, i: nat, j: nat)
    requires i < j
    ensures SlotStart(size, i) + size <= SlotStart(size, j)
  {
    if i < j - 1 {
      SlotsAreApart(size, i, j - 1);
    }
  }

  predicate IsStorage(storage: seq<byte>, s: Shape) {
    |storage| == SlotStart(s.monSize, s.localCount)
  }

  function Slot(storage: seq<byte>, s: Shape, i: nat): (data: seq<byte>)
    requires IsStorage(storage, s) && i < s.localCount
    ensures |data| == s.monSize
  {
    SlotFits(s, i);
    storage[SlotStart(s.monSize, i)..SlotStart(s.monSize, i) + s.monSize]
  }

  lemma SlotFits(s: Shape, i: nat)
    requires i < s.localCount
    ensures SlotStart(s.monSize, i) + s.monSize <= SlotStart(s.monSize, s.localCount)
  {
    SlotsAreApart(s.monSize, i, s.localCount);
  }

  /** A write within one slot changes that part of that slot, and no other slot. */
  lemma PatchOneSlot(storage: seq<byte>, s: Shape, i: nat, offset: nat, data: seq<byte>, k: nat)
    requires IsStorage(storage, s) && i < s.localCount && k < s.localCount && offset + |data| <= s.monSize
    ensures SlotStart(s.monSize, i) + offset + |data| <= |storage|
    ensures var after := Patch(storage, SlotStart(s.monSize, i) + offset, data);
            && IsStorage(after, s)
            && Slot(after, s, k) == if k == i then Patch(Slot(storage, s, k), offset, data) else Slot(storage, s, k)
  {
    SlotFits(s, i);
    if k == i {
      PatchWithin(storage, SlotStart(s.monSize, i), s.monSize, offset, data);
    } else {
      PatchOtherSlot(storage, s, i, offset, data, k);
    }
  }

  lemma PatchOtherSlot(storage: seq<byte>, s: Shape, i: nat, offset: nat, data: seq<byte>, k: nat)
    requires IsStorage(storage, s) && i < s.localCount && k < s.localCount && offset + |data| <= s.monSize && k != i
    requires SlotStart(s.monSize, i) + offset + |data| <= |storage|
    ensures Slot(Patch(storage, SlotStart(s.monSize, i) + offset, data), s, k) == Slot(storage, s, k)
  {
    SlotFits(s, k);
    if k < i {
      SlotsAreApart(s.monSize, k, i);
    } else {
      SlotsAreApart(s.monSize, i, k);
    }
    PatchOutside(storage, SlotStart(s.monSize, i) + offset, data, SlotStart(s.monSize, k), SlotStart(s.monSize, k) + s.monSize);
  }

  lemma PatchWithin(storage: seq<byte>, at: nat, size: nat, offset: nat, data: seq<byte>)
    requires at + size <= |storage| && offset + |data| <= size
    ensures Patch(storage, at + offset, data)[at..at + size] == Patch(storage[at..at + size], offset, data)
  {
  }

  // ----- The invariant of a transfer

  /** What the behaviour and the game have at hand: the boxes that were loaded, the order that the behaviour works
      towards, the slots still to be rewritten, and the write that is on its way. */
  datatype Transfer = Transfer(
    boxes: seq<Box>, order: seq<int>, queue: seq<BoxWrite>, storage: seq<byte>, flight: Option<Flight>)

  predicate AreBoxes(boxes: seq<Box>, s: Shape) {
    && |boxes| == s.totalCount
    && forall i :: 0 <= i < |boxes| ==> |boxes[i].pokemon| == s.monSize && |boxes[i].metadata| == s.metadataSize
  }

  predicate IsQueued(queue: seq<BoxWrite>, i: nat) {
    exists k :: 0 <= k < |queue| && queue[k].slot == i
  }

  /** How much of the first queued slot has certainly been rewritten. */
  function Rewritten(t: Transfer): nat
    requires t.queue != []
  {
    if t.flight.Some? && !t.flight.value.applied then t.flight.value.from else t.queue[0].offset
  }

  /** A request copies the box that belongs in its slot. */
  predicate IsRequest(q: BoxWrite, t: Transfer, s: Shape)
    requires AreBoxes(t.boxes, s) && IsPermutation(t.order, s.totalCount) && s.localCount <= s.totalCount
  {
    && q.slot < s.localCount && q.offset + q.remaining == s.monSize
    && q.data == t.boxes[t.order[q.slot]].pokemon
  }

  predicate IsFlight(f: Flight, q: BoxWrite, s: Shape) {
    && f.from <= q.offset <= |q.data| && f.data == q.data[f.from..q.offset]
    && f.at == SlotStart(s.monSize, q.slot) + f.from
  }

  predicate InTransfer(t: Transfer, s: Shape) {
    && s.localCount <= s.totalCount && IsStorage(t.storage, s)
    && AreBoxes(t.boxes, s) && IsPermutation(t.order, s.totalCount)
    && (forall k :: 0 <= k < |t.queue| ==> IsRequest(t.queue[k], t, s))
    && (forall k :: 1 <= k < |t.queue| ==> t.queue[k].offset == 0)
    && (forall j, k :: 0 <= j < k < |t.queue| ==> t.queue[j].slot != t.queue[k].slot)
    && (t.flight.Some? ==> t.queue != [] && IsFlight(t.flight.value, t.queue[0], s))
    && (forall i :: 0 <= i < s.localCount && !IsQueued(t.queue, i) ==>
          Slot(t.storage, s, i) == t.boxes[t.order[i]].pokemon)
    && (t.queue != [] ==>
          Slot(t.storage, s, t.queue[0].slot)[..Rewritten(t)] == t.queue[0].data[..Rewritten(t)])
  }

  // ----- Steps

  function ChunkSize(q: BoxWrite): nat {
    if q.remaining < CHUNK then q.remaining else CHUNK
  }

  function Advanced(q: BoxWrite): BoxWrite {
    q.(offset := q.offset + ChunkSize(q), remaining := q.remaining - ChunkSize(q))
  }

  /** The next chunk of the first request is on its way. */
  function Launched(t: Transfer, s: Shape): Transfer
    requires InTransfer(t, s) && t.queue != [] && t.flight == None
  {
    var q := t.queue[0];
    var data := q.data[q.offset..q.offset + ChunkSize(q)];
    t.(queue := [Advanced(q)] + t.queue[1..],
       flight := Some(Flight(SlotStart(s.monSize, q.slot) + q.offset, q.offset, data, false)))
  }

  lemma LaunchedKeeps(t: Transfer, s: Shape)
    requires InTransfer(t, s) && t.queue != [] && t.flight == None
    ensures InTransfer(Launched(t, s), s)
  {
    var u := Launched(t, s);
    assert forall k :: 0 <= k < |t.queue| ==> u.queue[k].slot == t.queue[k].slot;
    assert forall i :: IsQueued(t.queue, i) ==> IsQueued(u.queue, i) by {
      forall i | IsQueued(t.queue, i) ensures IsQueued(u.queue, i) {
        var k :| 0 <= k < |t.queue| && t.queue[k].slot == i;
        assert u.queue[k].slot == i;
      }
    }
  }

  /** The game performs the write. */
  function Applied(t: Transfer, s: Shape): Transfer
    requires InTransfer(t, s) && t.flight.Some?
  {
    var f := t.flight.value;
    SlotFits(s, t.queue[0].slot);
    t.(storage := Patch(t.storage, f.at, f.data), flight := Some(f.(applied := true)))
  }

  /** The write stays within the first queued slot. */
  lemma AppliedOtherSlots(t: Transfer, s: Shape)
    requires InTransfer(t, s) && t.flight.Some? && !t.flight.value.applied
    ensures IsStorage(Applied(t, s).storage, s)
    ensures forall i :: 0 <= i < s.localCount && !IsQueued(t.queue, i) ==>
              Slot(Applied(t, s).storage, s, i) == Slot(t.storage, s, i)
  {
    var q, f := t.queue[0], t.flight.value;
    assert IsQueued(t.queue, q.slot);
    PatchOneSlot(t.storage, s, q.slot, f.from, f.data, q.slot);
    forall i | 0 <= i < s.localCount && !IsQueued(t.queue, i)
      ensures Slot(Applied(t, s).storage, s, i) == Slot(t.storage, s, i)
    {
      PatchOneSlot(t.storage, s, q.slot, f.from, f.data, i);
    }
  }

  lemma AppliedOwnSlot(t: Transfer, s: Shape)
    requires InTransfer(t, s) && t.flight.Some? && !t.flight.value.applied
    ensures IsStorage(Applied(t, s).storage, s)
    ensures var q := t.queue[0]; Slot(Applied(t, s).storage, s, q.slot)[..q.offset] == q.data[..q.offset]
  {
    var q, f := t.queue[0], t.flight.value;
    PatchOneSlot(t.storage, s, q.slot, f.from, f.data, q.slot);
    PrefixPatched(Slot(t.storage, s, q.slot), q.data, f.from, q.offset);
  }

  lemma AppliedKeeps(t: Transfer, s: Shape)
    requires InTransfer(t, s) && t.flight.Some? && !t.flight.value.applied
    ensures InTransfer(Applied(t, s), s)
  {
    AppliedOtherSlots(t, s);
    AppliedOwnSlot(t, s);
  }

  lemma PrefixPatched(slot: seq<byte>, data: seq<byte>, from: nat, to: nat)
    requires from <= to <= |data| == |slot| && slot[..from] == data[..from]
    ensures Patch(slot, from, data[from..to])[..to] == data[..to]
  {
  }

  /** The write has been acknowledged. */
  lemma AcknowledgedKeeps(t: Transfer, s: Shape)
    requires InTransfer(t, s) && t.flight.Some? && t.flight.value.applied
    ensures InTransfer(t.(flight := None), s)
  {
  }

  /** A finished request leaves the queue: its slot holds its box. */
  lemma PoppedKeeps(t: Transfer, s: Shape)
    requires InTransfer(t, s) && t.queue != [] && t.flight == None && t.queue[0].remaining == 0
    ensures InTransfer(t.(queue := t.queue[1..]), s)
  {
    var q, u := t.queue[0], t.(queue := t.queue[1..]);
    assert q.data[..|q.data|] == q.data;
    assert Slot(t.storage, s, q.slot)[..s.monSize] == Slot(t.storage, s, q.slot);
    forall k | 1 <= k < |t.queue| ensures IsQueued(u.queue, t.queue[k].slot) {
      assert u.queue[k - 1].slot == t.queue[k].slot;
    }
    forall i | 0 <= i < s.localCount && !IsQueued(u.queue, i)
      ensures Slot(t.storage, s, i) == t.boxes[t.order[i]].pokemon
    {
      assert IsQueued(t.queue, i) ==> i == q.slot;
    }
  }

  /** The requests for the slots below `n` whose box changes. */
  function RequestsFor(boxes: seq<Box>, before: seq<int>, after: seq<int>, s: Shape, n: nat): seq<BoxWrite>
    requires n <= |before| && n <= |after| && forall i :: 0 <= i < |after| ==> 0 <= after[i] < |boxes|
  {
    if n == 0 then []
    else if before[n - 1] == after[n - 1] then RequestsFor(boxes, before, after, s, n - 1)
    else RequestsFor(boxes, before, after, s, n - 1) + [BoxWrite(n - 1, boxes[after[n - 1]].pokemon, 0, s.monSize)]
  }

  /** They are for different slots, namely those that change, and each has the box that belongs there. */
  lemma {:induction false} RequestsAre(boxes: seq<Box>, before: seq<int>, after: seq<int>, s: Shape, n: nat)
    requires n <= |before| && n <= |after| && forall i :: 0 <= i < |after| ==> 0 <= after[i] < |boxes|
    ensures var queue := RequestsFor(boxes, before, after, s, n);
            && (forall k :: 0 <= k < |queue| ==>
                  && queue[k].slot < n && before[queue[k].slot] != after[queue[k].slot]
                  && queue[k] == BoxWrite(queue[k].slot, boxes[after[queue[k].slot]].pokemon, 0, s.monSize))
            && (forall j, k :: 0 <= j < k < |queue| ==> queue[j].slot != queue[k].slot)
            && (forall i :: 0 <= i < n && before[i] != after[i] ==> IsQueued(queue, i))
  {
    if n > 0 {
      RequestsAre(boxes, before, after, s, n - 1);
      var front, queue := RequestsFor(boxes, before, after, s, n - 1), RequestsFor(boxes, before, after, s, n);
      if before[n - 1] != after[n - 1] {
        assert queue[|front|].slot == n - 1;
        forall i | IsQueued(front, i) ensures IsQueued(queue, i) {
          var k :| 0 <= k < |front| && front[k].slot == i;
          assert queue[k].slot == i;
        }
      }
    }
  }

  /** With nothing left to rewrite, a new order is taken over. */
  lemma ReorderedKeeps(t: Transfer, s: Shape, after: seq<int>)
    requires InTransfer(t, s) && t.queue == [] && IsPermutation(after, s.totalCount)
    ensures InTransfer(t.(order := after, queue := RequestsFor(t.boxes, t.order, after, s, s.localCount)), s)
  {
    RequestsAre(t.boxes, t.order, after, s, s.localCount);
    assert forall i :: 0 <= i < s.localCount ==> !IsQueued(t.queue, i);
  }

  // ----- Conservation

  /** The boxes whose contents the local slots hold once nothing is left to rewrite. */
  function BoxesInSlots(t: Transfer, s: Shape): seq<Box>
    requires AreBoxes(t.boxes, s) && IsPermutation(t.order, s.totalCount) && s.localCount <= s.totalCount
  {
    seq(s.localCount, i requires 0 <= i < s.localCount => t.boxes[t.order[i]])
  }

  /** The records of a save: record `j` holds the box that is behind the local ones in the order. */
  function RecordsFor(boxes: seq<Box>, order: seq<int>, s: Shape): (rs: seq<Record>)
    requires AreBoxes(boxes, s) && IsPermutation(order, s.totalCount) && s.localCount <= s.totalCount < U32_LIMIT
    ensures |rs| == s.totalCount - s.localCount
  {
    seq(s.totalCount - s.localCount, j requires 0 <= j < s.totalCount - s.localCount =>
          var box := boxes[order[s.localCount + j]];
          Record(j, box.metadata, box.pokemon))
  }

  function RecordBoxes(rs: seq<Record>): seq<Box> {
    seq(|rs|, j requires 0 <= j < |rs| => Box(rs[j].metadata, rs[j].pokemon))
  }

  function Arranged<T>(xs: seq<T>, order: seq<int>, n: nat): seq<T>
    requires IsPermutation(order, n) && |xs| == n
  {
    seq(n, i requires 0 <= i < n => xs[order[i]])
  }

  lemma LastOut<T>(xs: seq<T>)
    requires xs != []
    ensures multiset(xs) == multiset(xs[..|xs| - 1]) + multiset{xs[|xs| - 1]}
  {
    assert xs == xs[..|xs| - 1] + [xs[|xs| - 1]];
  }

  lemma TakeOut<T>(a: seq<T>, x: T, b: seq<T>)
    ensures multiset(a + [x] + b) == multiset(a + b) + multiset{x}
  {
  }

  /** A permutation without its greatest number is one of the smaller numbers. */
  lemma WithoutLast(order: seq<int>, n: nat) returns (k: nat)
    requires IsPermutation(order, n) && n > 0
    ensures k < n && order[k] == n - 1 && IsPermutation(order[..k] + order[k + 1..], n - 1)
  {
    k := Position(order, n, n - 1);
    var rest := order[..k] + order[k + 1..];
    assert forall i :: 0 <= i < n - 1 ==> rest[i] == order[if i < k then i else i + 1];
  }

  lemma ArrangedWithout<T>(xs: seq<T>, order: seq<int>, n: nat, k: nat)
    requires IsPermutation(order, n) && |xs| == n && k < n && order[k] == n - 1
    requires IsPermutation(order[..k] + order[k + 1..], n - 1)
    ensures var all := Arranged(xs, order, n);
            && all == all[..k] + [xs[n - 1]] + all[k + 1..]
            && Arranged(xs[..n - 1], order[..k] + order[k + 1..], n - 1) == all[..k] + all[k + 1..]
  {
  }

  lemma SameWithOneMore<T>(all: seq<T>, less: seq<T>, k: nat, xs: seq<T>)
    requires xs != [] && k < |all| && all == all[..k] + [xs[|xs| - 1]] + all[k + 1..] && less == all[..k] + all[k + 1..]
    requires multiset(less) == multiset(xs[..|xs| - 1])
    ensures multiset(all) == multiset(xs)
  {
    TakeOut(all[..k], xs[|xs| - 1], all[k + 1..]);
    LastOut(xs);
  }

  /** Arranging by a permutation loses and duplicates nothing. */
  lemma {:induction false} ArrangedIsSame<T>(xs: seq<T>, order: seq<int>, n: nat)
    requires IsPermutation(order, n) && |xs| == n
    ensures multiset(Arranged(xs, order, n)) == multiset(xs)
    decreases n
  {
    if n > 0 {
      var k := WithoutLast(order, n);
      var rest := order[..k] + order[k + 1..];
      ArrangedWithout(xs, order, n, k);
      ArrangedIsSame(xs[..n - 1], rest, n - 1);
      SameWithOneMore(Arranged(xs, order, n), Arranged(xs[..n - 1], rest, n - 1), k, xs);
    } else {
      assert Arranged(xs, order, n) == [] && xs == [];
    }
  }

  /** When nothing is left to rewrite, the game's slots and the records together hold every box once. */
  lemma NothingIsLost(t: Transfer, s: Shape)
    requires InTransfer(t, s) && t.queue == [] && s.totalCount < U32_LIMIT
    ensures forall i :: 0 <= i < s.localCount ==> Slot(t.storage, s, i) == t.boxes[t.order[i]].pokemon
    ensures multiset(BoxesInSlots(t, s)) + multiset(RecordBoxes(RecordsFor(t.boxes, t.order, s))) == multiset(t.boxes)
  {
    assert forall i :: 0 <= i < s.localCount ==> !IsQueued(t.queue, i);
    var all := Arranged(t.boxes, t.order, s.totalCount);
    ArrangedIsSame(t.boxes, t.order, s.totalCount);
    assert BoxesInSlots(t, s) == all[..s.localCount];
    assert RecordBoxes(RecordsFor(t.boxes, t.order, s)) == all[s.localCount..];
    assert all == all[..s.localCount] + all[s.localCount..];
  }

  // ----- The chunks of one slot

  datatype Chunk = Chunk(from: nat, to: nat)

  /** The chunks cover everything below `n`, in order, without a gap or an overlap. */
  predicate Covers(chunks: seq<Chunk>, n: nat) {
    if chunks == [] then n == 0
    else
      var last := chunks[|chunks| - 1];
      last.to == n && last.from < last.to <= last.from + CHUNK && Covers(chunks[..|chunks| - 1], last.from)
  }

  lemma CoversMore(chunks: seq<Chunk>, from: nat, to: nat)
    requires Covers(chunks, from) && from < to <= from + CHUNK
    ensures Covers(chunks + [Chunk(from, to)], to)
  {
    assert (chunks + [Chunk(from, to)])[..|chunks|] == chunks;
  }

  /** Every byte of the slot is in exactly one chunk. */
  lemma {:induction false} CoveredOnce(chunks: seq<Chunk>, n: nat, x: nat) returns (k: nat)
    requires Covers(chunks, n) && x < n
    ensures k < |chunks| && chunks[k].from <= x < chunks[k].to
    ensures forall i :: 0 <= i < |chunks| && chunks[i].from <= x < chunks[i].to ==> i == k
  {
    var last := |chunks| - 1;
    ChunksEnd(chunks[..last], chunks[last].from);
    if x < chunks[last].from {
      k := CoveredOnce(chunks[..last], chunks[last].from, x);
    } else {
      k := last;
    }
  }

  lemma {:induction false} ChunksEnd(chunks: seq<Chunk>, n: nat)
    requires Covers(chunks, n)
    ensures forall i :: 0 <= i < |chunks| ==> chunks[i].to <= n
  {
    if chunks != [] {
      ChunksEnd(chunks[..|chunks| - 1], chunks[|chunks| - 1].from);
    }
  }
}
