/** Game memory: which requests are allowed on each side of the bridge, and how the script writes. */
module GameMemory {
  import opened Bytes
  import opened Frames

  // ----- Requests

  datatype Operation = Read | Write
  datatype MemoryRequest = MemoryRequest(
    id: u32, operation: Operation, address: u32, data: seq<byte>, readSize: u32)
  datatype Status = Ok | InvalidAddress | InvalidSize | Disconnected | ProtocolError
  datatype MemoryResult = MemoryResult(id: u32, status: Status, data: seq<byte>)

  const MAX_PAYLOAD: nat := 1024 * 1024

  datatype Range = Range(begin: nat, end: nat)

  const READABLE: seq<Range> := [
    Range(0x02000000, 0x02040000), Range(0x03000000, 0x03008000), Range(0x05000000, 0x05000400),
    Range(0x06000000, 0x06018000), Range(0x07000000, 0x07000400), Range(0x08000000, 0x0E000000)]
  const WRITABLE: seq<Range> := [Range(0x02000000, 0x02040000), Range(0x03000000, 0x03008000)]

  predicate Inside(begin: nat, end: nat, ranges: seq<Range>) {
    exists i :: 0 <= i < |ranges| && ranges[i].begin <= begin && end <= ranges[i].end
  }

  /** `IsRangeAllowed` of the app. */
  predicate IsRangeAllowed(address: u32, size: nat, ranges: seq<Range>) {
    address + size <= U32_LIMIT && Inside(address, address + size, ranges)
  }

  /** `isRangeAllowed` of the script, which also refuses empty ranges. */
  predicate ScriptIsRangeAllowed(address: u32, size: nat, ranges: seq<Range>) {
    size > 0 && address + size <= U32_LIMIT && Inside(address, address + size, ranges)
  }

  function ValidateMemoryRequest(r: MemoryRequest): Status {
    if r.id == 0 then ProtocolError
    else if r.operation == Read then ValidateRead(r.address, r.data, r.readSize)
    else ValidateWrite(r.address, r.data, r.readSize)
  }

  function ValidateRead(address: u32, data: seq<byte>, readSize: u32): Status {
    if data != [] || readSize == 0 || readSize > MAX_PAYLOAD then InvalidSize
    else if IsRangeAllowed(address, readSize, READABLE) then Ok
    else InvalidAddress
  }

  function ValidateWrite(address: u32, data: seq<byte>, readSize: u32): Status {
    if readSize != 0 || data == [] || |data| > MAX_PAYLOAD then InvalidSize
    else if IsRangeAllowed(address, |data|, WRITABLE) then Ok
    else InvalidAddress
  }

  /** The frame that carries a request, when it fits one. */
  function RequestFrame(r: MemoryRequest): Option<Frame> {
    if r.operation == Read then
      if r.readSize > MAX_BODY - BODY_HEADER_SIZE then None
      else Some(EncodeReadRequest(r.id, ReadRequest(r.address, r.readSize)))
    else TryEncodeWriteRequest(r.id, WriteRequest(r.address, r.data))
  }

  // ----- What the script makes of a request frame

  datatype Verdict = Malformed | Refused(code: ErrorCode) | Accepted(address: u32, size: nat, data: seq<byte>)

  function JudgeRead(payload: seq<byte>): Verdict {
    if |payload| != 8 then Malformed
    else
      var address, size := U32(payload[..4]), U32(payload[4..8]);
      if size > MAX_BODY - 8 then Refused(INVALID_SIZE)
      else if !ScriptIsRangeAllowed(address, size, READABLE) then Refused(INVALID_ADDRESS)
      else Verdict.Accepted(address, size, [])
  }

  function JudgeWrite(payload: seq<byte>): Verdict {
    if |payload| < 8 then Malformed
    else
      var address, size := U32(payload[..4]), U32(payload[4..8]);
      var data := payload[8..];
      if size != |data| || size == 0 then Refused(INVALID_SIZE)
      else if !ScriptIsRangeAllowed(address, size, WRITABLE) then Refused(INVALID_ADDRESS)
      else Verdict.Accepted(address, size, data)
  }

  function Judge(f: Frame): Verdict
    requires f.kind == READ_REQUEST || f.kind == WRITE_REQUEST
  {
    if f.kind == READ_REQUEST then JudgeRead(f.payload) else JudgeWrite(f.payload)
  }

  function RequestSize(r: MemoryRequest): nat {
    if r.operation == Read then r.readSize else |r.data|
  }

  /** The status that the app reports for the script's verdict. */
  predicate SameVerdict(status: Status, v: Verdict) {
    match v
    case Malformed => false
    case Refused(code) => status == if code == INVALID_SIZE then InvalidSize else InvalidAddress
    case Accepted(_, _, _) => status == Ok
  }

  /** The two independent checks agree on every request that reaches the wire, except that a read of zero bytes
      is an invalid size to the app and an invalid address to the script. */
  lemma ChecksAgree(r: MemoryRequest, f: Frame)
    requires RequestFrame(r) == Some(f) && r.id != 0
    requires r.operation == Read ==> r.data == []
    requires r.operation == Write ==> r.readSize == 0
    ensures SameVerdict(ValidateMemoryRequest(r), Judge(f)) <==> !(r.operation == Read && r.readSize == 0)
    ensures ValidateMemoryRequest(r) == Ok <==> Judge(f) == Verdict.Accepted(r.address, RequestSize(r), r.data)
  {
    if r.operation == Read {
      ReadRequestBijection(f, ReadRequest(r.address, r.readSize));
    } else {
      WriteRequestBijection(f, WriteRequest(r.address, r.data));
    }
  }

  /** A byte at `address` that requests of this kind may touch. */
  predicate IsPermitted(operation: Operation, address: nat) {
    exists i :: 0 <= i < |RangesOf(operation)| && RangesOf(operation)[i].begin <= address < RangesOf(operation)[i].end
  }

  function RangesOf(operation: Operation): seq<Range> {
    if operation == Read then READABLE else WRITABLE
  }

  /** No two ranges touch. */
  lemma RangesAreApart(ranges: seq<Range>, i: nat, j: nat)
    requires (ranges == READABLE || ranges == WRITABLE) && i < |ranges| && j < |ranges|
    ensures ranges[i].begin < ranges[i].end && (i < j ==> ranges[i].end < ranges[j].begin)
  {
  }

  /** Neighbouring permitted bytes lie in the same range. */
  lemma {:induction false} PermittedIsInside(operation: Operation, address: nat, size: nat) returns (i: nat)
    requires size > 0 && forall a :: address <= a < address + size ==> IsPermitted(operation, a)
    ensures i < |RangesOf(operation)|
    ensures RangesOf(operation)[i].begin <= address && address + size <= RangesOf(operation)[i].end
  {
    var ranges, last := RangesOf(operation), address + size - 1;
    assert IsPermitted(operation, last);
    if size == 1 {
      i :| 0 <= i < |ranges| && ranges[i].begin <= address < ranges[i].end;
    } else {
      i := PermittedIsInside(operation, address, size - 1);
      var j :| 0 <= j < |ranges| && ranges[j].begin <= last < ranges[j].end;
      RangesAreApart(ranges, i, j);
      RangesAreApart(ranges, j, i);
    }
  }

  /** A request of a permitted size is valid if and only if each of its bytes may be touched. */
  lemma ValidIffPermitted(r: MemoryRequest)
    requires r.id != 0 && ValidateMemoryRequest(r) != InvalidSize
    ensures ValidateMemoryRequest(r) == Ok
       <==> forall a :: r.address <= a < r.address + RequestSize(r) ==> IsPermitted(r.operation, a)
    ensures ValidateMemoryRequest(r) in {Ok, InvalidAddress}
  {
    var ranges := RangesOf(r.operation);
    if forall a :: r.address <= a < r.address + RequestSize(r) ==> IsPermitted(r.operation, a) {
      var i := PermittedIsInside(r.operation, r.address, RequestSize(r));
      RangesAreApart(ranges, i, i);
    }
  }

  /** The valid requests that no frame can carry. */
  lemma ValidButTooLarge(r: MemoryRequest)
    requires ValidateMemoryRequest(r) == Ok
    ensures RequestFrame(r).None? <==> r.operation == Read && 1048569 <= r.readSize <= 1048576
  {
    if r.operation == Write {
      assert |r.data| <= 0x40000;
    }
  }

  // ----- Aligned writes

  predicate Aligned(address: nat, width: nat) {
    width == 1 || (width == 2 && address % 2 == 0) || (width == 4 && address % 4 == 0)
  }

  lemma Mod4(address: nat, width: nat)
    requires width <= 4
    ensures (address + width) % 4 == if address % 4 + width < 4 then address % 4 + width else address % 4 + width - 4
    ensures address % 2 == 0 <==> address % 4 == 0 || address % 4 == 2
  {
  }

  /** Four times a bound on the accesses for `count` bytes, of which the first is `r` past a word boundary: at most two
      accesses to reach a boundary, the whole words, and at most two behind them. */
  function AccessBudget(r: nat, count: nat): (budget: nat)
    ensures budget <= count + 16
  {
    if count <= 1 then 4 * count
    else if count == 2 && (r == 0 || r == 2) then 4
    else if count <= 3 then 8
    else count + (if r == 0 then 8 else if r == 2 then 10 else if r == 3 then 11 else 13)
  }

  /** The budget for `count` bytes from an address. */
  function BudgetAt(address: nat, count: nat): (budget: nat)
    ensures budget <= count + 16
  {
    AccessBudget(address % 4, count)
  }

  lemma BudgetDecreases(r: nat, count: nat, width: nat, next: nat)
    requires count > 0 && r < 4 && width == WidthAt(r, count)
    requires next == if r + width < 4 then r + width else r + width - 4
    ensures AccessBudget(next, count - width) + 4 <= AccessBudget(r, count)
  {
  }

  function WidthAt(r: nat, count: nat): (width: nat)
    requires count > 0
    ensures 1 <= width <= count && width <= 4
  {
    if r == 0 && count >= 4 then 4 else if (r == 0 || r == 2) && count >= 2 then 2 else 1
  }

  /** `memory` is `before` with the bytes `from..to` of the data written, the byte 0 being at `base`. */
  ghost predicate WrittenUpTo(before: seq<byte>, memory: seq<byte>, base: nat, data: seq<byte>, from: nat, to: nat) {
    from <= to <= |data| && base + to <= |before| && memory == Patch(before, base + from, data[from..to])
  }

  lemma NothingWritten(before: seq<byte>, base: nat, data: seq<byte>, from: nat)
    requires from <= |data| && base + from <= |before|
    ensures WrittenUpTo(before, before, base, data, from, from)
  {
    assert data[from..from] == [];
  }

  lemma WrittenNext(before: seq<byte>, memory: seq<byte>, base: nat, data: seq<byte>, from: nat, mid: nat, to: nat)
    requires WrittenUpTo(before, memory, base, data, from, mid) && mid <= to <= |data| && base + to <= |before|
    ensures |memory| == |before|
    ensures WrittenUpTo(before, Patch(memory, base + mid, data[mid..to]), base, data, from, to)
  {
    PatchCompose(before, base + from, data[from..mid], data[mid..to]);
    assert data[from..mid] + data[mid..to] == data[from..to];
  }

  /** The emulator's memory, its three write calls, and a count of those calls. */
  class Emulator {
    var memory: seq<byte>
    ghost var calls: nat

    constructor (memory: seq<byte>)
      ensures this.memory == memory && calls == 0
    {
      this.memory := memory;
      calls := 0;
    }

    /** `write8`, `write16` and `write32`: the low `width` bytes of `value`, at an aligned address. */
    method WriteValue(address: nat, value: nat, width: nat)
      requires Aligned(address, width) && address + width <= |memory|
      modifies this
      ensures memory == Patch(old(memory), address, LittleBytes(value, width))
      ensures calls == old(calls) + 1
    {
      memory := Patch(memory, address, LittleBytes(value, width));
      calls := calls + 1;
    }

    /** One turn of the loop of `writeAligned`: the widest aligned access that fits. */
    method WriteNext(currentAddress: nat, data: seq<byte>, index: nat, remaining: nat) returns (width: nat)
      requires 0 < remaining && index + remaining <= |data| && currentAddress + remaining <= |memory|
      modifies this
      ensures 1 <= width <= remaining
      ensures AccessBudget((currentAddress + width) % 4, remaining - width) + 4
           <= AccessBudget(currentAddress % 4, remaining)
      ensures memory == Patch(old(memory), currentAddress, data[index..index + width])
      ensures calls == old(calls) + 1
    {
      Mod4(currentAddress, 0);
      if currentAddress % 4 == 0 && remaining >= 4 {
        width := 4;
      } else if currentAddress % 2 == 0 && remaining >= 2 {
        width := 2;
      } else {
        width := 1;
      }
      Mod4(currentAddress, width);
      BudgetDecreases(currentAddress % 4, remaining, width, (currentAddress + width) % 4);
      var piece := data[index..index + width];
      LittleCanonical(piece);
      WriteValue(currentAddress, LittleValue(piece), width);
    }

    /** One turn, after the bytes `from..index` were written. */
    method WriteTurn(ghost before: seq<byte>, address: nat, data: seq<byte>, ghost from: nat, index: nat, remaining: nat)
      returns (width: nat)
      requires 0 < remaining && index + remaining <= |data| && address + index + remaining <= |memory| == |before|
      requires WrittenUpTo(before, memory, address, data, from, index)
      modifies this
      ensures 1 <= width <= remaining && |memory| == |before|
      ensures WrittenUpTo(before, memory, address, data, from, index + width)
      ensures BudgetAt(address + index + width, remaining - width) + 4 <= BudgetAt(address + index, remaining)
      ensures calls == old(calls) + 1
    {
      width := WriteNext(address + index, data, index, remaining);
      WrittenNext(before, old(memory), address, data, from, index, index + width);
    }

    /** `writeAligned`: the same memory as writing byte by byte, in few accesses, all of them aligned. */
    method WriteAligned(address: nat, data: seq<byte>, startIndex: nat, count: nat)
      requires 1 <= startIndex && startIndex - 1 + count <= |data|
      requires address + startIndex - 1 + count <= |memory|
      modifies this
      ensures memory == Patch(old(memory), address + startIndex - 1, data[startIndex - 1..startIndex - 1 + count])
      ensures calls - old(calls) <= count / 4 + 4
    {
      WriteFrom(address, data, startIndex - 1, count);
    }

    /** The loop, with indices that start at zero. */
    method WriteFrom(address: nat, data: seq<byte>, from: nat, count: nat)
      requires from + count <= |data| && address + from + count <= |memory|
      modifies this
      ensures WrittenUpTo(old(memory), memory, address, data, from, from + count)
      ensures 4 * (calls - old(calls)) <= count + 16
    {
      var index, remaining := from, count;
      NothingWritten(memory, address, data, from);
      while remaining > 0
        invariant index + remaining == from + count && |memory| == |old(memory)|
        invariant WrittenUpTo(old(memory), memory, address, data, from, index)
        invariant 4 * (calls - old(calls)) + BudgetAt(address + index, remaining) <= count + 16
      {
        var width := WriteTurn(old(memory), address, data, from, index, remaining);
        index := index + width;
        remaining := remaining - width;
      }
    }
  }
}
