/** The Home Box encoder and decoder, with their loops and cursor, against the format in HomeBoxFile. */
module HomeBoxCodec {
  import opened Bytes
  import opened HomeBoxFile

  /** Adds the bytes to a 32-bit sum. */
  method AddBytes(sum: u32, bytes: seq<byte>) returns (total: u32)
    ensures total == (sum + ByteSum(bytes)) % U32_LIMIT
  {
    total := sum;
    for index := 0 to |bytes|
      invariant total == (sum + ByteSum(bytes[..index])) % U32_LIMIT
    {
      assert bytes[..index + 1][..index] == bytes[..index];
      total := (total + bytes[index]) % U32_LIMIT;
    }
    assert bytes[..|bytes|] == bytes;
  }

  method RecordChecksum(record: Record) returns (checksum: u32)
    ensures checksum == Checksum(record.metadata, record.pokemon)
  {
    ByteSumConcat(record.metadata, record.pokemon);
    checksum := AddBytes(0, record.metadata);
    checksum := AddBytes(checksum, record.pokemon);
  }

  // ----- Encoding

  /** Puts each record in the slot of its index, unless one does not fit or two share a slot. */
  method SortRecords(h: HomeBox) returns (ok: bool, slots: array<Option<Record>>)
    requires ValidDimensions(h.dimensions) && |h.records| == h.dimensions.count
    ensures fresh(slots) && slots.Length == h.dimensions.count
    ensures ok <==> ValidHomeBox(h)
    ensures ok ==> forall i :: 0 <= i < slots.Length ==> slots[i] == Find(h.records, i)
  {
    slots := new Option<Record>[h.dimensions.count](_ => None);
    for k := 0 to |h.records|
      invariant forall i :: 0 <= i < k ==> FitsDimensions(h.records[i], h.dimensions)
      invariant DistinctIndices(h.records[..k])
      invariant forall i :: 0 <= i < slots.Length ==> slots[i] == Find(h.records[..k], i)
    {
      var record := h.records[k];
      assert h.records[..k + 1][..k] == h.records[..k];
      assert record in h.records;
      if record.index >= h.dimensions.count || slots[record.index].Some? {
        FindMisses(h.records[..k], record.index);
        return false, slots;
      }
      FindMisses(h.records[..k], record.index);
      if |record.metadata| != h.dimensions.metadataSize || |record.pokemon| != h.dimensions.pokemonSize {
        return false, slots;
      }
      slots[record.index] := Some(record);
    }
    assert h.records[..|h.records|] == h.records;
    return true, slots;
  }

  method AppendRecords(h: HomeBox, slots: array<Option<Record>>) returns (encoded: seq<byte>)
    requires ValidHomeBox(h) && slots.Length == h.dimensions.count
    requires forall i :: 0 <= i < slots.Length ==> slots[i] == Find(h.records, i)
    ensures encoded == EncodeRecords(ByIndex(h))
  {
    encoded := [];
    for i := 0 to slots.Length
      invariant encoded == EncodeRecords(ByIndex(h)[..i])
    {
      EveryIndexIsFound(h, i);
      var record := slots[i].value;
      assert record == ByIndex(h)[i];
      assert ByIndex(h)[..i + 1] == ByIndex(h)[..i] + [record];
      EncodeOneMore(ByIndex(h)[..i], record);
      var checksum := RecordChecksum(record);
      encoded := encoded + (record.metadata + record.pokemon + Le32(checksum));
    }
    assert ByIndex(h)[..slots.Length] == ByIndex(h);
  }

  method EncodeHomeBox(h: HomeBox) returns (encoded: Option<seq<byte>>)
    ensures encoded == TryEncode(h)
  {
    if !ValidDimensions(h.dimensions) || |h.records| != h.dimensions.count {
      return None;
    }
    var ok, slots := SortRecords(h);
    if !ok {
      return None;
    }
    var records := AppendRecords(h, slots);
    return Some(Header(h.dimensions) + records + Le32(FOOTER_MAGIC));
  }

  // ----- Decoding

  /** `CalculateFileSize` without its overflow checks, which cannot fail for permitted dimensions. */
  method CalculateFileSize(d: Dimensions) returns (size: nat)
    ensures size == FileSize(d)
  {
    StartIsLinear(d, d.count);
    var recordSize: nat := 4 + d.metadataSize + d.pokemonSize;
    size := HEADER_SIZE + recordSize * d.count + FOOTER_SIZE;
  }

  method ReadWord(bytes: seq<byte>, position: nat) returns (ok: bool, value: nat, next: nat)
    ensures ok == (position + 4 <= |bytes|)
    ensures ok ==> value == U32(bytes[position..position + 4]) && next == position + 4
  {
    ok, value := ReadLittle(bytes, position, 4);
    next := position + 4;
  }

  method ReadHeader(bytes: seq<byte>, d: Dimensions) returns (ok: bool, position: nat)
    requires |bytes| == FileSize(d)
    ensures ok <==> HeaderMatches(bytes, d)
    ensures ok ==> position == HEADER_SIZE
  {
    StartGrows(d, 0, d.count);
    var magic, version, count, metadataSize, pokemonSize;
    ok, magic, position := ReadWord(bytes, 0);
    ok, version, position := ReadWord(bytes, position);
    ok, count, position := ReadWord(bytes, position);
    ok, metadataSize, position := ReadWord(bytes, position);
    ok, pokemonSize, position := ReadWord(bytes, position);
    ok := magic == HEADER_MAGIC && version == FORMAT_VERSION && count == d.count
          && metadataSize == d.metadataSize && pokemonSize == d.pokemonSize;
    assert bytes[0..4] == bytes[..4];
  }

  method ReadRecord(bytes: seq<byte>, d: Dimensions, i: u32, at: nat) returns (ok: bool, record: Record, position: nat)
    requires |bytes| == FileSize(d) && i < d.count && at == Start(d, i)
    ensures ok <==> GoodRecord(bytes, d, i)
    ensures ok ==> record == RecordAt(bytes, d, i) && position == Start(d, i + 1)
  {
    StartGrows(d, i, d.count);
    position := at;
    var metadata := bytes[position..position + d.metadataSize];
    position := position + d.metadataSize;
    var pokemon := bytes[position..position + d.pokemonSize];
    position := position + d.pokemonSize;
    record := Record(i, metadata, pokemon);
    var checksum, expected;
    ok, checksum, position := ReadWord(bytes, position);
    expected := RecordChecksum(record);
    ok := ok && checksum == expected;
  }

  method DecodeRecords(bytes: seq<byte>, d: Dimensions) returns (h: Option<HomeBox>)
    requires ValidDimensions(d)
    ensures h == TryDecode(bytes, d)
  {
    var size := CalculateFileSize(d);
    if |bytes| != size {
      return None;
    }
    var ok, position := ReadHeader(bytes, d);
    if !ok {
      return None;
    }
    var records;
    ok, records, position := ReadRecords(bytes, d, position);
    if !ok {
      return None;
    }
    var magic;
    ok, magic, position := ReadWord(bytes, position);
    assert bytes[|bytes| - 4..|bytes|] == bytes[|bytes| - 4..];
    if !ok || magic != FOOTER_MAGIC || position != |bytes| {
      return None;
    }
    return Some(HomeBox(d, records));
  }

  /** The loop over the records; it ends at the first one whose checksum differs. */
  method ReadRecords(bytes: seq<byte>, d: Dimensions, at: nat) returns (ok: bool, records: seq<Record>, position: nat)
    requires |bytes| == FileSize(d) && at == HEADER_SIZE
    ensures ok <==> GoodRecords(bytes, d, d.count)
    ensures ok ==> records == RecordsIn(bytes, d, d.count) && position == Start(d, d.count)
  {
    records, position := [], at;
    for i := 0 to d.count
      invariant position == Start(d, i)
      invariant GoodRecords(bytes, d, i)
      invariant records == RecordsIn(bytes, d, i)
    {
      var record;
      ok, record, position := ReadRecord(bytes, d, i, position);
      if !ok {
        if GoodRecords(bytes, d, d.count) {
          EachIsGood(bytes, d, d.count, i);
        }
        return false, records, position;
      }
      records := records + [record];
    }
    ok := true;
  }

  method DecodeHomeBox(bytes: seq<byte>, d: Dimensions) returns (h: Option<HomeBox>)
    ensures h == TryDecode(bytes, d)
  {
    if !ValidDimensions(d) || |bytes| > MAX_FILE_SIZE || |bytes| < 4 {
      StartGrows(d, 0, d.count);
      return None;
    }
    var ok, magic, position := ReadWord(bytes, 0);
    if !ok || magic != HEADER_MAGIC {
      assert bytes[0..4] == bytes[..4];
      return None;
    }
    h := DecodeRecords(bytes, d);
  }
}
