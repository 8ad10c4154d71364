/** The Home Box file format: what encoding and decoding mean, and that they are inverse. */
module HomeBoxFile {
  import opened Bytes
  import opened Permutations

  const HEADER_MAGIC: u32 := 3497814
  const FOOTER_MAGIC: u32 := 7893612
  const FORMAT_VERSION: u32 := 0
  const HEADER_SIZE: nat := 20
  const FOOTER_SIZE: nat := 4
  const CHECKSUM_SIZE: nat := 4
  const SUPPORTED_API: u32 := 3
  const MAX_FILE_SIZE: nat := 64 * 1024 * 1024
  const MAX_RECORD_DATA_SIZE: nat := 1024 * 1024 - 8
  const MAX_RECORD_COUNT: nat := 255

  datatype Dimensions = Dimensions(
    api: u32, edition: byte, trainerId: u32, count: u32, metadataSize: u32, pokemonSize: u32)
  datatype Record = Record(index: u32, metadata: seq<byte>, pokemon: seq<byte>)
  datatype HomeBox = HomeBox(dimensions: Dimensions, records: seq<Record>)

  function RecordSize(d: Dimensions): nat {
    d.metadataSize + d.pokemonSize + CHECKSUM_SIZE
  }

  /** Where record `i` begins; record `count` is the footer. */
  function Start(d: Dimensions, i: nat): nat {
    if i == 0 then HEADER_SIZE else Start(d, i - 1) + RecordSize(d)
  }

  function FileSize(d: Dimensions): nat {
    Start(d, d.count) + FOOTER_SIZE
  }

  lemma {:induction false} StartIsLinear(d: Dimensions, i: nat)
    ensures Start(d, i) == HEADER_SIZE + RecordSize(d) * i
  {
    if i > 0 {
      StartIsLinear(d, i - 1);
    }
  }

  predicate ValidDimensions(d: Dimensions) {
    && d.api == SUPPORTED_API
    && (d.edition == 0 || d.edition == 1)
    && d.count <= MAX_RECORD_COUNT
    && 0 < d.metadataSize <= MAX_RECORD_DATA_SIZE
    && 0 < d.pokemonSize <= MAX_RECORD_DATA_SIZE
    && FileSize(d) <= MAX_FILE_SIZE
  }

  // ----- Checksums

  function ByteSum(s: seq<byte>): nat {
    if s == [] then 0 else ByteSum(s[..|s| - 1]) + s[|s| - 1]
  }

  lemma {:induction false} ByteSumConcat(a: seq<byte>, b: seq<byte>)
    ensures ByteSum(a + b) == ByteSum(a) + ByteSum(b)
  {
    if b == [] {
      assert a + b == a;
    } else {
      var last := |b| - 1;
      ByteSumConcat(a, b[..last]);
      assert (a + b)[..|a + b| - 1] == a + b[..last];
    }
  }

  lemma {:induction false} ByteSumBound(s: seq<byte>)
    ensures ByteSum(s) <= 255 * |s|
  {
    if s != [] {
      ByteSumBound(s[..|s| - 1]);
    }
  }

  /** `RecordChecksum`, a 32-bit sum. */
  function Checksum(metadata: seq<byte>, pokemon: seq<byte>): u32 {
    ByteSum(metadata + pokemon) % U32_LIMIT
  }

  /** Records of a permitted size are too small for their checksum to wrap. */
  lemma ChecksumIsExact(metadata: seq<byte>, pokemon: seq<byte>)
    requires |metadata| <= MAX_RECORD_DATA_SIZE && |pokemon| <= MAX_RECORD_DATA_SIZE
    ensures Checksum(metadata, pokemon) == ByteSum(metadata) + ByteSum(pokemon)
  {
    ByteSumConcat(metadata, pokemon);
    ByteSumBound(metadata);
    ByteSumBound(pokemon);
  }

  // ----- Encoding

  predicate FitsDimensions(r: Record, d: Dimensions) {
    r.index < d.count && |r.metadata| == d.metadataSize && |r.pokemon| == d.pokemonSize
  }

  predicate DistinctIndices(rs: seq<Record>) {
    forall i, j :: 0 <= i < j < |rs| ==> rs[i].index != rs[j].index
  }

  /** What the encoder accepts: one record for each index, in any order. */
  predicate ValidHomeBox(h: HomeBox) {
    && ValidDimensions(h.dimensions)
    && |h.records| == h.dimensions.count
    && (forall r :: r in h.records ==> FitsDimensions(r, h.dimensions))
    && DistinctIndices(h.records)
  }

  function EncodeRecord(r: Record): (s: seq<byte>)
    ensures |s| == |r.metadata| + |r.pokemon| + CHECKSUM_SIZE
  {
    r.metadata + r.pokemon + Le32(Checksum(r.metadata, r.pokemon))
  }

  /** Pieces of a file, one behind the other. */
  function Join(pieces: seq<seq<byte>>): seq<byte> {
    if pieces == [] then [] else Join(pieces[..|pieces| - 1]) + pieces[|pieces| - 1]
  }

  function Pieces(rs: seq<Record>): (pieces: seq<seq<byte>>)
    ensures |pieces| == |rs|
  {
    seq(|rs|, i requires 0 <= i < |rs| => EncodeRecord(rs[i]))
  }

  function EncodeRecords(rs: seq<Record>): seq<byte> {
    Join(Pieces(rs))
  }

  function Header(d: Dimensions): (s: seq<byte>)
    ensures |s| == HEADER_SIZE
  {
    Le32(HEADER_MAGIC) + Le32(FORMAT_VERSION) + Le32(d.count) + Le32(d.metadataSize) + Le32(d.pokemonSize)
  }

  /** The file of records that are already in index order. */
  function Image(d: Dimensions, rs: seq<Record>): seq<byte> {
    Header(d) + EncodeRecords(rs) + Le32(FOOTER_MAGIC)
  }

  /** A record with index `i`, if there is one. */
  function Find(rs: seq<Record>, i: u32): Option<Record> {
    if rs == [] then None
    else if rs[|rs| - 1].index == i then Some(rs[|rs| - 1])
    else Find(rs[..|rs| - 1], i)
  }

  lemma {:induction false} FindMisses(rs: seq<Record>, i: u32)
    ensures Find(rs, i).None? <==> forall r :: r in rs ==> r.index != i
    ensures Find(rs, i).Some? ==> Find(rs, i).value in rs && Find(rs, i).value.index == i
  {
    if rs != [] {
      var last := |rs| - 1;
      FindMisses(rs[..last], i);
      assert forall r :: r in rs <==> r in rs[..last] || r == rs[last];
    }
  }

  function Indices(rs: seq<Record>): (s: seq<int>)
    ensures |s| == |rs|
  {
    seq(|rs|, k requires 0 <= k < |rs| => rs[k].index)
  }

  /** No duplicates and nothing out of range: every index has a record. */
  lemma EveryIndexIsFound(h: HomeBox, i: u32)
    requires ValidHomeBox(h) && i < h.dimensions.count
    ensures Find(h.records, i).Some? && Find(h.records, i).value in h.records
    ensures Find(h.records, i).value.index == i && FitsDimensions(Find(h.records, i).value, h.dimensions)
  {
    var s, n: nat := Indices(h.records), h.dimensions.count;
    forall k | 0 <= k < n ensures 0 <= s[k] < n {
      assert h.records[k] in h.records;
    }
    var k := Position(s, n, i);
    assert h.records[k].index == i;
    FindMisses(h.records, i);
  }

  /** The records in index order. */
  function ByIndex(h: HomeBox): (rs: seq<Record>)
    requires ValidHomeBox(h)
    ensures |rs| == h.dimensions.count
    ensures forall i :: 0 <= i < |rs| ==> rs[i] in h.records && rs[i].index == i && FitsDimensions(rs[i], h.dimensions)
  {
    seq(h.dimensions.count, i requires 0 <= i < h.dimensions.count => RecordWith(h, i))
  }

  function RecordWith(h: HomeBox, i: u32): (r: Record)
    requires ValidHomeBox(h) && i < h.dimensions.count
    ensures r in h.records && r.index == i && FitsDimensions(r, h.dimensions)
  {
    EveryIndexIsFound(h, i);
    Find(h.records, i).value
  }

  /** `EncodeHomeBox`. */
  function TryEncode(h: HomeBox): Option<seq<byte>> {
    if ValidHomeBox(h) then Some(Image(h.dimensions, ByIndex(h))) else None
  }

  /** The order of the records does not matter. */
  lemma EncodeIgnoresOrder(g: HomeBox, h: HomeBox)
    requires g.dimensions == h.dimensions && multiset(g.records) == multiset(h.records)
    requires ValidHomeBox(g)
    ensures ValidHomeBox(h) && TryEncode(g) == TryEncode(h)
  {
    SameMembers(g.records, h.records);
    StaysDistinct(g.records, h.records);
    forall i | 0 <= i < |ByIndex(g)| ensures ByIndex(g)[i] == ByIndex(h)[i] {
      SameIndexSameRecord(h.records, ByIndex(g)[i], ByIndex(h)[i]);
    }
    assert ByIndex(g) == ByIndex(h);
  }

  lemma SameIndexSameRecord(rs: seq<Record>, a: Record, b: Record)
    requires DistinctIndices(rs) && a in rs && b in rs && a.index == b.index
    ensures a == b
  {
  }

  lemma SameMembers<T>(a: seq<T>, b: seq<T>)
    requires multiset(a) == multiset(b)
    ensures |a| == |b| && forall x :: x in a <==> x in b
  {
    assert |multiset(a)| == |a| && |multiset(b)| == |b|;
    forall x ensures x in a <==> x in b {
      assert x in multiset(a) <==> x in multiset(b);
    }
  }

  lemma StaysDistinct(g: seq<Record>, h: seq<Record>)
    requires multiset(g) == multiset(h) && DistinctIndices(g)
    ensures DistinctIndices(h)
  {
    SameMembers(g, h);
    forall i, j | 0 <= i < j < |h| ensures h[i].index != h[j].index {
      AtMostOnce(g, h[i]);
      if h[i] == h[j] {
        TwiceIsTwo(h, i, j);
      } else {
        assert h[i] in g && h[j] in g;
      }
    }
  }

  lemma TwiceIsTwo<T>(s: seq<T>, i: nat, j: nat)
    requires i < j < |s| && s[i] == s[j]
    ensures multiset(s)[s[i]] >= 2
  {
    assert s == s[..j] + [s[j]] + s[j + 1..];
    assert s[i] in multiset(s[..j]);
  }

  lemma {:induction false} AtMostOnce(g: seq<Record>, r: Record)
    requires DistinctIndices(g)
    ensures multiset(g)[r] <= 1
  {
    if g != [] {
      var last := |g| - 1;
      AtMostOnce(g[..last], r);
      assert g == g[..last] + [g[last]];
      assert g[last] !in g[..last];
      assert g[last] !in multiset(g[..last]);
    }
  }

  // ----- Decoding

  lemma {:induction false} StartGrows(d: Dimensions, i: nat, j: nat)
    requires i <= j
    ensures HEADER_SIZE <= Start(d, i) <= Start(d, j)
    ensures i < j ==> Start(d, i) + RecordSize(d) <= Start(d, j)
    decreases j
  {
    if i < j {
      StartGrows(d, i, j - 1);
    } else if i > 0 {
      StartGrows(d, i - 1, j - 1);
    }
  }

  /** The bytes of a file that has the right size, field by field. */
  function RecordAt(bytes: seq<byte>, d: Dimensions, i: u32): Record
    requires |bytes| == FileSize(d) && i < d.count
  {
    StartGrows(d, i, d.count);
    var at := Start(d, i);
    Record(i, bytes[at..at + d.metadataSize], bytes[at + d.metadataSize..at + d.metadataSize + d.pokemonSize])
  }

  function ChecksumAt(bytes: seq<byte>, d: Dimensions, i: u32): u32
    requires |bytes| == FileSize(d) && i < d.count
  {
    StartGrows(d, i, d.count);
    var end := Start(d, i) + RecordSize(d);
    U32(bytes[end - CHECKSUM_SIZE..end])
  }

  predicate GoodRecord(bytes: seq<byte>, d: Dimensions, i: u32)
    requires |bytes| == FileSize(d) && i < d.count
  {
    var r := RecordAt(bytes, d, i);
    ChecksumAt(bytes, d, i) == Checksum(r.metadata, r.pokemon)
  }

  function RecordsIn(bytes: seq<byte>, d: Dimensions, n: nat): (rs: seq<Record>)
    requires |bytes| == FileSize(d) && n <= d.count
    ensures |rs| == n
  {
    if n == 0 then [] else RecordsIn(bytes, d, n - 1) + [RecordAt(bytes, d, n - 1)]
  }

  lemma {:induction false} RecordsInAt(bytes: seq<byte>, d: Dimensions, n: nat, i: nat)
    requires |bytes| == FileSize(d) && i < n <= d.count
    ensures RecordsIn(bytes, d, n)[i] == RecordAt(bytes, d, i)
  {
    if i < n - 1 {
      RecordsInAt(bytes, d, n - 1, i);
    }
  }

  predicate HeaderMatches(bytes: seq<byte>, d: Dimensions)
    requires |bytes| == FileSize(d)
  {
    StartGrows(d, 0, d.count);
    && U32(bytes[..4]) == HEADER_MAGIC && U32(bytes[4..8]) == FORMAT_VERSION && U32(bytes[8..12]) == d.count
    && U32(bytes[12..16]) == d.metadataSize && U32(bytes[16..20]) == d.pokemonSize
  }

  /** The first `n` records are good. */
  predicate GoodRecords(bytes: seq<byte>, d: Dimensions, n: nat)
    requires |bytes| == FileSize(d) && n <= d.count
  {
    n == 0 || (GoodRecords(bytes, d, n - 1) && GoodRecord(bytes, d, n - 1))
  }

  lemma {:induction false} EachIsGood(bytes: seq<byte>, d: Dimensions, n: nat, i: u32)
    requires |bytes| == FileSize(d) && i < n <= d.count && GoodRecords(bytes, d, n)
    ensures GoodRecord(bytes, d, i)
  {
    if i < n - 1 {
      EachIsGood(bytes, d, n - 1, i);
    }
  }

  predicate Accepts(bytes: seq<byte>, d: Dimensions) {
    && ValidDimensions(d) && |bytes| == FileSize(d)
    && HeaderMatches(bytes, d)
    && GoodRecords(bytes, d, d.count)
    && U32(bytes[|bytes| - 4..]) == FOOTER_MAGIC
  }

  /** `DecodeHomeBox`. */
  function TryDecode(bytes: seq<byte>, d: Dimensions): Option<HomeBox> {
    if Accepts(bytes, d) then Some(HomeBox(d, RecordsIn(bytes, d, d.count))) else None
  }

  // ----- The two are inverse

  lemma FiveFields(s: seq<byte>, a: seq<byte>, b: seq<byte>, c: seq<byte>, d: seq<byte>, e: seq<byte>)
    requires |s| >= 20 && |a| == |b| == |c| == |d| == |e| == 4
    ensures s[..20] == a + b + c + d + e
            <==> s[..4] == a && s[4..8] == b && s[8..12] == c && s[12..16] == d && s[16..20] == e
  {
    var f := a + b + c + d + e;
    assert f[..4] == a && f[4..8] == b && f[8..12] == c && f[12..16] == d && f[16..20] == e;
    var t := s[..20];
    assert t[..4] == s[..4] && t[4..8] == s[4..8] && t[8..12] == s[8..12] && t[12..16] == s[12..16];
    assert t[16..20] == s[16..20];
    assert t == t[..4] + t[4..8] + t[8..12] + t[12..16] + t[16..20];
  }

  lemma HeaderFields(d: Dimensions, bytes: seq<byte>)
    requires |bytes| == FileSize(d)
    ensures |bytes| >= HEADER_SIZE
    ensures HeaderMatches(bytes, d) <==> bytes[..HEADER_SIZE] == Header(d)
  {
    StartGrows(d, 0, d.count);
    Le32Bijection(HEADER_MAGIC, bytes[..4]);
    Le32Bijection(FORMAT_VERSION, bytes[4..8]);
    Le32Bijection(d.count, bytes[8..12]);
    Le32Bijection(d.metadataSize, bytes[12..16]);
    Le32Bijection(d.pokemonSize, bytes[16..20]);
    FiveFields(bytes, Le32(HEADER_MAGIC), Le32(FORMAT_VERSION), Le32(d.count), Le32(d.metadataSize), Le32(d.pokemonSize));
  }

  /** A record is good if and only if its bytes are the encoding of what is read from them. */
  lemma GoodRecordIsEncoded(bytes: seq<byte>, d: Dimensions, i: u32)
    requires |bytes| == FileSize(d) && i < d.count
    ensures Start(d, i + 1) <= |bytes|
    ensures GoodRecord(bytes, d, i) <==> bytes[Start(d, i)..Start(d, i + 1)] == EncodeRecord(RecordAt(bytes, d, i))
  {
    var r := RecordAt(bytes, d, i);
    ChecksumFollows(bytes, d, i, Checksum(r.metadata, r.pokemon));
  }

  lemma RecordBytes(bytes: seq<byte>, d: Dimensions, i: u32)
    requires |bytes| == FileSize(d) && i < d.count
    ensures Start(d, i) <= Start(d, i + 1) - 4 && Start(d, i + 1) <= |bytes|
    ensures var r, end := RecordAt(bytes, d, i), Start(d, i + 1);
            && bytes[Start(d, i)..end] == r.metadata + r.pokemon + bytes[end - 4..end]
            && ChecksumAt(bytes, d, i) == U32(bytes[end - 4..end])
  {
    StartGrows(d, i, d.count);
    StartGrows(d, i + 1, d.count);
    var at, end := Start(d, i), Start(d, i + 1);
    ThreeSlices(bytes, at, at + d.metadataSize, end - 4, end);
  }

  lemma ChecksumFollows(bytes: seq<byte>, d: Dimensions, i: u32, c: u32)
    requires |bytes| == FileSize(d) && i < d.count
    ensures Start(d, i + 1) <= |bytes|
    ensures var r := RecordAt(bytes, d, i);
            ChecksumAt(bytes, d, i) == c <==> bytes[Start(d, i)..Start(d, i + 1)] == r.metadata + r.pokemon + Le32(c)
  {
    RecordBytes(bytes, d, i);
    var end, r := Start(d, i + 1), RecordAt(bytes, d, i);
    SameField(bytes[end - 4..end], c);
    SameFront(r.metadata + r.pokemon, bytes[end - 4..end], Le32(c));
  }

  lemma SameField(s: seq<byte>, c: u32)
    requires |s| == 4
    ensures U32(s) == c <==> s == Le32(c)
  {
    Le32Bijection(c, s);
  }

  lemma ThreeSlices<T>(s: seq<T>, i: nat, j: nat, k: nat, m: nat)
    requires i <= j <= k <= m <= |s|
    ensures s[i..m] == s[i..j] + s[j..k] + s[k..m]
  {
  }

  lemma SameFront<T>(a: seq<T>, b: seq<T>, c: seq<T>)
    ensures a + b == a + c <==> b == c
  {
    assert (a + b)[|a|..] == b && (a + c)[|a|..] == c;
  }

  predicate Sized(r: Record, d: Dimensions) {
    |r.metadata| == d.metadataSize && |r.pokemon| == d.pokemonSize
  }

  predicate AllSized(rs: seq<Record>, d: Dimensions) {
    forall i :: 0 <= i < |rs| ==> Sized(rs[i], d)
  }

  predicate AllOfSize(pieces: seq<seq<byte>>, size: nat) {
    forall k :: 0 <= k < |pieces| ==> |pieces[k]| == size
  }

  lemma {:induction false} JoinSize(pieces: seq<seq<byte>>, d: Dimensions)
    requires AllOfSize(pieces, RecordSize(d))
    ensures |Join(pieces)| == Start(d, |pieces|) - HEADER_SIZE
    decreases |pieces|
  {
    if pieces != [] {
      JoinSize(pieces[..|pieces| - 1], d);
    }
  }

  /** Where the pieces of one size are, when they are joined. */
  predicate IsJoinedAt(joined: seq<byte>, d: Dimensions, i: nat, piece: seq<byte>) {
    && HEADER_SIZE <= Start(d, i) <= Start(d, i + 1) <= HEADER_SIZE + |joined|
    && joined[Start(d, i) - HEADER_SIZE..Start(d, i + 1) - HEADER_SIZE] == piece
  }

  lemma {:induction false} JoinAt(pieces: seq<seq<byte>>, d: Dimensions, i: nat)
    requires AllOfSize(pieces, RecordSize(d)) && i < |pieces|
    ensures IsJoinedAt(Join(pieces), d, i, pieces[i])
    decreases |pieces|
  {
    var last := |pieces| - 1;
    JoinSize(pieces[..last], d);
    if i < last {
      JoinAt(pieces[..last], d, i);
      JoinedBefore(Join(pieces[..last]), pieces[last], d, i, pieces[i]);
    } else {
      JoinedLast(Join(pieces[..last]), pieces[last], d, last);
    }
  }

  lemma JoinedBefore(joined: seq<byte>, more: seq<byte>, d: Dimensions, i: nat, piece: seq<byte>)
    requires IsJoinedAt(joined, d, i, piece)
    ensures IsJoinedAt(joined + more, d, i, piece)
  {
    SliceOfFront(joined, more, Start(d, i) - HEADER_SIZE, Start(d, i + 1) - HEADER_SIZE);
  }

  lemma JoinedLast(joined: seq<byte>, piece: seq<byte>, d: Dimensions, i: nat)
    requires |joined| == Start(d, i) - HEADER_SIZE && |piece| == RecordSize(d)
    ensures IsJoinedAt(joined + piece, d, i, piece)
  {
    SliceOfBack(joined, piece);
  }

  lemma SliceOfBack<T>(a: seq<T>, b: seq<T>)
    ensures (a + b)[|a|..|a| + |b|] == b
  {
  }

  lemma SliceOfFront<T>(a: seq<T>, b: seq<T>, i: nat, j: nat)
    requires i <= j <= |a|
    ensures (a + b)[i..j] == a[i..j]
  {
  }

  /** Where the records of an image are. */
  lemma EncodedRecordsAt(rs: seq<Record>, d: Dimensions, i: nat)
    requires AllSized(rs, d) && i < |rs|
    ensures IsJoinedAt(EncodeRecords(rs), d, i, EncodeRecord(rs[i]))
  {
    JoinAt(Pieces(rs), d, i);
  }

  lemma EncodedRecordsSize(rs: seq<Record>, d: Dimensions)
    requires AllSized(rs, d)
    ensures |EncodeRecords(rs)| == Start(d, |rs|) - HEADER_SIZE
  {
    JoinSize(Pieces(rs), d);
  }

  lemma Adjacent<T>(s: seq<T>, i: nat, j: nat, k: nat)
    requires i <= j <= k <= |s|
    ensures s[i..k] == s[i..j] + s[j..k]
  {
  }

  predicate IsEncodedAt(bytes: seq<byte>, d: Dimensions, i: nat, r: Record) {
    Start(d, i) <= Start(d, i + 1) <= |bytes| && bytes[Start(d, i)..Start(d, i + 1)] == EncodeRecord(r)
  }

  predicate IsPieceAt(bytes: seq<byte>, d: Dimensions, i: nat, piece: seq<byte>) {
    Start(d, i) <= Start(d, i + 1) <= |bytes| && bytes[Start(d, i)..Start(d, i + 1)] == piece
  }

  lemma {:induction false} PiecesJoin(bytes: seq<byte>, d: Dimensions, pieces: seq<seq<byte>>)
    requires Start(d, |pieces|) <= |bytes|
    requires forall i :: 0 <= i < |pieces| ==> IsPieceAt(bytes, d, i, pieces[i])
    ensures HEADER_SIZE <= Start(d, |pieces|) && bytes[HEADER_SIZE..Start(d, |pieces|)] == Join(pieces)
  {
    if pieces != [] {
      var last := |pieces| - 1;
      StartGrows(d, 0, last);
      assert IsPieceAt(bytes, d, last, pieces[last]);
      PiecesJoin(bytes, d, pieces[..last]);
      Adjacent(bytes, HEADER_SIZE, Start(d, last), Start(d, last + 1));
    }
  }

  lemma RecordsAreEncoded(bytes: seq<byte>, d: Dimensions)
    requires |bytes| == FileSize(d) && GoodRecords(bytes, d, d.count)
    ensures HEADER_SIZE <= Start(d, d.count) <= |bytes|
    ensures bytes[HEADER_SIZE..Start(d, d.count)] == EncodeRecords(RecordsIn(bytes, d, d.count))
  {
    var rs := RecordsIn(bytes, d, d.count);
    forall i: nat | i < |rs| ensures IsPieceAt(bytes, d, i, Pieces(rs)[i]) {
      EachIsGood(bytes, d, d.count, i);
      GoodPiece(bytes, d, i);
      RecordsInAt(bytes, d, d.count, i);
    }
    PiecesJoin(bytes, d, Pieces(rs));
  }

  lemma GoodPiece(bytes: seq<byte>, d: Dimensions, i: u32)
    requires |bytes| == FileSize(d) && i < d.count && GoodRecord(bytes, d, i)
    ensures IsPieceAt(bytes, d, i, EncodeRecord(RecordAt(bytes, d, i)))
  {
    StartGrows(d, i, i + 1);
    GoodRecordIsEncoded(bytes, d, i);
  }

  lemma EncodeOneMore(rs: seq<Record>, r: Record)
    ensures EncodeRecords(rs + [r]) == EncodeRecords(rs) + EncodeRecord(r)
  {
    assert Pieces(rs + [r])[..|rs|] == Pieces(rs);
  }

  lemma FooterMatches(bytes: seq<byte>)
    requires |bytes| >= FOOTER_SIZE
    ensures U32(bytes[|bytes| - 4..]) == FOOTER_MAGIC <==> bytes[|bytes| - 4..] == Le32(FOOTER_MAGIC)
  {
    Le32Bijection(FOOTER_MAGIC, bytes[|bytes| - 4..]);
  }

  /** What is accepted is the image of what is read. */
  lemma AcceptedIsImage(bytes: seq<byte>, d: Dimensions)
    requires Accepts(bytes, d)
    ensures bytes == Image(d, RecordsIn(bytes, d, d.count))
  {
    HeaderFields(d, bytes);
    RecordsAreEncoded(bytes, d);
    FooterMatches(bytes);
    Adjacent(bytes, 0, HEADER_SIZE, |bytes|);
    Adjacent(bytes, HEADER_SIZE, Start(d, d.count), |bytes|);
    ThreeParts(bytes, HEADER_SIZE, Start(d, d.count));
  }

  lemma ThreeParts<T>(s: seq<T>, i: nat, j: nat)
    requires i <= j <= |s|
    ensures s == s[..i] + s[i..j] + s[j..]
  {
  }

  predicate IndexedFromZero(rs: seq<Record>) {
    forall i :: 0 <= i < |rs| ==> rs[i].index == i
  }

  lemma ImageEnds(d: Dimensions, rs: seq<Record>)
    requires |rs| == d.count && AllSized(rs, d)
    ensures |Image(d, rs)| == FileSize(d) && HeaderMatches(Image(d, rs), d)
    ensures U32(Image(d, rs)[|Image(d, rs)| - 4..]) == FOOTER_MAGIC
  {
    var bytes := Image(d, rs);
    EncodedRecordsSize(rs, d);
    StartGrows(d, 0, d.count);
    assert bytes[..HEADER_SIZE] == Header(d);
    HeaderFields(d, bytes);
    FooterMatches(bytes);
  }

  lemma SliceOfSlice<T>(s: seq<T>, i: nat, j: nat, a: nat, b: nat)
    requires i <= j <= |s| && a <= b <= j - i
    ensures s[i..j][a..b] == s[i + a..i + b]
  {
    forall k | 0 <= k < b - a ensures s[i..j][a..b][k] == s[i + a..i + b][k] {
      assert s[i..j][a..b][k] == s[i..j][a + k] == s[i + (a + k)];
    }
  }

  lemma ImageRecord(d: Dimensions, rs: seq<Record>, i: nat)
    requires |rs| == d.count && AllSized(rs, d) && i < d.count && |Image(d, rs)| == FileSize(d)
    ensures Start(d, i) <= Start(d, i + 1) <= FileSize(d)
    ensures Image(d, rs)[Start(d, i)..Start(d, i + 1)] == EncodeRecord(rs[i])
  {
    EncodedRecordsAt(rs, d, i);
    var from, to := Start(d, i) - HEADER_SIZE, Start(d, i + 1) - HEADER_SIZE;
    var header, all, footer := Header(d), EncodeRecords(rs), Le32(FOOTER_MAGIC);
    assert Image(d, rs) == header + all + footer && |header| + from == Start(d, i) && |header| + to == Start(d, i + 1);
    InTheMiddle(header, all, footer, from, to);
  }

  lemma InTheMiddle<T>(a: seq<T>, b: seq<T>, c: seq<T>, i: nat, j: nat)
    requires i <= j <= |b|
    ensures (a + b + c)[|a| + i..|a| + j] == b[i..j]
  {
    Middle(a, b, c);
    SliceOfSlice(a + b + c, |a|, |a| + |b|, i, j);
  }

  lemma Middle<T>(a: seq<T>, b: seq<T>, c: seq<T>)
    ensures (a + b + c)[|a|..|a| + |b|] == b
  {
  }

  lemma RecordIsRead(bytes: seq<byte>, d: Dimensions, i: u32, r: Record)
    requires |bytes| == FileSize(d) && i < d.count && r.index == i && Sized(r, d)
    requires Start(d, i) <= Start(d, i + 1) <= |bytes| && bytes[Start(d, i)..Start(d, i + 1)] == EncodeRecord(r)
    ensures RecordAt(bytes, d, i) == r
  {
    SplitPiece(bytes, Start(d, i), r.metadata, r.pokemon, Le32(Checksum(r.metadata, r.pokemon)));
  }

  lemma SplitPiece<T>(s: seq<T>, at: nat, a: seq<T>, b: seq<T>, c: seq<T>)
    requires at + |a| + |b| + |c| <= |s| && s[at..at + |a| + |b| + |c|] == a + b + c
    ensures s[at..at + |a|] == a && s[at + |a|..at + |a| + |b|] == b
  {
    var end := at + |a| + |b| + |c|;
    SliceOfSlice(s, at, end, 0, |a|);
    SliceOfSlice(s, at, end, |a|, |a| + |b|);
    FrontAndMiddle(a, b, c);
  }

  lemma FrontAndMiddle<T>(a: seq<T>, b: seq<T>, c: seq<T>)
    ensures (a + b + c)[0..|a|] == a && (a + b + c)[|a|..|a| + |b|] == b
  {
  }

  /** The image of records in index order is accepted, and reads back as those records. */
  lemma ImageIsAccepted(d: Dimensions, rs: seq<Record>)
    requires ValidDimensions(d) && |rs| == d.count && AllSized(rs, d) && IndexedFromZero(rs)
    ensures Accepts(Image(d, rs), d) && RecordsIn(Image(d, rs), d, d.count) == rs
  {
    ImageEnds(d, rs);
    var bytes := Image(d, rs);
    forall i | 0 <= i < |rs| ensures IsEncodedAt(bytes, d, i, rs[i]) {
      ImageRecord(d, rs, i);
    }
    EncodedRecordsAreGood(bytes, d, rs, d.count);
    EncodedRecordsAreRead(bytes, d, rs);
  }

  lemma EncodedRecordsAreRead(bytes: seq<byte>, d: Dimensions, rs: seq<Record>)
    requires |bytes| == FileSize(d) && |rs| == d.count && AllSized(rs, d) && IndexedFromZero(rs)
    requires forall i :: 0 <= i < |rs| ==> IsEncodedAt(bytes, d, i, rs[i])
    ensures RecordsIn(bytes, d, d.count) == rs
  {
    forall i: u32 | i < d.count ensures RecordsIn(bytes, d, d.count)[i] == rs[i] {
      RecordIsRead(bytes, d, i, rs[i]);
      RecordsInAt(bytes, d, d.count, i);
    }
  }

  lemma EncodedRecordIsGood(bytes: seq<byte>, d: Dimensions, i: u32, r: Record)
    requires |bytes| == FileSize(d) && i < d.count && r.index == i && Sized(r, d) && IsEncodedAt(bytes, d, i, r)
    ensures GoodRecord(bytes, d, i)
  {
    RecordIsRead(bytes, d, i, r);
    GoodRecordIsEncoded(bytes, d, i);
  }

  lemma {:induction false} EncodedRecordsAreGood(bytes: seq<byte>, d: Dimensions, rs: seq<Record>, n: nat)
    requires |bytes| == FileSize(d) && |rs| == d.count && AllSized(rs, d) && IndexedFromZero(rs) && n <= d.count
    requires forall i :: 0 <= i < |rs| ==> IsEncodedAt(bytes, d, i, rs[i])
    ensures GoodRecords(bytes, d, n)
  {
    if n > 0 {
      EncodedRecordsAreGood(bytes, d, rs, n - 1);
      EncodedRecordIsGood(bytes, d, n - 1, rs[n - 1]);
    }
  }

  lemma OrderedIsByIndex(h: HomeBox)
    requires ValidHomeBox(h) && IndexedFromZero(h.records)
    ensures ByIndex(h) == h.records
  {
    forall i | 0 <= i < |h.records| ensures ByIndex(h)[i] == h.records[i] {
      SameIndexSameRecord(h.records, ByIndex(h)[i], h.records[i]);
    }
  }

  lemma DecodedIsEncoded(bytes: seq<byte>, d: Dimensions)
    requires Accepts(bytes, d)
    ensures var h := HomeBox(d, RecordsIn(bytes, d, d.count)); IndexedFromZero(h.records) && TryEncode(h) == Some(bytes)
  {
    var h := HomeBox(d, RecordsIn(bytes, d, d.count));
    forall r | r in h.records ensures FitsDimensions(r, d) {
      var i: nat :| i < |h.records| && h.records[i] == r;
      RecordsInAt(bytes, d, d.count, i);
      StartGrows(d, i, d.count);
    }
    forall i | 0 <= i < |h.records| ensures h.records[i].index == i {
      RecordsInAt(bytes, d, d.count, i);
    }
    OrderedIsByIndex(h);
    AcceptedIsImage(bytes, d);
  }

  /** A file decodes as `h` if and only if the encoder writes it for `h`, with the records in index order. */
  lemma HomeBoxBijection(bytes: seq<byte>, d: Dimensions, h: HomeBox)
    ensures TryDecode(bytes, d) == Some(h)
            <==> h.dimensions == d && IndexedFromZero(h.records) && TryEncode(h) == Some(bytes)
  {
    if Accepts(bytes, d) {
      DecodedIsEncoded(bytes, d);
    }
    if h.dimensions == d && IndexedFromZero(h.records) && TryEncode(h) == Some(bytes) {
      OrderedIsByIndex(h);
      ImageIsAccepted(d, h.records);
    }
  }

  /** Decoding what was encoded gives the records in index order. */
  lemma RoundTrip(h: HomeBox)
    requires ValidHomeBox(h)
    ensures TryDecode(TryEncode(h).value, h.dimensions) == Some(HomeBox(h.dimensions, ByIndex(h)))
  {
    ImageIsAccepted(h.dimensions, ByIndex(h));
  }

  // ----- Damage

  lemma ByteSumAt(s: seq<byte>, i: nat)
    requires i < |s|
    ensures ByteSum(s) == ByteSum(s[..i]) + s[i] + ByteSum(s[i + 1..])
  {
    ByteSumConcat(s[..i] + [s[i]], s[i + 1..]);
    assert s == s[..i] + [s[i]] + s[i + 1..];
    ByteSumOneMore(s[..i], s[i]);
  }

  lemma ByteSumOneMore(s: seq<byte>, b: byte)
    ensures ByteSum(s + [b]) == ByteSum(s) + b
  {
    assert (s + [b])[..|s|] == s;
  }

  predicate SameBut(s: seq<byte>, t: seq<byte>, i: nat) {
    |s| == |t| && i < |s| && s[..i] == t[..i] && s[i + 1..] == t[i + 1..]
  }

  /** Two different encodings of records of the same dimensions differ in at least two bytes. */
  lemma RecordsDifferTwice(r: Record, q: Record, d: Dimensions, i: nat)
    requires ValidDimensions(d) && Sized(r, d) && Sized(q, d) && SameBut(EncodeRecord(r), EncodeRecord(q), i)
    ensures EncodeRecord(r) == EncodeRecord(q)
  {
    if i < |r.metadata| + |r.pokemon| {
      DataDiffersTwice(r, q, d, i);
    } else {
      var a, b := r.metadata + r.pokemon, q.metadata + q.pokemon;
      PrefixOf(a, Le32(Checksum(r.metadata, r.pokemon)), i);
      PrefixOf(b, Le32(Checksum(q.metadata, q.pokemon)), i);
    }
  }

  lemma PrefixOf<T>(a: seq<T>, c: seq<T>, i: nat)
    requires |a| <= i <= |a| + |c|
    ensures a == (a + c)[..i][..|a|]
  {
  }

  lemma DataDiffersTwice(r: Record, q: Record, d: Dimensions, i: nat)
    requires ValidDimensions(d) && Sized(r, d) && Sized(q, d) && SameBut(EncodeRecord(r), EncodeRecord(q), i)
    requires i < |r.metadata| + |r.pokemon|
    ensures r.metadata + r.pokemon == q.metadata + q.pokemon
  {
    var a, b := r.metadata + r.pokemon, q.metadata + q.pokemon;
    var c, e := Checksum(r.metadata, r.pokemon), Checksum(q.metadata, q.pokemon);
    TailsAgree(a, Le32(c), b, Le32(e), i);
    Le32Bijection(c, Le32(c));
    Le32Bijection(e, Le32(e));
    SameChecksumSameSum(r, q, d);
    SameSumSameByte(a, b, i);
  }

  lemma SameSumSameByte(a: seq<byte>, b: seq<byte>, i: nat)
    requires SameBut(a, b, i) && ByteSum(a) == ByteSum(b)
    ensures a == b
  {
    ByteSumAt(a, i);
    ByteSumAt(b, i);
    assert a == a[..i] + [a[i]] + a[i + 1..] && b == b[..i] + [b[i]] + b[i + 1..];
  }

  lemma TailsAgree(a: seq<byte>, c: seq<byte>, b: seq<byte>, e: seq<byte>, i: nat)
    requires |a| == |b| && |c| == |e| && i < |a| && SameBut(a + c, b + e, i)
    ensures a[..i] == b[..i] && a[i + 1..] == b[i + 1..] && c == e
  {
    assert a[..i] == (a + c)[..i] && b[..i] == (b + e)[..i];
    var s, t := (a + c)[i + 1..], (b + e)[i + 1..];
    assert s == a[i + 1..] + c && t == b[i + 1..] + e;
    assert a[i + 1..] == s[..|a| - i - 1] && c == s[|a| - i - 1..];
    assert b[i + 1..] == t[..|a| - i - 1] && e == t[|a| - i - 1..];
  }

  lemma SameChecksumSameSum(r: Record, q: Record, d: Dimensions)
    requires ValidDimensions(d) && Sized(r, d) && Sized(q, d)
    ensures Checksum(r.metadata, r.pokemon) == Checksum(q.metadata, q.pokemon)
            <==> ByteSum(r.metadata + r.pokemon) == ByteSum(q.metadata + q.pokemon)
  {
    ByteSumConcat(r.metadata, r.pokemon);
    ByteSumConcat(q.metadata, q.pokemon);
    ChecksumIsExact(r.metadata, r.pokemon);
    ChecksumIsExact(q.metadata, q.pokemon);
  }

  // ----- Damage to whole files

  lemma SameOutside(s: seq<byte>, t: seq<byte>, i: nat, from: nat, to: nat)
    requires SameBut(s, t, i) && from <= to <= |s| && (i < from || to <= i)
    ensures s[from..to] == t[from..to]
  {
    if to <= i {
      SliceOfSlice(s, 0, i, from, to);
      SliceOfSlice(t, 0, i, from, to);
      assert s[0..i] == s[..i] == t[..i] == t[0..i];
    } else {
      SliceOfSlice(s, i + 1, |s|, from - i - 1, to - i - 1);
      SliceOfSlice(t, i + 1, |t|, from - i - 1, to - i - 1);
      assert s[i + 1..|s|] == s[i + 1..] == t[i + 1..] == t[i + 1..|t|];
    }
  }

  lemma SameInside(s: seq<byte>, t: seq<byte>, i: nat, from: nat, to: nat)
    requires SameBut(s, t, i) && from <= i < to <= |s|
    ensures SameBut(s[from..to], t[from..to], i - from)
  {
    SameOutside(s, t, i, from, i);
    SameOutside(s, t, i, i + 1, to);
    assert s[from..to][..i - from] == s[from..i] && t[from..to][..i - from] == t[from..i];
    assert s[from..to][i - from + 1..] == s[i + 1..to] && t[from..to][i - from + 1..] == t[i + 1..to];
  }

  /** The part of the file that byte `i` belongs to: the header, record `k`, or the footer. */
  lemma {:induction false} PartOf(d: Dimensions, n: nat, i: nat) returns (k: nat)
    requires HEADER_SIZE <= i < Start(d, n)
    ensures k < n && Start(d, k) <= i < Start(d, k + 1) <= Start(d, n)
  {
    if i < Start(d, n - 1) {
      k := PartOf(d, n - 1, i);
    } else {
      k := n - 1;
    }
  }

  /** Two files that are accepted for the same dimensions never differ in one byte only. */
  lemma AcceptedFilesDifferTwice(s: seq<byte>, t: seq<byte>, d: Dimensions, i: nat)
    requires Accepts(s, d) && Accepts(t, d) && SameBut(s, t, i)
    ensures s == t
  {
    StartGrows(d, 0, d.count);
    if i < HEADER_SIZE {
      HeaderUnchanged(s, t, d, i);
    } else if i < Start(d, d.count) {
      var k := PartOf(d, d.count, i);
      RecordUnchanged(s, t, d, k, i);
    } else {
      FooterUnchanged(s, t, i);
    }
    SameByteSame(s, t, i);
  }

  lemma SameByteSame(s: seq<byte>, t: seq<byte>, i: nat)
    requires SameBut(s, t, i) && s[i] == t[i]
    ensures s == t
  {
    assert s == s[..i] + [s[i]] + s[i + 1..] && t == t[..i] + [t[i]] + t[i + 1..];
  }

  lemma HeaderUnchanged(s: seq<byte>, t: seq<byte>, d: Dimensions, i: nat)
    requires |s| == |t| == FileSize(d) && HeaderMatches(s, d) && HeaderMatches(t, d) && i < HEADER_SIZE
    ensures i < |s| && s[i] == t[i]
  {
    HeaderFields(d, s);
    HeaderFields(d, t);
    assert s[i] == s[..HEADER_SIZE][i] && t[i] == t[..HEADER_SIZE][i];
  }

  lemma FooterUnchanged(s: seq<byte>, t: seq<byte>, i: nat)
    requires |s| == |t| && |s| - 4 <= i < |s| && |s| >= 4
    requires U32(s[|s| - 4..]) == FOOTER_MAGIC && U32(t[|t| - 4..]) == FOOTER_MAGIC
    ensures s[i] == t[i]
  {
    FooterMatches(s);
    FooterMatches(t);
    assert s[i] == s[|s| - 4..][i - (|s| - 4)] && t[i] == t[|t| - 4..][i - (|t| - 4)];
  }

  lemma RecordUnchanged(s: seq<byte>, t: seq<byte>, d: Dimensions, k: u32, i: nat)
    requires Accepts(s, d) && Accepts(t, d) && SameBut(s, t, i) && k < d.count
    requires Start(d, k) <= i < Start(d, k + 1) <= |s|
    ensures s[i] == t[i]
  {
    EachIsGood(s, d, d.count, k);
    EachIsGood(t, d, d.count, k);
    GoodPiece(s, d, k);
    GoodPiece(t, d, k);
    RecordIsSized(s, d, k);
    RecordIsSized(t, d, k);
    SamePiece(s, t, d, k, i, RecordAt(s, d, k), RecordAt(t, d, k));
  }

  lemma SamePiece(s: seq<byte>, t: seq<byte>, d: Dimensions, k: nat, i: nat, r: Record, q: Record)
    requires ValidDimensions(d) && SameBut(s, t, i) && Start(d, k) <= i < Start(d, k + 1) <= |s|
    requires Sized(r, d) && Sized(q, d) && IsPieceAt(s, d, k, EncodeRecord(r)) && IsPieceAt(t, d, k, EncodeRecord(q))
    ensures s[i] == t[i]
  {
    var from, to := Start(d, k), Start(d, k + 1);
    SameInside(s, t, i, from, to);
    RecordsDifferTwice(r, q, d, i - from);
    assert s[i] == s[from..to][i - from] && t[i] == t[from..to][i - from];
  }

  lemma RecordIsSized(bytes: seq<byte>, d: Dimensions, i: u32)
    requires |bytes| == FileSize(d) && i < d.count
    ensures Sized(RecordAt(bytes, d, i), d)
  {
    StartGrows(d, i, d.count);
  }

  /** Changing any one byte of an encoded file, cutting it short or making it longer, is always noticed. */
  lemma DamageIsDetected(h: HomeBox, damaged: seq<byte>, i: nat)
    requires ValidHomeBox(h)
    requires var bytes := TryEncode(h).value; (SameBut(damaged, bytes, i) && damaged != bytes) || |damaged| != |bytes|
    ensures TryDecode(damaged, h.dimensions) == None
  {
    RoundTrip(h);
    var bytes := TryEncode(h).value;
    if Accepts(damaged, h.dimensions) {
      AcceptedFilesDifferTwice(damaged, bytes, h.dimensions, i);
    }
  }

  lemma PatchOutside(s: seq<byte>, at: nat, data: seq<byte>, from: nat, to: nat)
    requires at + |data| <= |s| && from <= to <= |s| && (to <= at || at + |data| <= from)
    ensures Patch(s, at, data)[from..to] == s[from..to]
  {
  }

  lemma PatchInside(s: seq<byte>, at: nat, data: seq<byte>)
    requires at + |data| <= |s|
    ensures Patch(s, at, data)[at..at + |data|] == data
  {
  }

  lemma SameBytesSameRecord(s: seq<byte>, t: seq<byte>, d: Dimensions, i: u32)
    requires |s| == |t| == FileSize(d) && i < d.count && Start(d, i) + RecordSize(d) <= |s|
    requires s[Start(d, i)..Start(d, i) + RecordSize(d)] == t[Start(d, i)..Start(d, i) + RecordSize(d)]
    ensures RecordAt(s, d, i) == RecordAt(t, d, i) && ChecksumAt(s, d, i) == ChecksumAt(t, d, i)
  {
    var at, m, n: nat := Start(d, i), d.metadataSize, d.pokemonSize;
    var end := at + RecordSize(d);
    SameSubSlice(s, t, at, end, at, at + m);
    SameSubSlice(s, t, at, end, at + m, at + m + n);
    SameSubSlice(s, t, at, end, end - 4, end);
  }

  lemma SameSubSlice<T>(s: seq<T>, t: seq<T>, i: nat, j: nat, a: nat, b: nat)
    requires i <= a <= b <= j <= |s| == |t| && s[i..j] == t[i..j]
    ensures s[a..b] == t[a..b]
  {
    SliceOfSlice(s, i, j, a - i, b - i);
    SliceOfSlice(t, i, j, a - i, b - i);
  }

  lemma OtherBytesStay(bytes: seq<byte>, d: Dimensions, k: u32, data: seq<byte>, i: u32)
    requires |bytes| == FileSize(d) && k < d.count && i < d.count && i != k && |data| == RecordSize(d) - CHECKSUM_SIZE
    requires Start(d, k) + |data| <= |bytes|
    ensures Start(d, i) + RecordSize(d) <= |bytes|
    ensures Patch(bytes, Start(d, k), data)[Start(d, i)..Start(d, i) + RecordSize(d)]
         == bytes[Start(d, i)..Start(d, i) + RecordSize(d)]
  {
    StartGrows(d, i, d.count);
    if i < k {
      StartGrows(d, i, k);
    } else {
      StartGrows(d, k, i);
    }
    PatchOutside(bytes, Start(d, k), data, Start(d, i), Start(d, i) + RecordSize(d));
  }

  lemma OtherRecordStays(bytes: seq<byte>, d: Dimensions, k: u32, data: seq<byte>, i: u32)
    requires |bytes| == FileSize(d) && k < d.count && i < d.count && i != k && |data| == RecordSize(d) - CHECKSUM_SIZE
    requires Start(d, k) + |data| <= |bytes|
    ensures GoodRecord(Patch(bytes, Start(d, k), data), d, i) <==> GoodRecord(bytes, d, i)
  {
    OtherBytesStay(bytes, d, k, data, i);
    SameBytesSameVerdict(Patch(bytes, Start(d, k), data), bytes, d, i);
  }

  lemma SameBytesSameVerdict(s: seq<byte>, t: seq<byte>, d: Dimensions, i: u32)
    requires |s| == |t| == FileSize(d) && i < d.count && Start(d, i) + RecordSize(d) <= |s|
    requires s[Start(d, i)..Start(d, i) + RecordSize(d)] == t[Start(d, i)..Start(d, i) + RecordSize(d)]
    ensures GoodRecord(s, d, i) <==> GoodRecord(t, d, i)
  {
    SameBytesSameRecord(s, t, d, i);
    SameRecordSameVerdict(s, t, d, i);
  }

  lemma SameRecordSameVerdict(s: seq<byte>, t: seq<byte>, d: Dimensions, i: u32)
    requires |s| == |t| == FileSize(d) && i < d.count
    requires RecordAt(s, d, i) == RecordAt(t, d, i) && ChecksumAt(s, d, i) == ChecksumAt(t, d, i)
    ensures GoodRecord(s, d, i) <==> GoodRecord(t, d, i)
  {
  }

  lemma EndsStay(bytes: seq<byte>, d: Dimensions, at: nat, data: seq<byte>)
    requires |bytes| == FileSize(d) && HEADER_SIZE <= at && at + |data| <= |bytes| - 4
    ensures HeaderMatches(Patch(bytes, at, data), d) <==> HeaderMatches(bytes, d)
    ensures Patch(bytes, at, data)[|bytes| - 4..] == bytes[|bytes| - 4..]
  {
    var other := Patch(bytes, at, data);
    HeaderFields(d, bytes);
    HeaderFields(d, other);
    PatchOutside(bytes, at, data, 0, HEADER_SIZE);
    PatchOutside(bytes, at, data, |bytes| - 4, |bytes|);
    assert other[..HEADER_SIZE] == other[0..HEADER_SIZE] && bytes[..HEADER_SIZE] == bytes[0..HEADER_SIZE];
    assert other[|other| - 4..] == other[|bytes| - 4..|bytes|] && bytes[|bytes| - 4..] == bytes[|bytes| - 4..|bytes|];
  }

  lemma PatchedRecord(bytes: seq<byte>, d: Dimensions, k: u32, q: Record)
    requires |bytes| == FileSize(d) && k < d.count && Sized(q, d) && q.index == k
    requires Start(d, k) + RecordSize(d) <= |bytes|
    ensures var other := Patch(bytes, Start(d, k), q.metadata + q.pokemon);
            RecordAt(other, d, k) == q && ChecksumAt(other, d, k) == ChecksumAt(bytes, d, k)
  {
    var at, m, n: nat, data := Start(d, k), d.metadataSize, d.pokemonSize, q.metadata + q.pokemon;
    var other := Patch(bytes, at, data);
    PatchInside(bytes, at, data);
    SliceOfSlice(other, at, at + m + n, 0, m);
    SliceOfSlice(other, at, at + m + n, m, m + n);
    assert data[0..m] == q.metadata && data[m..m + n] == q.pokemon;
    PatchOutside(bytes, at, data, at + m + n, at + m + n + 4);
  }

  lemma RecordIsInside(bytes: seq<byte>, d: Dimensions, k: u32)
    requires |bytes| == FileSize(d) && k < d.count
    ensures HEADER_SIZE <= Start(d, k) && Start(d, k) + RecordSize(d) <= |bytes| - 4
  {
    StartGrows(d, k, d.count);
    StartGrows(d, 0, k);
  }

  /** The other records stay good. */
  lemma OthersStayGood(bytes: seq<byte>, d: Dimensions, k: u32, data: seq<byte>)
    requires |bytes| == FileSize(d) && GoodRecords(bytes, d, d.count) && k < d.count
    requires |data| == RecordSize(d) - CHECKSUM_SIZE && Start(d, k) + |data| <= |bytes|
    requires GoodRecord(Patch(bytes, Start(d, k), data), d, k)
    ensures GoodRecords(Patch(bytes, Start(d, k), data), d, d.count)
  {
    var other := Patch(bytes, Start(d, k), data);
    forall i: u32 | i < d.count ensures GoodRecord(other, d, i) {
      if i != k {
        OtherStaysGood(bytes, d, k, data, i);
      }
    }
    AllAreGood(other, d, d.count);
  }

  lemma OnlyThatRecord(bytes: seq<byte>, d: Dimensions, k: u32, data: seq<byte>)
    requires Accepts(bytes, d) && k < d.count && |data| == RecordSize(d) - CHECKSUM_SIZE
    ensures HEADER_SIZE <= Start(d, k) && Start(d, k) + RecordSize(d) <= |bytes| - 4
    ensures Accepts(Patch(bytes, Start(d, k), data), d) <==> GoodRecord(Patch(bytes, Start(d, k), data), d, k)
  {
    RecordIsInside(bytes, d, k);
    var other := Patch(bytes, Start(d, k), data);
    EndsStay(bytes, d, Start(d, k), data);
    if GoodRecord(other, d, k) {
      OthersStayGood(bytes, d, k, data);
    } else if GoodRecords(other, d, d.count) {
      EachIsGood(other, d, d.count, k);
    }
  }

  lemma OtherStaysGood(bytes: seq<byte>, d: Dimensions, k: u32, data: seq<byte>, i: u32)
    requires |bytes| == FileSize(d) && GoodRecords(bytes, d, d.count) && k < d.count && i < d.count && i != k
    requires |data| == RecordSize(d) - CHECKSUM_SIZE && Start(d, k) + |data| <= |bytes|
    ensures GoodRecord(Patch(bytes, Start(d, k), data), d, i)
  {
    EachIsGood(bytes, d, d.count, i);
    OtherRecordStays(bytes, d, k, data, i);
  }

  lemma {:induction false} AllAreGood(bytes: seq<byte>, d: Dimensions, n: nat)
    requires |bytes| == FileSize(d) && n <= d.count
    requires forall i: u32 :: i < n ==> GoodRecord(bytes, d, i)
    ensures GoodRecords(bytes, d, n)
    decreases n
  {
    if n != 0 {
      AllAreGood(bytes, d, n - 1);
    }
  }

  /** What the checksum does not see: other data under an old checksum passes if and only if its byte sum is the same. */
  lemma SameSumPasses(bytes: seq<byte>, d: Dimensions, k: u32, q: Record)
    requires Accepts(bytes, d) && k < d.count && Sized(q, d) && q.index == k
    ensures Start(d, k) + RecordSize(d) <= |bytes|
    ensures var r := RecordAt(bytes, d, k);
            Accepts(Patch(bytes, Start(d, k), q.metadata + q.pokemon), d)
            <==> ByteSum(q.metadata + q.pokemon) == ByteSum(r.metadata + r.pokemon)
  {
    OnlyThatRecord(bytes, d, k, q.metadata + q.pokemon);
    PatchedRecord(bytes, d, k, q);
    EachIsGood(bytes, d, d.count, k);
    RecordIsSized(bytes, d, k);
    SameChecksumSameSum(q, RecordAt(bytes, d, k), d);
  }

  lemma SetByteSum(s: seq<byte>, i: nat, b: byte)
    requires i < |s|
    ensures ByteSum(s[i := b]) == ByteSum(s) - s[i] + b
  {
    ByteSumAt(s, i);
    ByteSumAt(s[i := b], i);
    assert s[i := b][..i] == s[..i] && s[i := b][i + 1..] == s[i + 1..];
  }

  function Swapped(s: seq<byte>, i: nat, j: nat): (t: seq<byte>)
    requires i < j < |s|
    ensures |t| == |s|
  {
    s[i := s[j]][j := s[i]]
  }

  lemma SwapKeepsSum(s: seq<byte>, i: nat, j: nat)
    requires i < j < |s|
    ensures ByteSum(Swapped(s, i, j)) == ByteSum(s)
  {
    SetByteSum(s, i, s[j]);
    SetByteSum(s[i := s[j]], j, s[i]);
  }

  /** Two different bytes of a record that change places, for one, are not noticed. */
  lemma SwapPasses(bytes: seq<byte>, d: Dimensions, k: u32, i: nat, j: nat)
    requires Accepts(bytes, d) && k < d.count && i < j < |RecordAt(bytes, d, k).pokemon|
    ensures var r := RecordAt(bytes, d, k);
            && Start(d, k) + RecordSize(d) <= |bytes| && |r.metadata| + |r.pokemon| <= RecordSize(d)
            && var other := Patch(bytes, Start(d, k), r.metadata + Swapped(r.pokemon, i, j));
               Accepts(other, d) && (r.pokemon[i] != r.pokemon[j] ==> other != bytes)
  {
    var r := RecordAt(bytes, d, k);
    RecordIsSized(bytes, d, k);
    var q := r.(pokemon := Swapped(r.pokemon, i, j));
    SwapKeepsSum(r.pokemon, i, j);
    ByteSumConcat(r.metadata, r.pokemon);
    ByteSumConcat(q.metadata, q.pokemon);
    SameSumPasses(bytes, d, k, q);
    PatchedRecord(bytes, d, k, q);
    assert q.pokemon[i] == r.pokemon[j];
  }
}
