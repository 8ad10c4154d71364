/** Bytes, in-place patches of byte sequences, and the little-endian integers of Endian.h.

    A shift-and-or of whole bytes touches disjoint bits, so it is written here as
    multiplication by 256 and addition. */
module Bytes {
  type byte = b: int | 0 <= b < 256

  const U16_LIMIT: nat := 0x1_0000
  const U32_LIMIT: nat := 0x1_0000_0000

  type u16 = v: int | 0 <= v < U16_LIMIT
  type u32 = v: int | 0 <= v < U32_LIMIT

  datatype Option<+T> = None | Some(value: T)

  /** `s` with the bytes from `at` on replaced by `data`. */
  function Patch(s: seq<byte>, at: nat, data: seq<byte>): (r: seq<byte>)
    requires at + |data| <= |s|
    ensures |r| == |s|
  {
    s[..at] + data + s[at + |data|..]
  }

  /** Two adjacent patches are one patch. */
  lemma PatchCompose(s: seq<byte>, at: nat, a: seq<byte>, b: seq<byte>)
    requires at + |a| + |b| <= |s|
    ensures Patch(Patch(s, at, a), at + |a|, b) == Patch(s, at, a + b)
  {
  }

  /** The bytes of an ASCII text. */
  function Ascii(text: string): (s: seq<byte>)
    ensures |s| == |text|
  {
    seq(|text|, i requires 0 <= i < |text| => text[i] as int % 128)
  }

  function Power256(n: nat): (p: nat)
    ensures p > 0
  {
    if n == 0 then 1 else 256 * Power256(n - 1)
  }

  /** The number that `s` encodes, least significant byte first. */
  function LittleValue(s: seq<byte>): nat
  {
    if s == [] then 0 else s[0] + 256 * LittleValue(s[1..])
  }

  /** The `n`-byte little-endian encoding of `v` modulo 256^n. */
  function LittleBytes(v: nat, n: nat): (s: seq<byte>)
    ensures |s| == n
  {
    if n == 0 then [] else [v % 256] + LittleBytes(v / 256, n - 1)
  }

  lemma {:induction false} LittleValueBound(s: seq<byte>)
    ensures LittleValue(s) < Power256(|s|)
  {
    if s != [] {
      LittleValueBound(s[1..]);
    }
  }

  lemma {:induction false} LittleRoundTrip(v: nat, n: nat)
    requires v < Power256(n)
    ensures LittleValue(LittleBytes(v, n)) == v
  {
    if n != 0 {
      LittleRoundTrip(v / 256, n - 1);
      assert LittleBytes(v, n)[1..] == LittleBytes(v / 256, n - 1);
    }
  }

  lemma {:induction false} LittleCanonical(s: seq<byte>)
    ensures LittleBytes(LittleValue(s), |s|) == s
  {
    if s != [] {
      LittleCanonical(s[1..]);
      var v := LittleValue(s);
      assert v % 256 == s[0] && v / 256 == LittleValue(s[1..]);
    }
  }

  lemma Power256Values()
    ensures Power256(1) == 256 && Power256(2) == U16_LIMIT && Power256(4) == U32_LIMIT
  {
    assert Power256(2) == 256 * Power256(1);
    assert Power256(3) == 256 * Power256(2);
  }

  function Le16(v: u16): (s: seq<byte>)
    ensures |s| == 2
  {
    LittleBytes(v, 2)
  }

  function Le32(v: u32): (s: seq<byte>)
    ensures |s| == 4
  {
    LittleBytes(v, 4)
  }

  function U16(s: seq<byte>): (v: u16)
    requires |s| == 2
  {
    LittleValueBound(s);
    Power256Values();
    LittleValue(s)
  }

  function U32(s: seq<byte>): (v: u32)
    requires |s| == 4
  {
    LittleValueBound(s);
    Power256Values();
    LittleValue(s)
  }

  /** Encoding and decoding a 16-bit field are inverse in both directions. */
  lemma Le16Bijection(v: u16, s: seq<byte>)
    requires |s| == 2
    ensures U16(Le16(v)) == v
    ensures Le16(U16(s)) == s
  {
    Power256Values();
    LittleRoundTrip(v, 2);
    LittleCanonical(s);
  }

  /** Encoding and decoding a 32-bit field are inverse in both directions. */
  lemma Le32Bijection(v: u32, s: seq<byte>)
    requires |s| == 4
    ensures U32(Le32(v)) == v
    ensures Le32(U32(s)) == s
  {
    Power256Values();
    LittleRoundTrip(v, 4);
    LittleCanonical(s);
  }

  lemma {:induction false} LittleValueSnoc(s: seq<byte>, b: byte)
    ensures LittleValue(s + [b]) == LittleValue(s) + b * Power256(|s|)
  {
    if s == [] {
      assert [b][1..] == [];
    } else {
      LittleValueSnoc(s[1..], b);
      assert (s + [b])[1..] == s[1..] + [b];
      assert 256 * (b * Power256(|s| - 1)) == b * Power256(|s|);
    }
  }

  /** `v` shifted right by `n` whole bytes. */
  function ShiftBytes(v: nat, n: nat): nat
  {
    if n == 0 then v else ShiftBytes(v / 256, n - 1)
  }

  lemma {:induction false} LittleBytesSnoc(v: nat, n: nat)
    ensures LittleBytes(v, n + 1) == LittleBytes(v, n) + [ShiftBytes(v, n) % 256]
  {
    if n == 0 {
      assert LittleBytes(v, 1) == [v % 256] + LittleBytes(v / 256, 0);
    } else {
      LittleBytesSnoc(v / 256, n - 1);
    }
  }

  /** Reads an unsigned `width`-byte integer; outside the input the value is zero. */
  method ReadLittle(bytes: seq<byte>, offset: nat, width: nat) returns (ok: bool, value: nat)
    ensures ok == (offset + width <= |bytes|)
    ensures value == if ok then LittleValue(bytes[offset..offset + width]) else 0
  {
    if offset > |bytes| || width > |bytes| - offset {
      return false, 0;
    }
    var encoded: nat, weight: nat := 0, 1;
    for index := 0 to width
      invariant weight == Power256(index)
      invariant encoded == LittleValue(bytes[offset..offset + index])
    {
      LittleValueSnoc(bytes[offset..offset + index], bytes[offset + index]);
      assert bytes[offset..offset + index + 1] == bytes[offset..offset + index] + [bytes[offset + index]];
      encoded := encoded + bytes[offset + index] * weight;
      weight := 256 * weight;
    }
    return true, encoded;
  }

  /** Writes the low `width` bytes of `value` in place, or nothing when they do not fit. */
  method WriteLittle(bytes: array<byte>, offset: nat, value: nat, width: nat) returns (ok: bool)
    modifies bytes
    ensures ok == (offset + width <= bytes.Length)
    ensures ok ==> bytes[..] == Patch(old(bytes[..]), offset, LittleBytes(value, width))
    ensures !ok ==> bytes[..] == old(bytes[..])
  {
    if offset > bytes.Length || width > bytes.Length - offset {
      return false;
    }
    for index := 0 to width
      invariant bytes[..] == Patch(old(bytes[..]), offset, LittleBytes(value, index))
    {
      LittleBytesSnoc(value, index);
      bytes[offset + index] := ShiftBytes(value, index) % 256;
    }
    return true;
  }
}
