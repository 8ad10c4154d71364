/** UTF-8 well-formedness: the validating loop of Utf8.cpp against section 4 of RFC 3629.

    Tests and shifts of a byte's bits are written as comparisons, products and remainders. */
module Utf8 {
  import opened Bytes

  // ----- The grammar of RFC 3629, section 4

  predicate Tail(b: byte) {
    0x80 <= b <= 0xBF
  }

  /** UTF8-char: one of UTF8-1, UTF8-2, UTF8-3 and UTF8-4. */
  predicate Utf8Char(c: seq<byte>) {
    || (|c| == 1 && c[0] <= 0x7F)
    || (|c| == 2 && 0xC2 <= c[0] <= 0xDF && Tail(c[1]))
    || (|c| == 3 && Tail(c[1]) && Tail(c[2]) &&
         (|| (c[0] == 0xE0 && 0xA0 <= c[1])
          || 0xE1 <= c[0] <= 0xEC
          || (c[0] == 0xED && c[1] <= 0x9F)
          || 0xEE <= c[0] <= 0xEF))
    || (|c| == 4 && Tail(c[1]) && Tail(c[2]) && Tail(c[3]) &&
         (|| (c[0] == 0xF0 && 0x90 <= c[1])
          || 0xF1 <= c[0] <= 0xF3
          || (c[0] == 0xF4 && c[1] <= 0x8F)))
  }

  /** UTF8-octets: a concatenation of UTF8-char. */
  ghost predicate Utf8Octets(s: seq<byte>) {
    s == [] || exists n :: 1 <= n <= |s| && Utf8Char(s[..n]) && Utf8Octets(s[n..])
  }

  // ----- The scalar values that the grammar encodes

  predicate IsScalar(v: nat) {
    v <= 0x10FFFF && !(0xD800 <= v <= 0xDFFF)
  }

  function EncodeScalar(v: nat): seq<byte>
    requires IsScalar(v)
  {
    if v <= 0x7F then [v]
    else if v <= 0x7FF then [0xC0 + v / 64, 0x80 + v % 64]
    else if v <= 0xFFFF then [0xE0 + v / 64 / 64, 0x80 + v / 64 % 64, 0x80 + v % 64]
    else [0xF0 + v / 64 / 64 / 64, 0x80 + v / 64 / 64 % 64, 0x80 + v / 64 % 64, 0x80 + v % 64]
  }

  function EncodeScalars(vs: seq<nat>): seq<byte>
    requires forall v :: v in vs ==> IsScalar(v)
  {
    if vs == [] then [] else EncodeScalar(vs[0]) + EncodeScalars(vs[1..])
  }

  // ----- The code point that the loop gathers

  /** The length that a lead byte announces; zero for a byte that starts no character. */
  function CharacterLength(lead: byte): nat {
    if lead <= 0x7F then 1
    else if 0xC0 <= lead <= 0xDF then 2
    else if 0xE0 <= lead <= 0xEF then 3
    else if 0xF0 <= lead <= 0xF7 then 4
    else 0
  }

  /** The payload bits of a lead byte. */
  function LeadBits(lead: byte): nat {
    if lead <= 0xDF then lead % 32 else if lead <= 0xEF then lead % 16 else lead % 8
  }

  function Low6(b: byte): nat {
    b % 64
  }

  /** The payload bits of a continuation byte. */
  function Digit(b: byte): nat
    requires Tail(b)
  {
    b - 0x80
  }

  /** Continuation bytes shifted in behind `bits`, six payload bits each. */
  function Gather(bits: nat, tail: seq<byte>): nat
    requires forall i :: 0 <= i < |tail| ==> Tail(tail[i])
  {
    if tail == [] then bits else Gather(bits, tail[..|tail| - 1]) * 64 + Digit(tail[|tail| - 1])
  }

  lemma GatherNext(bits: nat, tail: seq<byte>, b: byte)
    requires forall i :: 0 <= i < |tail| ==> Tail(tail[i])
    requires Tail(b)
    ensures Gather(bits, tail + [b]) == Gather(bits, tail) * 64 + Digit(b)
  {
    assert (tail + [b])[..|tail|] == tail;
  }

  function Minimum(continuationCount: nat): nat {
    if continuationCount == 1 then 0x80
    else if continuationCount == 2 then 0x800
    else 0x10000
  }

  /** A lead byte of the length of `c` followed by continuation bytes. */
  predicate Shaped(c: seq<byte>) {
    && 2 <= |c| <= 4
    && CharacterLength(c[0]) == |c|
    && forall i :: 1 <= i < |c| ==> Tail(c[i])
  }

  function CodePoint(c: seq<byte>): nat
    requires Shaped(c)
  {
    Gather(LeadBits(c[0]), c[1..])
  }

  lemma CodePoint2(c: seq<byte>)
    requires Shaped(c) && |c| == 2
    ensures CodePoint(c) == (c[0] as int - 0xC0) * 64 + Digit(c[1])
  {
    GatherNext(LeadBits(c[0]), [], c[1]);
    assert c[1..] == [] + [c[1]];
  }

  lemma CodePoint3(c: seq<byte>)
    requires Shaped(c) && |c| == 3
    ensures CodePoint(c) == ((c[0] as int - 0xE0) * 64 + Digit(c[1])) * 64 + Digit(c[2])
  {
    GatherNext(LeadBits(c[0]), [], c[1]);
    GatherNext(LeadBits(c[0]), [] + [c[1]], c[2]);
    assert c[1..] == [] + [c[1]] + [c[2]];
  }

  lemma CodePoint4(c: seq<byte>)
    requires Shaped(c) && |c| == 4
    ensures CodePoint(c) == (((c[0] as int - 0xF0) * 64 + Digit(c[1])) * 64 + Digit(c[2])) * 64
                            + Digit(c[3])
  {
    GatherNext(LeadBits(c[0]), [], c[1]);
    GatherNext(LeadBits(c[0]), [] + [c[1]], c[2]);
    GatherNext(LeadBits(c[0]), [] + [c[1]] + [c[2]], c[3]);
    assert c[1..] == [] + [c[1]] + [c[2]] + [c[3]];
  }

  lemma CharactersAreShaped(c: seq<byte>)
    ensures Utf8Char(c) && |c| > 1 ==> Shaped(c)
  {
  }

  /** The lower bound, upper bound and surrogate test accept exactly the grammar's second bytes. */
  lemma BoundsMatchGrammar(c: seq<byte>)
    requires Shaped(c)
    ensures Utf8Char(c) <==> Minimum(|c| - 1) <= CodePoint(c) && IsScalar(CodePoint(c))
  {
    if |c| == 2 {
      CodePoint2(c);
    } else if |c| == 3 {
      CodePoint3(c);
    } else {
      CodePoint4(c);
    }
  }

  /** A nonempty text is valid iff its announced first character is valid and the rest is. */
  lemma SplitFirstCharacter(s: seq<byte>)
    requires s != []
    ensures var n := CharacterLength(s[0]);
            Utf8Octets(s) <==> 1 <= n <= |s| && Utf8Char(s[..n]) && Utf8Octets(s[n..])
  {
    var n := CharacterLength(s[0]);
    forall m | 1 <= m <= |s| && Utf8Char(s[..m])
      ensures m == n
    {
      assert s[..m][0] == s[0];
    }
  }

  /** Classifies a lead byte above 0x7F. */
  method ReadLead(lead: byte) returns (known: bool, continuationCount: nat, codePoint: nat, minimum: nat)
    requires lead > 0x7F
    ensures known <==> CharacterLength(lead) != 0
    ensures known ==> continuationCount + 1 == CharacterLength(lead)
    ensures known ==> codePoint == LeadBits(lead) && minimum == Minimum(continuationCount)
  {
    if lead / 32 == 0xC0 / 32 {
      return true, 1, lead % 32, 0x80;
    } else if lead / 16 == 0xE0 / 16 {
      return true, 2, lead % 16, 0x800;
    } else if lead / 8 == 0xF0 / 8 {
      return true, 3, lead % 8, 0x10000;
    }
    return false, 0, 0, 0;
  }

  /** The body of the loop: the length of the character at `index`, or zero when there is none. */
  method ReadCharacter(text: seq<byte>, index: nat) returns (length: nat)
    requires index < |text|
    ensures length == 0 || length == CharacterLength(text[index])
    ensures var n := CharacterLength(text[index]);
            length != 0 <==> 1 <= n <= |text| - index && Utf8Char(text[index..index + n])
  {
    var lead := text[index];
    if lead <= 0x7F {
      return 1;
    }

    var known, continuationCount, codePoint, minimum := ReadLead(lead);
    if !known {
      return 0;
    }
    if continuationCount > |text| - index - 1 {
      return 0;
    }

    ghost var c := text[index..index + continuationCount + 1];
    var tailed;
    tailed, codePoint := ReadTail(text, index, continuationCount, codePoint);
    CharactersAreShaped(c);
    if !tailed {
      return 0;
    }
    BoundsMatchGrammar(c);
    if codePoint < minimum || codePoint > 0x10FFFF || 0xD800 <= codePoint <= 0xDFFF {
      return 0;
    }
    return continuationCount + 1;
  }

  /** The continuation bytes. */
  method ReadTail(text: seq<byte>, index: nat, continuationCount: nat, bits: nat) returns (ok: bool, codePoint: nat)
    requires index + continuationCount < |text|
    ensures var c := text[index..index + continuationCount + 1];
            && (ok <==> forall i :: 1 <= i < |c| ==> Tail(c[i]))
            && (ok ==> codePoint == Gather(bits, c[1..]))
  {
    codePoint := bits;
    ghost var c := text[index..index + continuationCount + 1];
    for offset := 1 to continuationCount + 1
      invariant forall i :: 1 <= i < offset ==> Tail(c[i])
      invariant codePoint == Gather(bits, c[1..offset])
    {
      var continuation := text[index + offset];
      assert c[offset] == continuation;
      if continuation / 64 != 0x80 / 64 {
        return false, codePoint;
      }
      assert c[1..offset + 1] == c[1..offset] + [continuation];
      GatherNext(bits, c[1..offset], continuation);
      codePoint := codePoint * 64 + Low6(continuation);
    }
    assert c[1..continuationCount + 1] == c[1..];
    ok := true;
  }

  /** `IsValidUtf8`: true exactly for the texts of the grammar. */
  method IsValidUtf8(text: seq<byte>) returns (valid: bool)
    ensures valid <==> Utf8Octets(text)
  {
    var index := 0;
    while index < |text|
      invariant index <= |text|
      invariant Utf8Octets(text) <==> Utf8Octets(text[index..])
    {
      SplitFirstCharacter(text[index..]);
      var length := ReadCharacter(text, index);
      assert forall n :: 0 <= n <= |text| - index ==>
        text[index..][..n] == text[index..index + n] && text[index..][n..] == text[index + n..];
      if length == 0 {
        return false;
      }
      index := index + length;
    }
    return true;
  }

  lemma EncodedScalarIsCharacter(v: nat)
    requires IsScalar(v)
    ensures Utf8Char(EncodeScalar(v))
  {
  }

  /** The scalar value of a character; encoding it gives the character back. */
  lemma CharacterIsEncodedScalar(c: seq<byte>) returns (v: nat)
    requires Utf8Char(c)
    ensures IsScalar(v) && EncodeScalar(v) == c
  {
    if |c| == 1 {
      v := c[0];
    } else {
      v := CodePoint(c);
      BoundsMatchGrammar(c);
      CodePointEncodes(c);
    }
  }

  lemma CodePointEncodes(c: seq<byte>)
    requires Shaped(c) && Minimum(|c| - 1) <= CodePoint(c) && IsScalar(CodePoint(c))
    ensures EncodeScalar(CodePoint(c)) == c
  {
    if |c| == 2 {
      CodePoint2(c);
      LastDigit(c[0] as int - 0xC0, Digit(c[1]));
    } else if |c| == 3 {
      CodePointEncodes3(c);
    } else {
      CodePointEncodes4(c);
    }
  }

  lemma CodePointEncodes3(c: seq<byte>)
    requires Shaped(c) && |c| == 3 && 0x800 <= CodePoint(c) && IsScalar(CodePoint(c))
    ensures EncodeScalar(CodePoint(c)) == c
  {
    CodePoint3(c);
    var high := (c[0] as int - 0xE0) * 64 + Digit(c[1]);
    LastDigit(c[0] as int - 0xE0, Digit(c[1]));
    LastDigit(high, Digit(c[2]));
  }

  lemma CodePointEncodes4(c: seq<byte>)
    requires Shaped(c) && |c| == 4 && 0x10000 <= CodePoint(c) && IsScalar(CodePoint(c))
    ensures EncodeScalar(CodePoint(c)) == c
  {
    CodePoint4(c);
    var high := (c[0] as int - 0xF0) * 64 + Digit(c[1]);
    LastDigit(c[0] as int - 0xF0, Digit(c[1]));
    LastDigit(high, Digit(c[2]));
    LastDigit(high * 64 + Digit(c[2]), Digit(c[3]));
  }

  lemma LastDigit(high: nat, low: nat)
    requires low < 64
    ensures (high * 64 + low) / 64 == high && (high * 64 + low) % 64 == low
  {
  }

  /** Every scalar value is encoded as one character of the grammar, and every character is such an encoding. */
  lemma CharactersAreScalars(c: seq<byte>)
    ensures Utf8Char(c) <==> exists v: nat :: IsScalar(v) && EncodeScalar(v) == c
  {
    if Utf8Char(c) {
      var v := CharacterIsEncodedScalar(c);
    }
    forall v: nat | IsScalar(v) && EncodeScalar(v) == c
      ensures Utf8Char(c)
    {
      EncodedScalarIsCharacter(v);
    }
  }

  /** The grammar describes exactly the encodings of sequences of scalar values. */
  lemma OctetsAreScalarSequences(s: seq<byte>)
    ensures Utf8Octets(s) <==>
            exists vs: seq<nat> :: (forall v :: v in vs ==> IsScalar(v)) && EncodeScalars(vs) == s
  {
    if Utf8Octets(s) {
      var vs := DecodeScalars(s);
    }
    forall vs: seq<nat> | (forall v :: v in vs ==> IsScalar(v)) && EncodeScalars(vs) == s
      ensures Utf8Octets(s)
    {
      EncodedScalarsAreOctets(vs);
    }
  }

  lemma {:induction false} DecodeScalars(s: seq<byte>) returns (vs: seq<nat>)
    requires Utf8Octets(s)
    ensures (forall v :: v in vs ==> IsScalar(v)) && EncodeScalars(vs) == s
    decreases |s|
  {
    if s == [] {
      vs := [];
    } else {
      var n :| 1 <= n <= |s| && Utf8Char(s[..n]) && Utf8Octets(s[n..]);
      var v := CharacterIsEncodedScalar(s[..n]);
      var rest := DecodeScalars(s[n..]);
      vs := [v] + rest;
      assert vs[1..] == rest;
      assert s == s[..n] + s[n..];
    }
  }

  lemma {:induction false} EncodedScalarsAreOctets(vs: seq<nat>)
    requires forall v :: v in vs ==> IsScalar(v)
    ensures Utf8Octets(EncodeScalars(vs))
  {
    if vs != [] {
      var c := EncodeScalar(vs[0]);
      var rest := EncodeScalars(vs[1..]);
      EncodedScalarsAreOctets(vs[1..]);
      CharactersAreScalars(c);
      assert (c + rest)[..|c|] == c && (c + rest)[|c|..] == rest;
    }
  }
}
