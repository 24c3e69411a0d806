/** UTF-8 as RFC 3629 defines it, and the decoder of Go's `unicode/utf8` that the JSON printer relies on. */
module Utf8 {

  type Byte = x: int | 0 <= x < 256

  const RUNE_ERROR := 0xFFFD

  /** A Unicode scalar value: surrogates are excluded. */
  type Scalar = c: nat | c < 0xD800 || 0xE000 <= c <= 0x10FFFF

  predicate IsContinuation(b: Byte) {
    0x80 <= b < 0xC0
  }

  /** The continuation byte with the low six bits of `c`. */
  function Low(c: nat): (b: Byte)
    ensures IsContinuation(b)
  {
    0x80 + c % 64
  }

  /** Appends the payload of a continuation byte. */
  function Join(hi: nat, b: Byte): (c: nat)
    requires IsContinuation(b)
    ensures c / 64 == hi && Low(c) == b
  {
    hi * 64 + (b - 0x80)
  }

  /** The octets of a code point (section 3 of RFC 3629). */
  function Encode(c: Scalar): (s: seq<Byte>)
    ensures 1 <= |s| <= 4
    ensures forall i :: 0 <= i < |s| ==> (s[i] < 0x80 <==> c < 0x80)
  {
    var n: nat := c;
    if n < 0x80 then [n as Byte]
    else if n < 0x800 then [(0xC0 + n / 64) as Byte, Low(n)]
    else if n < 0x1_0000 then [(0xE0 + n / 64 / 64) as Byte, Low(n / 64), Low(n)]
    else [(0xF0 + n / 64 / 64 / 64) as Byte, Low(n / 64 / 64), Low(n / 64), Low(n)]
  }

  function EncodeAll(cs: seq<Scalar>): seq<Byte> {
    if cs == [] then [] else Encode(cs[0]) + EncodeAll(cs[1..])
  }

  /** `DecodeRuneInString`: the first code point and its width, or RUNE_ERROR with width 1. */
  function Decode(s: seq<Byte>): (r: (Scalar, nat))
    requires s != []
    ensures 1 <= r.1 <= |s|
  {
    var invalid := (RUNE_ERROR, 1);
    var lead: nat := s[0];
    if lead < 0x80 then (lead, 1)
    else if lead < 0xC0 || |s| < 2 || !IsContinuation(s[1]) then invalid
    else if lead < 0xE0 then
      var c := Join(lead - 0xC0, s[1]);
      if c <= 0x7F then invalid else (c, 2)
    else if |s| < 3 || !IsContinuation(s[2]) then invalid
    else if lead < 0xF0 then
      var c := Join(Join(lead - 0xE0, s[1]), s[2]);
      if c <= 0x7FF || 0xD800 <= c <= 0xDFFF then invalid else (c, 3)
    else if |s| < 4 || !IsContinuation(s[3]) || lead >= 0xF8 then invalid
    else
      var c := Join(Join(Join(lead - 0xF0, s[1]), s[2]), s[3]);
      if c <= 0xFFFF || c > 0x10FFFF then invalid else (c, 4)
  }

  /** The decoder's way of reporting an invalid byte. */
  predicate StartsInvalid(s: seq<Byte>)
    requires s != []
  {
    Decode(s) == (RUNE_ERROR, 1)
  }

  /** What the decoder accepts is exactly the encoding of the code point it returns. */
  lemma DecodeSound(s: seq<Byte>)
    requires s != [] && !StartsInvalid(s)
    ensures var (c, size) := Decode(s); s[..size] == Encode(c)
  {
  }

  /** Every encoded code point is accepted, whatever follows. */
  lemma DecodeComplete(c: Scalar, rest: seq<Byte>)
    ensures Decode(Encode(c) + rest) == (c, |Encode(c)|)
    ensures !StartsInvalid(Encode(c) + rest)
  {
    var e, s := Encode(c), Encode(c) + rest;
    assert forall i :: 0 <= i < |e| ==> s[i] == e[i];
    if c < 0x800 {
      JoinLow(c);
    } else if c < 0x1_0000 {
      DecodeThree(c, s);
    } else {
      DecodeFour(c, s);
    }
  }

  lemma DecodeThree(c: Scalar, s: seq<Byte>)
    requires 0x800 <= c < 0x1_0000 && |s| >= 3
    requires s[0] == 0xE0 + c / 64 / 64 && s[1] == Low(c / 64) && s[2] == Low(c)
    ensures Decode(s) == (c, 3)
  {
    JoinLow(c);
    JoinLow(c / 64);
    assert Join(Join(s[0] - 0xE0, s[1]), s[2]) == c;
  }

  lemma DecodeFour(c: Scalar, s: seq<Byte>)
    requires 0x1_0000 <= c && |s| >= 4
    requires s[0] == 0xF0 + c / 64 / 64 / 64 && s[1] == Low(c / 64 / 64) && s[2] == Low(c / 64) && s[3] == Low(c)
    ensures Decode(s) == (c, 4)
  {
    JoinLow(c);
    JoinLow(c / 64);
    JoinLow(c / 64 / 64);
    assert Join(Join(Join(s[0] - 0xF0, s[1]), s[2]), s[3]) == c;
  }

  lemma JoinLow(c: nat)
    ensures Join(c / 64, Low(c)) == c
  {
  }

  /** Replaces every byte that starts no valid sequence by U+FFFD. */
  function Repair(s: seq<Byte>): (cs: seq<Scalar>)
    decreases |s|
  {
    if s == [] then [] else [Decode(s).0] + Repair(s[Decode(s).1..])
  }

  /** A valid string is not altered. */
  lemma {:induction false} RepairValid(cs: seq<Scalar>)
    ensures Repair(EncodeAll(cs)) == cs
    decreases |cs|
  {
    if cs != [] {
      var rest := EncodeAll(cs[1..]);
      DecodeComplete(cs[0], rest);
      assert (Encode(cs[0]) + rest)[|Encode(cs[0])|..] == rest;
      RepairValid(cs[1..]);
    }
  }

  /** The examples of section 7 of RFC 3629 and the first and last code points of every length. */
  lemma EncodeExamples()
    ensures Encode(0x41) == [0x41] && Encode(0x7F) == [0x7F]
    ensures Encode(0x80) == [0xC2, 0x80] && Encode(0x391) == [0xCE, 0x91] && Encode(0x7FF) == [0xDF, 0xBF]
    ensures Encode(0x800) == [0xE0, 0xA0, 0x80] && Encode(0x2262) == [0xE2, 0x89, 0xA2]
    ensures Encode(0xD55C) == [0xED, 0x95, 0x9C] && Encode(0xFFFF) == [0xEF, 0xBF, 0xBF]
    ensures Encode(0x1_0000) == [0xF0, 0x90, 0x80, 0x80] && Encode(0x2_33B4) == [0xF0, 0xA3, 0x8E, 0xB4]
    ensures Encode(0x10_FFFF) == [0xF4, 0x8F, 0xBF, 0xBF]
  {
  }
}
