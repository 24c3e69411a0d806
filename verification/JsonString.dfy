/** The JSON string printer, and a reader for what it prints. */
module JsonString {
  import opened Protocol
  import opened Utf8

  type Bytes = seq<Byte>

  const QUOTE: Byte := 0x22
  const BACKSLASH: Byte := 0x5C
  const LETTER_U: Byte := 0x75

  // ---------- Rune-by-rune specification of the escaper ----------

  /** Lower-case hexadecimal digit. */
  function Hex(d: nat): Byte
    requires d < 16
  {
    if d < 10 then 0x30 + d else 0x61 + (d - 10)
  }

  /** Printed as it is: neither a control character nor one of `\ " < > &`. */
  predicate IsPlain(b: Byte) {
    0x20 <= b && b != BACKSLASH && b != QUOTE && b != 0x3C && b != 0x3E && b != 0x26
  }

  /** What is printed for an ASCII byte that is not plain. */
  function EscapeAscii(b: Byte): Bytes
    requires b < 0x80
  {
    if b == BACKSLASH || b == QUOTE then [BACKSLASH, b]
    else if b == 0x0A then [BACKSLASH, 0x6E]
    else if b == 0x0D then [BACKSLASH, 0x72]
    else [BACKSLASH, LETTER_U, 0x30, 0x30, Hex(b / 16), Hex(b % 16)]
  }

  /** The escape `\ufffd`. */
  const REPLACEMENT: Bytes := [BACKSLASH, LETTER_U, 0x66, 0x66, 0x66, 0x64]

  /** The escapes of the line separators U+2028 and U+2029. */
  function EscapeSeparator(c: nat): Bytes {
    [BACKSLASH, LETTER_U, 0x32, 0x30, 0x32, Hex(c % 16)]
  }

  predicate IsSeparator(c: nat) {
    c == 0x2028 || c == 0x2029
  }

  /** What is printed for the first rune of `s`. */
  function EscapeRune(s: Bytes): Bytes
    requires s != []
  {
    if s[0] < 0x80 then if IsPlain(s[0]) then s[..1] else EscapeAscii(s[0])
    else if StartsInvalid(s) then REPLACEMENT
    else if IsSeparator(Decode(s).0) then EscapeSeparator(Decode(s).0)
    else s[..Decode(s).1]
  }

  function Escape(s: Bytes): Bytes
    decreases |s|
  {
    if s == [] then [] else EscapeRune(s) + Escape(s[Decode(s).1..])
  }

  // ---------- The printer: unescaped runs are copied lazily ----------

  /** The bytes up to `i` are handled: those before `start` are in the buffer, the rest are copied later. */
  ghost predicate Pending(buf: Bytes, s: Bytes, start: nat, i: nat) {
    start <= i <= |s| && buf + s[start..i] + Escape(s[i..]) == [QUOTE] + Escape(s)
  }

  lemma Unfold(s: Bytes, i: nat)
    requires i < |s|
    ensures var size := Decode(s[i..]).1;
            i + size <= |s| && Escape(s[i..]) == EscapeRune(s[i..]) + Escape(s[i + size..])
  {
    assert s[i..][Decode(s[i..]).1..] == s[i + Decode(s[i..]).1..];
  }

  /** A rune that is copied extends the pending run. */
  lemma Extend(buf: Bytes, s: Bytes, start: nat, i: nat, size: nat)
    requires Pending(buf, s, start, i) && i < |s| && size == Decode(s[i..]).1
    requires EscapeRune(s[i..]) == s[i..][..size]
    ensures Pending(buf, s, start, i + size)
  {
    hide Escape, EscapeRune, Decode;
    Unfold(s, i);
    var k := i + size;
    RunGrows(s, start, i, size);
    ExtendParts(buf, s[start..i], s[i..][..size], Escape(s[k..]), s[start..k], Escape(s[i..]), [QUOTE] + Escape(s));
  }

  lemma RunGrows(s: Bytes, start: nat, i: nat, size: nat)
    requires start <= i && i + size <= |s|
    ensures s[start..i] + s[i..][..size] == s[start..i + size]
  {
  }

  lemma ExtendParts(buf: Bytes, run: Bytes, e: Bytes, rest: Bytes, grown: Bytes, both: Bytes, all: Bytes)
    requires both == e + rest && grown == run + e && buf + run + both == all
    ensures buf + grown + rest == all
  {
    assert buf + run + (e + rest) == buf + (run + e) + rest;
  }

  /** A rune that is escaped is written after the pending run. */
  lemma Emit(buf: Bytes, s: Bytes, start: nat, i: nat, size: nat)
    requires Pending(buf, s, start, i) && i < |s| && size == Decode(s[i..]).1
    ensures Pending(buf + s[start..i] + EscapeRune(s[i..]), s, i + size, i + size)
  {
    hide Escape, EscapeRune, Decode;
    Unfold(s, i);
    var k := i + size;
    EmitParts(buf, s[start..i], EscapeRune(s[i..]), Escape(s[k..]), s[k..k], Escape(s[i..]), [QUOTE] + Escape(s));
  }

  lemma EmitParts(buf: Bytes, run: Bytes, e: Bytes, rest: Bytes, none: Bytes, both: Bytes, all: Bytes)
    requires both == e + rest && none == [] && buf + run + both == all
    ensures buf + run + e + none + rest == all
  {
    assert buf + run + (e + rest) == buf + run + e + none + rest;
  }

  /** Appends what has been scanned but not yet written. */
  method Flush(buf: Bytes, s: Bytes, start: nat, i: nat) returns (r: Bytes)
    requires start <= i <= |s|
    ensures r == buf + s[start..i]
  {
    r := buf;
    if start < i {
      r := r + s[start..i];
    }
  }

  method WriteEscapedAscii(buf: Bytes, b: Byte) returns (r: Bytes)
    requires b < 0x80
    ensures r == buf + EscapeAscii(b)
  {
    r := buf + [BACKSLASH];
    if b == BACKSLASH || b == QUOTE {
      r := r + [b];
    } else if b == 0x0A {
      r := r + [0x6E];
    } else if b == 0x0D {
      r := r + [0x72];
    } else {
      r := r + [LETTER_U, 0x30, 0x30];
      r := r + [Hex(b / 16)];
      r := r + [Hex(b % 16)];
    }
  }

  /** Writes the pending run and then the escape of the rune at `i`. */
  method WriteEscape(buf: Bytes, s: Bytes, start: nat, i: nat, size: nat, e: Bytes) returns (r: Bytes)
    requires Pending(buf, s, start, i) && i < |s|
    requires size == Decode(s[i..]).1 && e == EscapeRune(s[i..])
    ensures Pending(r, s, i + size, i + size)
  {
    Emit(buf, s, start, i, size);
    r := Flush(buf, s, start, i);
    r := r + e;
  }

  /** One round of the printer at an ASCII byte. */
  method StepAscii(buf0: Bytes, s: Bytes, start0: nat, i0: nat) returns (buf: Bytes, start: nat, i: nat)
    requires Pending(buf0, s, start0, i0) && i0 < |s| && s[i0] < 0x80
    ensures Pending(buf, s, start, i) && i > i0
  {
    buf, start, i := buf0, start0, i0;
    var b := s[i];
    assert Decode(s[i..]).1 == 1;
    if IsPlain(b) {
      Extend(buf, s, start, i, 1);
      i := i + 1;
      return;
    }
    Emit(buf, s, start, i, 1);
    buf := Flush(buf, s, start, i);
    buf := WriteEscapedAscii(buf, b);
    i := i + 1;
    start := i;
  }

  /** One round of the printer at any other byte. */
  method StepRune(buf0: Bytes, s: Bytes, start0: nat, i0: nat) returns (buf: Bytes, start: nat, i: nat)
    requires Pending(buf0, s, start0, i0) && i0 < |s| && s[i0] >= 0x80
    ensures Pending(buf, s, start, i) && i > i0
  {
    buf, start, i := buf0, start0, i0;
    var (c, size) := Decode(s[i..]);
    assert s[i..][0] == s[i];
    if c == RUNE_ERROR && size == 1 {
      buf := WriteEscape(buf, s, start, i, size, REPLACEMENT);
      i := i + size;
      start := i;
      return;
    }
    if IsSeparator(c) {
      buf := WriteEscape(buf, s, start, i, size, [BACKSLASH, LETTER_U, 0x32, 0x30, 0x32, Hex(c % 16)]);
      i := i + size;
      start := i;
      return;
    }
    assert EscapeRune(s[i..]) == s[i..][..size];
    Extend(buf, s, start, i, size);
    i := i + size;
  }

  method WriteJsonString(s: Bytes) returns (buf: Bytes)
    ensures buf == [QUOTE] + Escape(s) + [QUOTE]
  {
    buf := [QUOTE];
    var start: nat := 0;
    var i: nat := 0;
    assert s[0..] == s;
    while i < |s|
      invariant Pending(buf, s, start, i)
    {
      if s[i] < 0x80 {
        buf, start, i := StepAscii(buf, s, start, i);
      } else {
        buf, start, i := StepRune(buf, s, start, i);
      }
    }
    assert s[i..] == [];
    buf := Flush(buf, s, start, |s|);
    buf := buf + [QUOTE];
  }

  // ---------- Reading (section 7 of RFC 8259) ----------

  function HexValue(b: Byte): int {
    if 0x30 <= b <= 0x39 then b - 0x30
    else if 0x61 <= b <= 0x66 then b - 0x61 + 10
    else if 0x41 <= b <= 0x46 then b - 0x41 + 10
    else -1
  }

  /** The value of `\uXXXX` at the start of `t`, or -1. */
  function UnicodeEscape(t: Bytes): (c: int)
    ensures -1 <= c < 0x1_0000
  {
    if |t| < 6 || t[0] != BACKSLASH || t[1] != LETTER_U then -1
    else
      var a, b, c, d := HexValue(t[2]), HexValue(t[3]), HexValue(t[4]), HexValue(t[5]);
      if a < 0 || b < 0 || c < 0 || d < 0 then -1 else a * 4096 + b * 256 + c * 16 + d
  }

  /** The character denoted by the two-character escape with this letter. */
  function ShortEscape(b: Byte): Option<Byte> {
    if b == QUOTE || b == BACKSLASH || b == 0x2F then Some(b)
    else if b == 0x62 then Some(0x08)
    else if b == 0x66 then Some(0x0C)
    else if b == 0x6E then Some(0x0A)
    else if b == 0x72 then Some(0x0D)
    else if b == 0x74 then Some(0x09)
    else None
  }

  /** The first character of the inside of a JSON string, as UTF-8, and its width. */
  function ReadChar(t: Bytes): (r: Option<(Bytes, nat)>)
    requires t != []
    ensures r.Some? ==> 1 <= r.value.1 <= |t|
  {
    if t[0] < 0x20 || t[0] == QUOTE then None
    else if t[0] != BACKSLASH then Some((t[..1], 1))
    else if |t| < 2 then None
    else if t[1] != LETTER_U then
      match ShortEscape(t[1])
      case None => None
      case Some(b) => Some(([b], 2))
    else
      var c := UnicodeEscape(t);
      if c < 0 || 0xDC00 <= c < 0xE000 then None
      else if 0xD800 <= c < 0xDC00 then
        var d := UnicodeEscape(t[6..]);
        if 0xDC00 <= d < 0xE000 then Some((Encode(0x1_0000 + (c - 0xD800) * 1024 + (d - 0xDC00)), 12))
        else None
      else Some((Encode(c), 6))
  }

  /** The string between the quotes, as UTF-8. */
  function Unescape(t: Bytes): Option<Bytes>
    decreases |t|
  {
    if t == [] then Some([])
    else
      match ReadChar(t)
      case None => None
      case Some((cs, width)) =>
        match Unescape(t[width..])
        case None => None
        case Some(rest) => Some(cs + rest)
  }

  function ReadJsonString(t: Bytes): Option<Bytes> {
    if |t| < 2 || t[0] != QUOTE || t[|t| - 1] != QUOTE then None else Unescape(t[1..|t| - 1])
  }

  // ---------- Round trip ----------

  lemma HexRoundTrip(d: nat)
    requires d < 16
    ensures HexValue(Hex(d)) == d
  {
  }

  /** An escape that `ReadChar` understands is read in one step. */
  lemma UnescapeEscape(e: Bytes, rest: Bytes, cs: Bytes)
    requires e != [] && ReadChar(e + rest) == Some((cs, |e|))
    requires Unescape(rest).Some?
    ensures Unescape(e + rest) == Some(cs + Unescape(rest).value)
  {
    assert (e + rest)[|e|..] == rest;
  }

  /** A run of bytes that need no escape reads as itself. */
  lemma {:induction false} UnescapeCopied(p: Bytes, rest: Bytes)
    requires forall i :: 0 <= i < |p| ==> IsPlain(p[i])
    requires Unescape(rest).Some?
    ensures Unescape(p + rest) == Some(p + Unescape(rest).value)
    decreases |p|
  {
    hide Unescape;
    if p == [] {
      assert p + rest == rest && p + Unescape(rest).value == Unescape(rest).value;
    } else {
      var head, tail := [p[0]], p[1..];
      UnescapeCopied(tail, rest);
      UnescapeEscape(head, tail + rest, head);
      assert p + rest == head + (tail + rest);
      assert p + Unescape(rest).value == head + (tail + Unescape(rest).value);
    }
  }

  lemma ReadEscapedAscii(b: Byte, rest: Bytes)
    requires b < 0x80
    ensures ReadChar(EscapeAscii(b) + rest) == Some(([b], |EscapeAscii(b)|))
  {
    var e, t := EscapeAscii(b), EscapeAscii(b) + rest;
    assert forall i :: 0 <= i < |e| ==> t[i] == e[i];
    HexRoundTrip(b / 16);
    HexRoundTrip(b % 16);
  }

  lemma ReadReplacement(rest: Bytes)
    ensures ReadChar(REPLACEMENT + rest) == Some((Encode(RUNE_ERROR), 6))
  {
    var t := REPLACEMENT + rest;
    assert forall i :: 0 <= i < 6 ==> t[i] == REPLACEMENT[i];
    assert UnicodeEscape(t) == RUNE_ERROR;
  }

  lemma ReadSeparator(c: nat, rest: Bytes)
    requires IsSeparator(c)
    ensures ReadChar(EscapeSeparator(c) + rest) == Some((Encode(c), 6))
  {
    var e, t := EscapeSeparator(c), EscapeSeparator(c) + rest;
    assert forall i :: 0 <= i < 6 ==> t[i] == e[i];
    HexRoundTrip(c % 16);
    assert UnicodeEscape(t) == c;
  }

  /** A multi-byte sequence has no byte that would need an escape. */
  lemma MultiByteIsPlain(s: Bytes)
    requires s != [] && s[0] >= 0x80 && !StartsInvalid(s)
    ensures var (c, size) := Decode(s);
            s[..size] == Encode(c) && forall i :: 0 <= i < size ==> IsPlain(s[..size][i])
  {
    DecodeSound(s);
  }

  /** What is printed for a rune reads as that rune, or as U+FFFD for an invalid byte. */
  lemma ReadEscapedRune(s: Bytes, rest: Bytes)
    requires s != [] && Unescape(rest).Some?
    ensures Unescape(EscapeRune(s) + rest) == Some(Encode(Decode(s).0) + Unescape(rest).value)
  {
    hide Unescape, ReadChar;
    var c := Decode(s).0;
    if s[0] < 0x80 {
      assert Encode(c) == [s[0]] == s[..1];
      if IsPlain(s[0]) {
        UnescapeCopied([s[0]], rest);
      } else {
        ReadEscapedAscii(s[0], rest);
        UnescapeEscape(EscapeAscii(s[0]), rest, [s[0]]);
      }
    } else if StartsInvalid(s) {
      ReadReplacement(rest);
      UnescapeEscape(REPLACEMENT, rest, Encode(c));
    } else if IsSeparator(c) {
      ReadSeparator(c, rest);
      UnescapeEscape(EscapeSeparator(c), rest, Encode(c));
    } else {
      MultiByteIsPlain(s);
      UnescapeCopied(Encode(c), rest);
    }
  }

  /** Printing then reading repairs every invalid byte and changes nothing else. */
  lemma {:induction false} UnescapeEscaped(s: Bytes)
    ensures Unescape(Escape(s)) == Some(EncodeAll(Repair(s)))
    decreases |s|
  {
    if s != [] {
      var rest := s[Decode(s).1..];
      UnescapeEscaped(rest);
      ReadEscapedRune(s, Escape(rest));
    }
  }

  /** What is printed for any bytes reads as the bytes with every invalid one replaced by U+FFFD. */
  lemma ReadsRepaired(s: Bytes)
    ensures ReadJsonString([QUOTE] + Escape(s) + [QUOTE]) == Some(EncodeAll(Repair(s)))
  {
    var t := [QUOTE] + Escape(s) + [QUOTE];
    assert t[1..|t| - 1] == Escape(s);
    UnescapeEscaped(s);
  }

  /** Printing and reading gives a string back exactly when it is valid UTF-8 (section 4 of RFC 3629). */
  lemma RoundTripIffValid(s: Bytes)
    ensures ReadJsonString([QUOTE] + Escape(s) + [QUOTE]) == Some(s) <==> exists cs: seq<Scalar> :: EncodeAll(cs) == s
  {
    ReadsRepaired(s);
    if cs: seq<Scalar> :| EncodeAll(cs) == s {
      RepairValid(cs);
    }
  }

  // ---------- Safety of the output ----------

  /** Neither a control character nor a byte that is special in HTML. */
  predicate IsHarmless(b: Byte) {
    b >= 0x20 && b != 0x3C && b != 0x3E && b != 0x26
  }

  ghost predicate AllHarmless(t: Bytes) {
    forall i :: 0 <= i < |t| ==> IsHarmless(t[i])
  }

  lemma RuneIsHarmless(s: Bytes)
    requires s != []
    ensures AllHarmless(EscapeRune(s))
  {
    hide Decode, EscapeAscii;
    if s[0] < 0x80 {
      AsciiIsHarmless(s[0]);
    } else if !StartsInvalid(s) && !IsSeparator(Decode(s).0) {
      MultiByteIsPlain(s);
    }
  }

  lemma AsciiIsHarmless(b: Byte)
    requires b < 0x80
    ensures AllHarmless(EscapeAscii(b))
  {
  }

  lemma {:induction false} EscapedIsHarmless(s: Bytes)
    ensures AllHarmless(Escape(s))
    decreases |s|
  {
    hide EscapeRune, Decode;
    if s != [] {
      RuneIsHarmless(s);
      EscapedIsHarmless(s[Decode(s).1..]);
    }
  }

  // ---------- Line separators ----------

  /** The bytes of U+2028 or U+2029 stand at `i`. */
  predicate SeparatorAt(t: Bytes, i: nat) {
    i + 2 < |t| && t[i] == 0xE2 && t[i + 1] == 0x80 && (t[i + 2] == 0xA8 || t[i + 2] == 0xA9)
  }

  ghost predicate NoSeparators(t: Bytes) {
    forall i: nat :: i < |t| ==> !SeparatorAt(t, i)
  }

  /** Nothing printed for one rune begins a separator, whatever follows. */
  lemma RuneIsNoSeparator(s: Bytes, rest: Bytes, i: nat)
    requires s != [] && i < |EscapeRune(s)|
    ensures !SeparatorAt(EscapeRune(s) + rest, i)
  {
    hide EscapeAscii, Decode;
    var e := EscapeRune(s);
    var t := e + rest;
    assert t[i] == e[i];
    if s[0] >= 0x80 && !StartsInvalid(s) && !IsSeparator(Decode(s).0) {
      DecodeSound(s);
      assert e == Encode(Decode(s).0);
      EncodedIsNoSeparator(Decode(s).0, rest, i);
    } else if s[0] < 0x80 {
      AsciiIsAscii(s[0]);
    }
  }

  lemma AsciiIsAscii(b: Byte)
    requires b < 0x80
    ensures forall i :: 0 <= i < |EscapeAscii(b)| ==> EscapeAscii(b)[i] < 0x80
  {
  }

  lemma EncodedIsNoSeparator(c: Scalar, rest: Bytes, i: nat)
    requires c != 0x2028 && c != 0x2029 && i < |Encode(c)|
    ensures !SeparatorAt(Encode(c) + rest, i)
  {
    var e, t := Encode(c), Encode(c) + rest;
    assert forall j :: 0 <= j < |e| ==> t[j] == e[j];
  }

  /** The bytes of a line separator never occur in what is printed. */
  lemma {:induction false} EscapedHasNoSeparators(s: Bytes)
    ensures NoSeparators(Escape(s))
    decreases |s|
  {
    hide EscapeRune, Decode;
    if s != [] {
      var e, rest := EscapeRune(s), Escape(s[Decode(s).1..]);
      EscapedHasNoSeparators(s[Decode(s).1..]);
      forall i: nat | i < |e + rest|
        ensures !SeparatorAt(e + rest, i)
      {
        if i < |e| {
          RuneIsNoSeparator(s, rest, i);
        } else {
          assert SeparatorAt(e + rest, i) <==> SeparatorAt(rest, i - |e|);
        }
      }
    }
  }

  // ---------- What is printed for each rune ----------

  /** A lower-case hexadecimal digit of this value. */
  predicate IsHexOf(b: Byte, v: nat) {
    HexValue(b) == v && !(0x41 <= b <= 0x46)
  }

  /** One of `<`, `>` and `&`, or a control character without an escape of its own. */
  predicate NeedsUnicode(b: Byte) {
    (b < 0x20 && b != 0x0A && b != 0x0D) || b == 0x3C || b == 0x3E || b == 0x26
  }

  /** Quotes and backslashes, line feeds, carriage returns and the rest of ASCII, as they are printed. */
  lemma AsciiPrinted(s: Bytes)
    requires s != [] && s[0] < 0x80
    ensures s[0] == 0x22 || s[0] == 0x5C ==> EscapeRune(s) == [0x5C, s[0]]
    ensures s[0] == 0x0A ==> EscapeRune(s) == [0x5C, 0x6E]
    ensures s[0] == 0x0D ==> EscapeRune(s) == [0x5C, 0x72]
    ensures NeedsUnicode(s[0]) ==>
              && |EscapeRune(s)| == 6 && EscapeRune(s)[..4] == [0x5C, 0x75, 0x30, 0x30]
              && IsHexOf(EscapeRune(s)[4], s[0] / 16) && IsHexOf(EscapeRune(s)[5], s[0] % 16)
    ensures !NeedsUnicode(s[0]) && s[0] != 0x22 && s[0] != 0x5C && s[0] != 0x0A && s[0] != 0x0D ==>
              EscapeRune(s) == [s[0]]
  {
    HexRoundTrip(s[0] / 16);
    HexRoundTrip(s[0] % 16);
  }

  /** Invalid bytes and the two line separators are escaped; every other rune is printed as its own bytes. */
  lemma RunePrinted(s: Bytes)
    requires s != [] && s[0] >= 0x80
    ensures var (c, size) := Decode(s);
            && (c == RUNE_ERROR && size == 1 ==> EscapeRune(s) == [0x5C, 0x75, 0x66, 0x66, 0x66, 0x64])
            && (c == 0x2028 ==> EscapeRune(s) == [0x5C, 0x75, 0x32, 0x30, 0x32, 0x38])
            && (c == 0x2029 ==> EscapeRune(s) == [0x5C, 0x75, 0x32, 0x30, 0x32, 0x39])
            && (!(c == RUNE_ERROR && size == 1) && c != 0x2028 && c != 0x2029 ==>
                  EscapeRune(s) == s[..size] == Encode(c))
  {
    hide Decode, Encode;
    if !StartsInvalid(s) { DecodeSound(s); }
  }

  /** A scalar value that needs no escape. */
  predicate IsPlainScalar(c: Scalar) {
    && c >= 0x20 && c != 0x22 && c != 0x5C && c != 0x3C && c != 0x3E && c != 0x26
    && c != 0x2028 && c != 0x2029
  }

  lemma PlainScalarPrinted(c: Scalar, rest: Bytes)
    requires IsPlainScalar(c)
    ensures EscapeRune(Encode(c) + rest) == Encode(c)
  {
    hide Decode, EscapeRune;
    var s := Encode(c) + rest;
    DecodeComplete(c, rest);
    assert s[0] == Encode(c)[0];
    if s[0] < 0x80 {
      AsciiPrinted(s);
    } else {
      RunePrinted(s);
    }
  }

  /** Text without anything to escape is printed as it is. */
  lemma {:induction false} PlainTextUnchanged(cs: seq<Scalar>)
    requires forall i :: 0 <= i < |cs| ==> IsPlainScalar(cs[i])
    ensures Escape(EncodeAll(cs)) == EncodeAll(cs)
    decreases |cs|
  {
    hide Decode, EscapeRune;
    if cs != [] {
      var rest := EncodeAll(cs[1..]);
      DecodeComplete(cs[0], rest);
      PlainScalarPrinted(cs[0], rest);
      PlainTextUnchanged(cs[1..]);
      assert (Encode(cs[0]) + rest)[|Encode(cs[0])|..] == rest;
    }
  }
}
