/** The integer printer behind the JSON encoding of application components. */
module FormatBits {
  import opened Protocol

  const DIGITS := "0123456789abcdefghijklmnopqrstuvwxyz"
  /** The two-digit tables of the decimal branch: "0123456789" ten times, and ten of each digit. */
  const DIGITS01 := Units(10)
  const DIGITS10 := Tens(10)

  function Units(n: nat): (s: string)
    ensures |s| == 10 * n
    ensures forall j :: 0 <= j < 10 * n ==> s[j] == Digit(j % 10)
  {
    if n == 0 then "" else Units(n - 1) + "0123456789"
  }

  function Tens(n: nat): (s: string)
    requires n <= 10
    ensures |s| == 10 * n
    ensures forall j :: 0 <= j < 10 * n ==> s[j] == Digit(j / 10)
  {
    if n == 0 then "" else Tens(n - 1) + seq(10, _ => Digit(n - 1))
  }

  /** The digit characters, 0 to 9 and then a to z. */
  function Digit(d: nat): char
    requires d < 36
  {
    if d < 10 then ('0' as int + d) as char else ('a' as int + (d - 10)) as char
  }

  type Base = b: nat | 2 <= b <= 36 witness 10

  // ---------- Machine words ----------

  function Pow2(n: nat): (p: nat)
    ensures p > 0
  {
    if n == 0 then 1 else 2 * Pow2(n - 1)
  }

  /** Bitwise and. */
  function And(x: nat, y: nat): nat {
    if x == 0 || y == 0 then 0 else 2 * And(x / 2, y / 2) + if x % 2 == 1 && y % 2 == 1 then 1 else 0
  }

  /** Logical shift to the right. */
  function ShiftRight(x: nat, s: nat): nat
    decreases s
  {
    if s == 0 then x else ShiftRight(x / 2, s - 1)
  }

  /** Negation of an unsigned 64-bit word. */
  function Negate(u: nat): (r: nat)
    requires u < TWO64
    ensures r < TWO64
  {
    (TWO64 - u) % TWO64
  }

  /** Reinterprets a signed 64-bit value as unsigned. */
  function AsUnsigned(v: int): (u: nat)
    requires -TWO64 / 2 <= v < TWO64 / 2
    ensures u < TWO64
  {
    v % TWO64
  }

  /** The table of shift widths: the exponent of a power of two up to 32, else 0. */
  function Shifts(base: Base): nat {
    if base == 2 then 1 else if base == 4 then 2 else if base == 8 then 3
    else if base == 16 then 4 else if base == 32 then 5 else 0
  }

  lemma {:induction false} MaskIsRemainder(x: nat, s: nat)
    ensures And(x, Pow2(s) - 1) == x % Pow2(s)
    decreases s
  {
    if s > 0 {
      var h := Pow2(s - 1);
      MaskIsRemainder(x / 2, s - 1);
      AndOddMask(x, h);
      DoubleModulus(x, h);
    }
  }

  lemma AndOddMask(x: nat, h: nat)
    requires h > 0
    ensures And(x, 2 * h - 1) == 2 * And(x / 2, h - 1) + x % 2
  {
    assert (2 * h - 1) / 2 == h - 1 && (2 * h - 1) % 2 == 1;
  }

  /** Writing `x` as `2 * (x / 2) + x % 2` and dividing by `2 * h`. */
  lemma DoubleModulus(x: nat, h: nat)
    requires h > 0
    ensures x / (2 * h) == x / 2 / h
    ensures x % (2 * h) == 2 * (x / 2 % h) + x % 2
  {
    var q, r := x / 2 / h, x / 2 % h;
    assert x == 2 * (q * h + r) + x % 2;
    assert x == (2 * h) * q + (2 * r + x % 2);
    DivModUnique(x, 2 * h, q, 2 * r + x % 2);
  }

  lemma DivModUnique(x: nat, d: nat, q: nat, r: nat)
    requires r < d && x == d * q + r
    ensures x / d == q && x % d == r
  {
    var q', r' := x / d, x % d;
    assert x == d * q' + r';
    if q' > q {
      MulMonotonic(d, q + 1, q');
    } else if q' < q {
      MulMonotonic(d, q' + 1, q);
    }
  }

  lemma MulMonotonic(d: nat, a: nat, b: nat)
    requires a <= b
    ensures d * a <= d * b
  {
  }

  lemma {:induction false} ShiftIsQuotient(x: nat, s: nat)
    ensures ShiftRight(x, s) == x / Pow2(s)
    decreases s
  {
    if s > 0 {
      ShiftIsQuotient(x / 2, s - 1);
      DoubleModulus(x, Pow2(s - 1));
    }
  }

  lemma ShiftsArePowers(base: Base)
    ensures Shifts(base) > 0 ==> Pow2(Shifts(base)) == base
  {
    assert Pow2(5) == 2 * Pow2(4) == 4 * Pow2(3) == 8 * Pow2(2) == 16 * Pow2(1);
    assert Pow2(1) == 2 * Pow2(0);
  }

  // ---------- Numerals ----------

  /** The base-`b` numeral of `n`. */
  function Numeral(n: nat, b: Base): (s: string)
    ensures |s| > 0
  {
    if n < b then [Digit(n)]
    else
      QuotientPositive(n, b);
      Numeral(n / b, b) + [Digit(n % b)]
  }

  /** The value of a digit, or -1. */
  function DigitValue(c: char): int {
    if '0' <= c <= '9' then c as int - '0' as int
    else if 'a' <= c <= 'z' then c as int - 'a' as int + 10
    else -1
  }

  /** A non-empty string of base-`b` digits that does not start with a superfluous zero. */
  ghost predicate IsCanonical(s: string, b: Base) {
    && |s| > 0
    && (forall i :: 0 <= i < |s| ==> 0 <= DigitValue(s[i]) < b)
    && (|s| == 1 || s[0] != '0')
  }

  /** What a string of digits denotes, read from left to right. */
  function Value(s: string, b: Base): int {
    if s == [] then 0 else Value(s[..|s| - 1], b) * b + DigitValue(s[|s| - 1])
  }

  lemma DigitValueInverse(c: char)
    requires DigitValue(c) >= 0
    ensures DigitValue(c) < 36 && Digit(DigitValue(c)) == c
  {
  }

  lemma ValueAppend(s: string, c: char, b: Base)
    ensures Value(s + [c], b) == Value(s, b) * b + DigitValue(c)
  {
    assert (s + [c])[..|s|] == s;
  }

  lemma CanonicalAppend(s: string, d: nat, b: Base)
    requires IsCanonical(s, b) && s[0] != '0' && d < b
    ensures IsCanonical(s + [Digit(d)], b)
  {
  }

  /** The printed numeral is canonical and denotes the number. */
  lemma {:induction false} NumeralIsCanonical(n: nat, b: Base)
    ensures IsCanonical(Numeral(n, b), b) && Value(Numeral(n, b), b) == n
    ensures Numeral(n, b)[0] == '0' ==> n == 0
  {
    if n < b {
      ValueAppend([], Digit(n), b);
      assert [] + [Digit(n)] == Numeral(n, b);
    } else {
      var front := Numeral(n / b, b);
      QuotientPositive(n, b);
      NumeralIsCanonical(n / b, b);
      ValueAppend(front, Digit(n % b), b);
      CanonicalAppend(front, n % b, b);
    }
  }

  lemma QuotientPositive(n: nat, b: Base)
    requires n >= b
    ensures 0 < n / b < n && n / b * b + n % b == n
  {
  }

  /** No other canonical string denotes it. */
  lemma {:induction false} CanonicalIsNumeral(s: string, b: Base)
    requires IsCanonical(s, b)
    ensures Value(s, b) >= 0 && s == Numeral(Value(s, b), b)
    ensures s[0] != '0' ==> Value(s, b) > 0
    decreases |s|
  {
    hide Value, Numeral;
    var front, last := s[..|s| - 1], s[|s| - 1];
    var d := DigitValue(last);
    DigitValueInverse(last);
    assert s == front + [last];
    ValueAppend(front, last, b);
    if front == [] {
      OneDigit(d, b);
      assert s == [Digit(d)];
    } else {
      assert s[0] == front[0] && forall i :: 0 <= i < |front| ==> front[i] == s[i];
      CanonicalIsNumeral(front, b);
      var v: nat := Value(front, b);
      NumeralAppend(v, d, b);
      assert Value(s, b) == v * b + d;
    }
  }

  lemma OneDigit(d: nat, b: Base)
    requires d < b
    ensures Value([Digit(d)], b) == d && Numeral(d, b) == [Digit(d)]
  {
    ValueAppend([], Digit(d), b);
    assert [] + [Digit(d)] == [Digit(d)];
  }

  lemma NumeralAppend(v: nat, d: nat, b: Base)
    requires v > 0 && d < b
    ensures v * b + d >= b && Numeral(v * b + d, b) == Numeral(v, b) + [Digit(d)]
  {
    MulMonotonic(b, 1, v);
    DivModUnique(v * b + d, b, v, d);
  }

  lemma NumeralCharacterized(s: string, n: nat, b: Base)
    ensures s == Numeral(n, b) <==> IsCanonical(s, b) && Value(s, b) == n
  {
    NumeralIsCanonical(n, b);
    if IsCanonical(s, b) { CanonicalIsNumeral(s, b); }
  }

  // ---------- The printer ----------

  /** What is printed: a sign if asked for, then the numeral of the (negated) word. */
  function Formatted(u: nat, b: Base, neg: bool): string
    requires u < TWO64
  {
    if neg then "-" + Numeral(Negate(u), b) else Numeral(u, b)
  }

  /**
   * `done` completes the numeral of the part `u` still to be printed, and `room` bytes before
   * it are enough for that part and a sign.
   */
  ghost predicate Printing(n: nat, b: Base, u: nat, done: string, room: int) {
    && room >= 1 && u < Pow2(room - 1)
    && (u == 0 ==> n == 0 && done == "" && room == 65)
    && Numeral(n, b) == Numeral(u, b) + done
  }

  /** Printing the last digit of `u` takes one byte. */
  lemma PrintDigit(n: nat, b: Base, u: nat, done: string, room: int)
    requires Printing(n, b, u, done, room) && u >= b
    ensures Printing(n, b, u / b, [Digit(u % b)] + done, room - 1)
  {
    QuotientPositive(u, b);
    MulMonotonic(u / b, 2, b);
    assert room - 1 > 0 && Pow2(room - 1) == 2 * Pow2(room - 2);
    assert Numeral(u, b) + done == Numeral(u / b, b) + ([Digit(u % b)] + done);
  }

  /** A 65-byte buffer is enough for any 64-bit word. */
  lemma PrintStart(n: nat, b: Base)
    requires n < TWO64
    ensures Printing(n, b, n, [], 65)
  {
    PowersOfTwo();
    assert Numeral(n, b) + [] == Numeral(n, b);
  }

  /** The last digit leaves a byte for the sign. */
  lemma PrintEnd(n: nat, b: Base, u: nat, done: string, room: int)
    requires Printing(n, b, u, done, room) && u < b
    ensures room >= 2 && Numeral(n, b) == [Digit(u)] + done
  {
  }

  /** The decimal branch prints the last two digits at once. */
  lemma PrintTwoDigits(n: nat, u: nat, done: string, room: int)
    requires Printing(n, 10, u, done, room) && u >= 100
    ensures Printing(n, 10, u / 100, [Digit(u % 100 / 10)] + [Digit(u % 100 % 10)] + done, room - 2)
  {
    PrintDigit(n, 10, u, done, room);
    PrintDigit(n, 10, u / 10, [Digit(u % 10)] + done, room - 1);
    assert u / 10 / 10 == u / 100 && u / 10 % 10 == u % 100 / 10 && u % 10 == u % 100 % 10;
    assert [Digit(u % 100 / 10)] + ([Digit(u % 10)] + done) == [Digit(u % 100 / 10)] + [Digit(u % 100 % 10)] + done;
  }

  /** Mask and shift act as remainder and quotient for a power of two. */
  lemma MaskAndShift(u: nat, base: Base)
    requires Shifts(base) > 0
    ensures And(u, base as nat - 1) == u % base && ShiftRight(u, Shifts(base)) == u / base
  {
    ShiftsArePowers(base);
    MaskIsRemainder(u, Shifts(base));
    ShiftIsQuotient(u, Shifts(base));
  }

  /** Looks a digit up in the table. */
  method LookUp(d: nat) returns (c: char)
    requires d < 36
    ensures c == Digit(d)
  {
    c := DIGITS[d];
  }

  /** Looks up both digits of a number below 100. */
  method LookUpTwo(j: nat) returns (tens: char, units: char)
    requires j < 100
    ensures tens == Digit(j / 10) && units == Digit(j % 10)
  {
    tens, units := DIGITS10[j], DIGITS01[j];
  }

  /** The decimal branch: two digits at a time from the tables. */
  method PrintDecimal(a: array<char>, i0: nat, u0: nat, base: Base, ghost n: nat) returns (i: nat, u: nat)
    requires base == 10 && i0 <= a.Length && Printing(n, base, u0, a[i0..], i0)
    modifies a
    ensures i <= a.Length && u < base && Printing(n, base, u, a[i..], i)
  {
    i, u := i0, u0;
    while u >= 100
      invariant i <= a.Length && Printing(n, base, u, a[i..], i)
      decreases u
    {
      ghost var done := a[i..];
      PrintTwoDigits(n, u, done, i);
      i := i - 2;
      var q := u / 100;
      var j := u - q * 100;
      a[i + 0], a[i + 1] := LookUpTwo(j);
      assert a[i..] == [Digit(j / 10)] + [Digit(j % 10)] + done;
      u := q;
    }
    if u >= 10 {
      PrintDigit(n, base, u, a[i..], i);
      i := i - 1;
      var q := u / 10;
      a[i] := LookUp(u - q * 10);
      u := q;
    }
  }

  /** The branch for powers of two: shift and mask. */
  method PrintShifted(a: array<char>, i0: nat, u0: nat, base: Base, ghost n: nat) returns (i: nat, u: nat)
    requires Shifts(base) > 0 && i0 <= a.Length && Printing(n, base, u0, a[i0..], i0)
    modifies a
    ensures i <= a.Length && u < base && Printing(n, base, u, a[i..], i)
  {
    i, u := i0, u0;
    var s := Shifts(base);
    var b: nat := base;
    var m := b - 1;
    while u >= b
      invariant i <= a.Length && Printing(n, base, u, a[i..], i)
      decreases u
    {
      PrintDigit(n, base, u, a[i..], i);
      MaskAndShift(u, base);
      QuotientPositive(u, base);
      i := i - 1;
      a[i] := LookUp(And(u, m));
      u := ShiftRight(u, s);
    }
  }

  /** The branch for every other base: remainder and division. */
  method PrintDivided(a: array<char>, i0: nat, u0: nat, base: Base, ghost n: nat) returns (i: nat, u: nat)
    requires i0 <= a.Length && Printing(n, base, u0, a[i0..], i0)
    modifies a
    ensures i <= a.Length && u < base && Printing(n, base, u, a[i..], i)
  {
    i, u := i0, u0;
    var b: nat := base;
    while u >= b
      invariant i <= a.Length && Printing(n, base, u, a[i..], i)
      decreases u
    {
      PrintDigit(n, base, u, a[i..], i);
      QuotientPositive(u, base);
      i := i - 1;
      a[i] := LookUp(u % b);
      u := u / b;
    }
  }

  /** Prints all digits but the first, by the branch for this base. */
  method PrintLow(a: array<char>, u0: nat, base: Base, ghost n: nat) returns (i: nat, u: nat)
    requires a.Length == 65 && Printing(n, base, u0, [], 65)
    modifies a
    ensures i <= a.Length && u < base && Printing(n, base, u, a[i..], i)
  {
    assert a[65..] == [];
    if base == 10 {
      i, u := PrintDecimal(a, 65, u0, base, n);
    } else if Shifts(base) > 0 {
      i, u := PrintShifted(a, 65, u0, base, n);
    } else {
      i, u := PrintDivided(a, 65, u0, base, n);
    }
  }

  /** Writes from the end of a 65-byte buffer: 64 binary digits and a sign just fit. */
  method FormatBits(u0: nat, base: Base, neg: bool) returns (r: string)
    requires u0 < TWO64
    ensures r == Formatted(u0, base, neg)
  {
    var a := new char[65];
    var i: nat;
    var u: nat := if neg then Negate(u0) else u0;
    ghost var n: nat := u;
    PrintStart(n, base);
    i, u := PrintLow(a, u, base, n);
    ghost var done := a[i..];
    PrintEnd(n, base, u, done, i);
    i := i - 1;
    a[i] := LookUp(u);
    assert a[i..] == [Digit(u)] + done;
    ghost var numeral := a[i..];
    if neg {
      i := i - 1;
      a[i] := '-';
      assert a[i..] == "-" + numeral;
    }
    r := a[i..];
  }

  lemma {:induction false} Pow2Add(m: nat, n: nat)
    ensures Pow2(m + n) == Pow2(m) * Pow2(n)
  {
    if m > 0 { Pow2Add(m - 1, n); }
  }

  lemma PowersOfTwo()
    ensures Pow2(64) == TWO64
  {
    assert Pow2(8) == 0x100;
    Pow2Add(8, 8);
    Pow2Add(16, 16);
    Pow2Add(32, 32);
  }

  // ---------- Round trip ----------

  /** Reads a numeral with an optional sign. */
  function Parse(s: string, b: Base): int
    requires s != []
  {
    if s[0] == '-' then -Value(s[1..], b) else Value(s, b)
  }

  /** A signed 64-bit number, printed as its callers print it, reads back as itself. */
  lemma SignedRoundTrip(v: int, b: Base)
    requires -TWO64 / 2 <= v < TWO64 / 2
    ensures var s := Formatted(AsUnsigned(v), b, v < 0);
            s != [] && Parse(s, b) == v && (v < 0 <==> s[0] == '-')
  {
    var m := if v < 0 then Negate(AsUnsigned(v)) else AsUnsigned(v);
    assert m == if v < 0 then -v else v;
    NumeralIsCanonical(m, b);
    var s := Formatted(AsUnsigned(v), b, v < 0);
    if v < 0 {
      assert s[1..] == Numeral(m, b);
    }
  }

  /** An unsigned 64-bit number, printed without a sign, reads back as itself. */
  lemma UnsignedRoundTrip(u: nat, b: Base)
    requires u < TWO64
    ensures var s := Formatted(u, b, false); IsCanonical(s, b) && s[0] != '-' && Parse(s, b) == u
  {
    NumeralIsCanonical(u, b);
  }

  /** Only the sign is not a digit. */
  lemma SignedDigits(v: int, b: Base)
    requires -TWO64 / 2 <= v < TWO64 / 2
    ensures var s := Formatted(AsUnsigned(v), b, v < 0);
            forall i :: 0 <= i < |s| ==> (i == 0 && s[i] == '-') || 0 <= DigitValue(s[i]) < b
  {
    var m := if v < 0 then Negate(AsUnsigned(v)) else AsUnsigned(v);
    NumeralIsCanonical(m, b);
    var s := Formatted(AsUnsigned(v), b, v < 0);
    if v < 0 {
      assert s[1..] == Numeral(m, b);
      assert forall i :: 1 <= i < |s| ==> s[i] == Numeral(m, b)[i - 1];
    }
  }

  /** A word printed as negative reads as its two's complement: itself less than 2 to the 64. */
  lemma NegatedRoundTrip(u: nat, b: Base)
    requires u < TWO64
    ensures var s := Formatted(u, b, true); s[0] == '-' && Parse(s, b) == if u == 0 then 0 else u - TWO64
  {
    NumeralIsCanonical(Negate(u), b);
    assert Formatted(u, b, true)[1..] == Numeral(Negate(u), b);
  }

  /** Bases that are printed by shifting. */
  lemma ShiftedIff(b: Base)
    ensures Shifts(b) > 0 <==> b == 2 || b == 4 || b == 8 || b == 16 || b == 32
  {
  }
}
