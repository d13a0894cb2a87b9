/** Decimal text of integers as the C library reads and writes it: `%d` in `printf`,
    and `strtol(s, &end, 10)` / `%d` in `scanf` for reading. */
module Decimal {

  predicate IsDigit(c: char) { '0' <= c <= '9' }

  function DigitValue(c: char): nat
    requires IsDigit(c)
  {
    c as int - '0' as int
  }

  function DigitChar(d: nat): (c: char)
    requires d < 10
    ensures IsDigit(c) && DigitValue(c) == d
  {
    ('0' as int + d) as char
  }

  predicate AllDigits(s: seq<char>) { forall i :: 0 <= i < |s| ==> IsDigit(s[i]) }

  /** The value of a string of digits, most significant first. */
  function DigitsValue(s: seq<char>): nat
    requires AllDigits(s)
  {
    if s == [] then 0 else DigitsValue(s[..|s| - 1]) * 10 + DigitValue(s[|s| - 1])
  }

  lemma DigitsValueSnoc(s: seq<char>, c: char)
    requires AllDigits(s) && IsDigit(c)
    ensures AllDigits(s + [c]) && DigitsValue(s + [c]) == DigitsValue(s) * 10 + DigitValue(c)
  {
    assert (s + [c])[..|s|] == s;
  }

  /** `%d` of a non-negative value: its digits without leading zeros. */
  function NatToString(n: nat): (s: seq<char>)
    ensures |s| >= 1 && AllDigits(s)
    ensures |s| > 1 ==> s[0] != '0'
    decreases n
  {
    if n < 10 then [DigitChar(n)] else NatToString(n / 10) + [DigitChar(n % 10)]
  }

  /** Reading back what `%d` wrote gives the value. */
  lemma {:induction false} NatToStringValue(n: nat)
    ensures DigitsValue(NatToString(n)) == n
    decreases n
  {
    if n >= 10 {
      var s := NatToString(n);
      assert s[..|s| - 1] == NatToString(n / 10);
      NatToStringValue(n / 10);
    }
  }

  /** `%d` of any value. */
  function IntToString(i: int): (s: seq<char>)
    ensures |s| >= 1 && (IsDigit(s[0]) || s[0] == '-')
    ensures i >= 0 ==> AllDigits(s)
    ensures i < 0 ==> |s| >= 2 && s[0] == '-' && AllDigits(s[1..])
  {
    if i < 0 then
      assert (['-'] + NatToString(-i))[1..] == NatToString(-i);
      ['-'] + NatToString(-i)
    else NatToString(i)
  }

  /** The C whitespace class (`isspace`): the space and the five control characters
      from tab (9) to carriage return (13). */
  predicate IsSpace(c: char) {
    c == ' ' || '\t' <= c <= '\r'
  }

  /** The number of leading characters of s satisfying IsDigit. */
  function DigitRun(s: seq<char>): (n: nat)
    ensures n <= |s| && AllDigits(s[..n]) && (n < |s| ==> !IsDigit(s[n]))
  {
    if s == [] || !IsDigit(s[0]) then 0
    else
      var n := 1 + DigitRun(s[1..]);
      assert s[..n] == [s[0]] + s[1..][..n - 1];
      n
  }

  /** The number of leading white-space characters of s. */
  function SpaceRun(s: seq<char>): (n: nat)
    ensures n <= |s|
  {
    if s == [] || !IsSpace(s[0]) then 0 else 1 + SpaceRun(s[1..])
  }

  /** `LONG_MIN` and `LONG_MAX` of a 64-bit `long`. */
  const LongMax: int := 0x7FFF_FFFF_FFFF_FFFF
  const LongMin: int := -0x8000_0000_0000_0000

  /** `INT_MIN` and `INT_MAX` of a 32-bit `int`. */
  const IntMax: int := 0x7FFF_FFFF
  const IntMin: int := -0x8000_0000

  /** What `strtol(s, &end, 10)` reports: the value and whether `errno` was set to ERANGE. */
  datatype LongRead = LongRead(value: int, outOfRange: bool, consumed: nat)

  /** The number at the head of s, after optional white space and an optional sign:
      its value, clamped to the `long` range with ERANGE when it does not fit, and 0 with
      nothing consumed when there is no digit. Trailing characters are ignored. */
  function Strtol(s: seq<char>): (r: LongRead)
    ensures LongMin <= r.value <= LongMax
    ensures r.consumed <= |s|
  {
    var ws := SpaceRun(s);
    var rest := s[ws..];
    var neg := |rest| > 0 && rest[0] == '-';
    var signLen := if |rest| > 0 && (rest[0] == '-' || rest[0] == '+') then 1 else 0;
    var digits := rest[signLen..];
    var n := DigitRun(digits);
    if n == 0 then LongRead(0, false, 0)
    else
      var mag: int := DigitsValue(digits[..n]);
      var v := if neg then -mag else mag;
      if v > LongMax then LongRead(LongMax, true, ws + signLen + n)
      else if v < LongMin then LongRead(LongMin, true, ws + signLen + n)
      else LongRead(v, false, ws + signLen + n)
  }

  /** Reading the text `%d` wrote for a `long`-sized value, after white space and up to
      a character that is not a digit, gives the value back with no error. */
  lemma StrtolOfIntToString(w: seq<char>, i: int, rest: seq<char>)
    requires LongMin <= i <= LongMax
    requires forall k :: 0 <= k < |w| ==> IsSpace(w[k])
    requires rest == [] || !IsDigit(rest[0])
    ensures Strtol(w + IntToString(i) + rest) == LongRead(i, false, |w| + |IntToString(i)|)
  {
    if i < 0 {
      StrtolOfNegative(w, -i, rest);
    } else {
      StrtolOfNatural(w, i, rest);
    }
  }

  lemma StrtolOfNatural(w: seq<char>, m: nat, rest: seq<char>)
    requires m <= LongMax
    requires forall k :: 0 <= k < |w| ==> IsSpace(w[k])
    requires rest == [] || !IsDigit(rest[0])
    ensures Strtol(w + NatToString(m) + rest) == LongRead(m, false, |w| + |NatToString(m)|)
  {
    var d := NatToString(m);
    NatToStringValue(m);
    var s := w + d + rest;
    assert s == w + (d + rest);
    SpaceRunPrefix(w, d + rest);
    assert s[SpaceRun(s)..] == d + rest;
    DigitRunPrefix(d, rest);
    assert (d + rest)[..|d|] == d;
  }

  lemma StrtolOfNegative(w: seq<char>, m: nat, rest: seq<char>)
    requires 0 < m <= -LongMin
    requires forall k :: 0 <= k < |w| ==> IsSpace(w[k])
    requires rest == [] || !IsDigit(rest[0])
    ensures Strtol(w + (['-'] + NatToString(m)) + rest) == LongRead(-(m as int), false, |w| + 1 + |NatToString(m)|)
  {
    var d := NatToString(m);
    NatToStringValue(m);
    var t := ['-'] + (d + rest);
    var s := w + (['-'] + d) + rest;
    assert s == w + t;
    SpaceRunPrefix(w, t);
    assert s[SpaceRun(s)..] == t;
    assert t[1..] == d + rest;
    DigitRunPrefix(d, rest);
    assert (d + rest)[..|d|] == d;
  }

  lemma SpaceRunPrefix(w: seq<char>, t: seq<char>)
    requires forall k :: 0 <= k < |w| ==> IsSpace(w[k])
    requires t != [] && !IsSpace(t[0])
    ensures SpaceRun(w + t) == |w|
  {
    if w != [] {
      assert (w + t)[1..] == w[1..] + t;
      SpaceRunPrefix(w[1..], t);
    }
  }

  lemma DigitRunPrefix(d: seq<char>, rest: seq<char>)
    requires AllDigits(d) && (rest == [] || !IsDigit(rest[0]))
    ensures DigitRun(d + rest) == |d|
  {
    if d != [] {
      assert (d + rest)[1..] == d[1..] + rest;
      DigitRunPrefix(d[1..], rest);
    }
  }

  lemma DigitRunAll(s: seq<char>)
    requires AllDigits(s)
    ensures DigitRun(s) == |s|
  {
    if s != [] {
      DigitRunAll(s[1..]);
    }
  }

  /** The conversion of a `long` to a 32-bit `int`: reduction modulo 2^32 into
      [INT_MIN, INT_MAX] (the behaviour of the usual compilers; the C standard leaves it
      to the implementation). */
  function LongToInt(v: int): (r: int)
    ensures IntMin <= r <= IntMax
    ensures IntMin <= v <= IntMax ==> r == v
    ensures (r - v) % 0x1_0000_0000 == 0
  {
    (v - IntMin) % 0x1_0000_0000 + IntMin
  }
}
