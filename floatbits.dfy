/** IEEE 754-2008 binary32 and binary64 values seen through their three fields
    (section 3.4 of IEEE 754-2008): sign, biased exponent and trailing significand
    ("mantissa").  One parameterised format serves both widths. */
module FloatBits {
  import opened Arith

  datatype Format = Binary32 | Binary64

  /** Trailing significand width (FLOAT_PMAN_SIZE / DOUBLE_PMAN_SIZE). */
  function PmanSize(f: Format): nat { if f == Binary32 then 23 else 52 }

  /** Exponent field width (FLOAT_EXP_SIZE / DOUBLE_EXP_SIZE). */
  function ExpSize(f: Format): nat { if f == Binary32 then 8 else 11 }

  /** Exponent bias (FLOAT_EXP_COMP / DOUBLE_EXP_COMP). */
  function Bias(f: Format): (r: nat)
    ensures r + 1 == Pow2(ExpSize(f) - 1)
  {
    if f == Binary32 then
      assert Pow2(7) == 128;
      127
    else
      assert Pow2(10) == 1024;
      1023
  }

  /** The all-ones exponent field, used by infinities and NaNs. */
  function MaxBiased(f: Format): nat { Pow2(ExpSize(f)) - 1 }

  datatype Fp = Fp(sign: bool, biasedExp: nat, mantissa: nat)

  ghost predicate WellFormed(f: Format, x: Fp) {
    x.biasedExp < Pow2(ExpSize(f)) && x.mantissa < Pow2(PmanSize(f))
  }

  predicate IsFinite(f: Format, x: Fp) { x.biasedExp < MaxBiased(f) }
  predicate IsZero(x: Fp) { x.biasedExp == 0 && x.mantissa == 0 }
  predicate IsSubnormal(x: Fp) { x.biasedExp == 0 && x.mantissa != 0 }
  predicate IsInfinite(f: Format, x: Fp) { x.biasedExp == MaxBiased(f) && x.mantissa == 0 }
  predicate IsNaN(f: Format, x: Fp) { x.biasedExp == MaxBiased(f) && x.mantissa != 0 }

  function Zero(sign: bool): Fp { Fp(sign, 0, 0) }
  function Infinity(f: Format, sign: bool): Fp { Fp(sign, MaxBiased(f), 0) }

  /** The decoded exponent the source computes: the biased field minus the bias. */
  function Exponent(f: Format, x: Fp): int { x.biasedExp - Bias(f) }

  /** The encoding as an unsigned integer of width 1 + ExpSize + PmanSize. */
  function Bits(f: Format, x: Fp): nat {
    ((if x.sign then 1 else 0) * Pow2(ExpSize(f)) + x.biasedExp) * Pow2(PmanSize(f)) + x.mantissa
  }

  lemma WidthPow2(f: Format)
    ensures Pow2(Width(f)) == 2 * (Pow2(ExpSize(f)) * Pow2(PmanSize(f)))
  {
    Pow2Add(ExpSize(f), PmanSize(f));
    Pow2Add(1, ExpSize(f) + PmanSize(f));
  }

  function Width(f: Format): nat { 1 + ExpSize(f) + PmanSize(f) }

  function FromBits(f: Format, u: nat): (x: Fp)
    requires u < Pow2(Width(f))
  {
    Fp(u / Pow2(ExpSize(f) + PmanSize(f)) == 1, (u / Pow2(PmanSize(f))) % Pow2(ExpSize(f)), u % Pow2(PmanSize(f)))
  }

  /** `((GET_EXP & u) >> PMAN_SIZE) - EXP_COMP`: masking the exponent bits and shifting
      them down is taking the quotient by 2^PMAN_SIZE modulo 2^EXP_SIZE. */
  function ExtractExponent(f: Format, u: nat): int {
    (u / Pow2(PmanSize(f))) % Pow2(ExpSize(f)) - Bias(f)
  }

  /** Splitting n == (s * E + b) * P + m into its three fields. */
  lemma SplitFields(n: int, s: int, b: int, m: int, E: int, P: int)
    requires E > 0 && P > 0 && 0 <= s <= 1 && 0 <= b < E && 0 <= m < P
    requires n == (s * E + b) * P + m
    ensures n / P == s * E + b && n % P == m
    ensures n / (E * P) == s && n % (E * P) == b * P + m
    ensures 0 <= n < 2 * (E * P)
  {
    DivModUnique(n, P, s * E + b, m);
    assert b * P <= (E - 1) * P by { MulMonotone(b, E - 1, P); }
    assert (E - 1) * P == E * P - P;
    assert n == s * (E * P) + (b * P + m);
    DivModUnique(n, E * P, s, b * P + m);
    assert b * P >= 0 by { MulMonotone(0, b, P); }
  }

  lemma MulMonotone(a: int, b: int, c: int)
    requires a <= b && c >= 0
    ensures a * c <= b * c
  {
    assert b * c - a * c == (b - a) * c;
  }

  lemma {:induction false} BitsFields(f: Format, x: Fp)
    requires WellFormed(f, x)
    ensures Bits(f, x) < Pow2(Width(f))
    ensures Bits(f, x) % Pow2(PmanSize(f)) == x.mantissa
    ensures Bits(f, x) / Pow2(PmanSize(f)) == (if x.sign then Pow2(ExpSize(f)) else 0) + x.biasedExp
    ensures Bits(f, x) / Pow2(ExpSize(f) + PmanSize(f)) == (if x.sign then 1 else 0)
  {
    var P, E := Pow2(PmanSize(f)), Pow2(ExpSize(f));
    WidthPow2(f);
    Pow2Add(ExpSize(f), PmanSize(f));
    var s := if x.sign then 1 else 0;
    SplitFields(Bits(f, x), s, x.biasedExp, x.mantissa, E, P);
  }

  /** The exponent the source extracts from the encoding is the decoded exponent of the value. */
  lemma ExtractExponentOfBits(f: Format, x: Fp)
    requires WellFormed(f, x)
    ensures ExtractExponent(f, Bits(f, x)) == Exponent(f, x)
  {
    BitsFields(f, x);
    var s := if x.sign then 1 else 0;
    DivModUnique(s * Pow2(ExpSize(f)) + x.biasedExp, Pow2(ExpSize(f)), s, x.biasedExp);
  }

  /** Decoding an encoding gives back the fields. */
  lemma DecodeEncode(f: Format, x: Fp)
    requires WellFormed(f, x)
    ensures Bits(f, x) < Pow2(Width(f)) && FromBits(f, Bits(f, x)) == x
  {
    BitsFields(f, x);
    var s := if x.sign then 1 else 0;
    DivModUnique(s * Pow2(ExpSize(f)) + x.biasedExp, Pow2(ExpSize(f)), s, x.biasedExp);
  }

  /** Encoding a decoded bit pattern gives back the bit pattern. */
  lemma EncodeDecode(f: Format, u: nat)
    requires u < Pow2(Width(f))
    ensures WellFormed(f, FromBits(f, u)) && Bits(f, FromBits(f, u)) == u
  {
    WidthPow2(f);
    Pow2Add(ExpSize(f), PmanSize(f));
    JoinFields(u, Pow2(ExpSize(f)), Pow2(PmanSize(f)));
  }

  /** Any u < 2 * E * P is rebuilt from its three fields. */
  lemma JoinFields(u: int, E: int, P: int)
    requires E > 0 && P > 0 && 0 <= u < 2 * (E * P)
    ensures u / (E * P) == 0 || u / (E * P) == 1
    ensures u == ((u / (E * P)) * E + (u / P) % E) * P + u % P
  {
    var q := u / P;
    var s := q / E;
    assert u == q * P + u % P;
    assert q == s * E + q % E;
    assert u == (s * E + q % E) * P + u % P;
    DivDiv(u, P, E);
    DivBound(u, E * P, 2);
  }

  lemma DivDiv(u: int, P: int, E: int)
    requires u >= 0 && P > 0 && E > 0
    ensures (u / P) / E == u / (E * P)
  {
    var q, m := u / P, u % P;
    var s, b := q / E, q % E;
    NestQuotient(u, q, m, s, b, E, P);
    SplitFields0(u, s, b, m, E, P);
  }

  /** Dividing by P and then by E leaves u written in both radixes. */
  lemma NestQuotient(u: int, q: int, m: int, s: int, b: int, E: int, P: int)
    requires P > 0 && E > 0 && q == u / P && m == u % P && s == q / E && b == q % E
    ensures u == (s * E + b) * P + m
  {
    assert u == q * P + m;
    assert q == s * E + b;
  }

  lemma SplitFields0(n: int, s: int, b: int, m: int, E: int, P: int)
    requires E > 0 && P > 0 && s >= 0 && 0 <= b < E && 0 <= m < P
    requires n == (s * E + b) * P + m
    ensures n / (E * P) == s
  {
    assert b * P <= (E - 1) * P by { MulMonotone(b, E - 1, P); }
    assert (E - 1) * P == E * P - P;
    assert n == s * (E * P) + (b * P + m);
    assert b * P >= 0 by { MulMonotone(0, b, P); }
    DivModUnique(n, E * P, s, b * P + m);
  }

  lemma DivBound(u: int, k: int, c: int)
    requires u >= 0 && k > 0 && c > 0 && u < c * k
    ensures u / k < c
  {
  }

  /** IEEE `<` on two values of the same format: false if either is a NaN, the two
      zeros compare equal, otherwise sign first and then magnitude. */
  predicate Less(f: Format, x: Fp, y: Fp) {
    if IsNaN(f, x) || IsNaN(f, y) then false
    else if IsZero(x) && IsZero(y) then false
    else if x.sign != y.sign then x.sign
    else if !x.sign then MagnitudeLess(x, y)
    else MagnitudeLess(y, x)
  }

  predicate MagnitudeLess(x: Fp, y: Fp) {
    x.biasedExp < y.biasedExp || (x.biasedExp == y.biasedExp && x.mantissa < y.mantissa)
  }

  /** `b < 0`: true exactly for negative values other than -0 and NaN. */
  lemma LessThanZero(f: Format, b: Fp)
    ensures Less(f, b, Zero(false)) <==> (b.sign && !IsZero(b) && !IsNaN(f, b))
  {
  }

  /** `min(a, b)` as the macro `((a) < (b) ? (a) : (b))` computes it. */
  function Min(f: Format, x: Fp, y: Fp): (r: Fp)
    ensures r == x || r == y
    ensures Less(f, x, y) ==> r == x
  {
    if Less(f, x, y) then x else y
  }

  /** `copysign(exp2(e), s)`: the power of two 2^e in format `f` with sign `s`:
      infinite above the largest finite exponent, subnormal below the smallest
      normal one, and zero below half the smallest subnormal (rounding to even). */
  function SignedPow2(f: Format, sign: bool, e: int): (r: Fp)
    ensures r.sign == sign
    ensures WellFormed(f, r)
    ensures 0 < e + Bias(f) && e <= Bias(f) ==> Exponent(f, r) == e && r.mantissa == 0
    ensures e > Bias(f) ==> IsInfinite(f, r)
  {
    if e > Bias(f) then Infinity(f, sign)
    else if e >= 1 - Bias(f) then
      assert e + Bias(f) < Pow2(ExpSize(f)) by { Pow2Add(1, ExpSize(f) - 1); }
      Fp(sign, e + Bias(f), 0)
    else if e >= 1 - Bias(f) - PmanSize(f) then
      var k: nat := e - (1 - Bias(f) - PmanSize(f));
      assert Pow2(k) < Pow2(PmanSize(f)) by { Pow2Monotone(k + 1, PmanSize(f)); }
      Fp(sign, 0, Pow2(k))
    else Zero(sign)
  }
}
