/** Range and error-mode rules of the VPREC backend: how one value is brought into a
    narrower exponent range and a shorter significand (`_vprec_round_binary32/64`).
    The bit-rounding primitives and the hardware operation live in code that is not
    part of this model; they are parameters, so every property below holds whatever
    those primitives compute. */
module VprecRound {
  import opened Arith
  import opened FloatBits
  import opened Interflop

  /** `t_context`: the error-mode policy and the flush flags. */
  datatype Context = Context(relErr: bool, absErr: bool, absErrExp: int, daz: bool, ftz: bool)

  /** The primitives the rounding delegates to:
      roundNormal(f, a, p) is `round_binary*_normal(a, p)`,
      handleDenormal(f, a, emin, p) is `handle_binary*_denormal(a, emin, p)`,
      perform(f, op, a, b) is the hardware operation `a op b`. */
  datatype Primitives = Primitives(
    roundNormal: (Format, Fp, int) -> Fp,
    handleDenormal: (Format, Fp, int, int) -> Fp,
    perform: (Format, Op, Fp, Fp) -> Fp)

  /** `emax = (1 << (range - 1)) - 1`. */
  function Emax(range: nat): int
    requires range >= 1
  {
    Pow2(range - 1) - 1
  }

  /** `emin = 1 - emax`: the smallest exponent of the normal range. */
  function Emin(range: nat): int
    requires range >= 1
  {
    1 - Emax(range)
  }

  lemma {:induction false} RangeBounds(range: nat)
    requires range >= 1
    ensures Emax(range) >= 0 && Emin(range) <= 1 && Emin(range) + Emax(range) == 1
    ensures range >= 2 ==> Emax(range) >= 1 && Emin(range) <= 0
  {
    if range >= 2 {
      assert Pow2(range - 1) == 2 * Pow2(range - 2);
    }
  }

  /** With the full native range the target range is the native one: emax is the bias. */
  lemma NativeRange(f: Format)
    ensures Emax(ExpSize(f)) == Bias(f) && Emin(ExpSize(f)) == 1 - Bias(f)
  {
  }

  /** `compute_absErr_vprec_binary32/64`: the precision used in the absolute ("abs")
      and combined ("all", relErr also set) error modes. */
  function ComputeAbsErr(f: Format, isDenormal: bool, ctx: Context, expDiff: int, precision: int): (r: int)
    // denormal, "all": the signed threshold exponent when its magnitude is below the precision
    ensures isDenormal && ctx.relErr ==>
      (if -precision < ctx.absErrExp < precision then r == ctx.absErrExp else r == precision)
    // denormal, "abs": the threshold exponent itself
    ensures isDenormal && !ctx.relErr ==> r == ctx.absErrExp
    // normal, "all": the smaller of expDiff and the requested precision
    ensures !isDenormal && ctx.relErr ==> r <= expDiff && r <= precision && (r == expDiff || r == precision)
    // normal, "abs": the smaller of expDiff and the native significand width
    ensures !isDenormal && !ctx.relErr ==> r <= expDiff && r <= PmanSize(f) && (r == expDiff || r == PmanSize(f))
  {
    if isDenormal then
      if ctx.relErr then
        if Abs(ctx.absErrExp) < precision then ctx.absErrExp else precision
      else ctx.absErrExp
    else
      if ctx.relErr then
        if expDiff < precision then expDiff else precision
      else
        if expDiff < PmanSize(f) then expDiff else PmanSize(f)
  }

  function Abs(x: int): nat { if x < 0 then -x else x }

  /** The number of significand bits a normal value keeps under an absolute-error
      threshold expDiff binades below its exponent: every bit down to the threshold, but
      no more than the precision of the mode allows. */
  function KeptBits(f: Format, ctx: Context, expDiff: int, precision: int): int {
    var cap := if ctx.relErr then precision else PmanSize(f);
    if expDiff <= cap then expDiff else cap
  }

  /** `handle_binary32/64_normal_absErr`: rounding of a value in the normal range under an
      absolute-error threshold 2^absErrExp. */
  function HandleNormalAbsErr(f: Format, a: Fp, aexp: int, precision: int, ctx: Context, prims: Primitives): (r: Fp)
    // more than one binade below the threshold: +0, whatever the sign of a
    ensures aexp - ctx.absErrExp < -1 ==> r == Zero(false)
    // one binade below: the threshold power of two, carrying a's sign
    ensures aexp - ctx.absErrExp == -1 ==> r == SignedPow2(f, a.sign, ctx.absErrExp)
    // otherwise: rounded to the bits between the exponent and the threshold, at most
    // the requested precision ("all") or the native significand ("abs")
    ensures aexp - ctx.absErrExp >= 0 ==>
      r == prims.roundNormal(f, a, KeptBits(f, ctx, aexp - ctx.absErrExp, precision))
  {
    var expDiff := aexp - ctx.absErrExp;
    if expDiff < -1 then Zero(false)
    else if expDiff == -1 then SignedPow2(f, a.sign, ctx.absErrExp)
    else
      var p := ComputeAbsErr(f, false, ctx, expDiff, precision);
      prims.roundNormal(f, a, p)
  }

  /** Whether the underflow region flushes the value to a signed zero. */
  predicate Flushes(ctx: Context, isInput: bool) {
    (ctx.daz && isInput) || (ctx.ftz && !isInput)
  }

  /** The precision handed to `handle_binary*_denormal`. */
  function DenormalPrecision(f: Format, ctx: Context, precision: int): (r: int)
    ensures !ctx.absErr ==> r == precision
    ensures ctx.absErr ==> r == ComputeAbsErr(f, true, ctx, 0, precision)
  {
    if ctx.absErr then ComputeAbsErr(f, true, ctx, 0, precision) else precision
  }

  /** `_vprec_round_binary32/64(a, is_input, context, range, precision)`. */
  function RoundValue(f: Format, a: Fp, isInput: bool, ctx: Context, range: nat, precision: int, prims: Primitives): (r: Fp)
    requires range >= 1
    // special values pass through
    ensures !IsFinite(f, a) ==> r == a
    // overflow of the target range: infinity with a's sign
    ensures IsFinite(f, a) && Exponent(f, a) > Emax(range) ==> r == Infinity(f, a.sign)
    // underflow: the flush flags give a zero with a's sign, before anything else
    ensures IsFinite(f, a) && Exponent(f, a) < Emin(range) && Flushes(ctx, isInput) ==> r == Zero(a.sign)
    // underflow without flushing: an exact zero is kept, anything else is a target denormal
    ensures IsFinite(f, a) && Exponent(f, a) < Emin(range) && !Flushes(ctx, isInput) ==>
      r == (if IsZero(a) then a else prims.handleDenormal(f, a, Emin(range), DenormalPrecision(f, ctx, precision)))
    // normal range of the target: relative rounding, or the absolute-error rules
    ensures IsFinite(f, a) && Emin(range) <= Exponent(f, a) <= Emax(range) ==>
      r == (if ctx.absErr then HandleNormalAbsErr(f, a, Exponent(f, a), precision, ctx, prims)
            else prims.roundNormal(f, a, precision))
  {
    if !IsFinite(f, a) then a
    else
      var emax := Emax(range);
      var emin := 1 - emax;
      var aexp := Exponent(f, a);
      if aexp > emax then Infinity(f, a.sign)
      else if aexp < emin then
        if Flushes(ctx, isInput) then Zero(a.sign)
        else if IsZero(a) then a
        else prims.handleDenormal(f, a, emin, DenormalPrecision(f, ctx, precision))
      else if ctx.absErr then HandleNormalAbsErr(f, a, aexp, precision, ctx, prims)
      else prims.roundNormal(f, a, precision)
  }

  /** Every native subnormal and both zeros lie in the underflow region of any target
      range no wider than the native one. */
  lemma NativeSubnormalUnderflows(f: Format, a: Fp, range: nat)
    requires 1 <= range <= ExpSize(f) && a.biasedExp == 0
    ensures Exponent(f, a) < Emin(range)
  {
    Pow2Monotone(range - 1, ExpSize(f) - 1);
  }

  /** With the native range no finite value overflows: only an infinity becomes one by
      the range check. */
  lemma NativeRangeNeverOverflows(f: Format, a: Fp)
    requires IsFinite(f, a)
    ensures Exponent(f, a) <= Emax(ExpSize(f))
  {
    Pow2Add(1, ExpSize(f) - 1);
  }

  /** The overflow boundary: decoded exponent emax + 1 gives the signed infinity, while
      exponent emax is left to the precision rounding. */
  lemma OverflowBoundary(f: Format, a: Fp, isInput: bool, ctx: Context, range: nat, precision: int, prims: Primitives)
    requires 2 <= range && IsFinite(f, a)
    ensures Exponent(f, a) == Emax(range) + 1 ==> RoundValue(f, a, isInput, ctx, range, precision, prims) == Infinity(f, a.sign)
    ensures Exponent(f, a) == Emax(range) && !ctx.absErr ==>
      RoundValue(f, a, isInput, ctx, range, precision, prims) == prims.roundNormal(f, a, precision)
  {
    RangeBounds(range);
  }

  /** The primitives never change the sign of what they round. */
  ghost predicate SignPreserving(prims: Primitives) {
    && (forall f, a, p :: prims.roundNormal(f, a, p).sign == a.sign)
    && (forall f, a, e, p :: prims.handleDenormal(f, a, e, p).sign == a.sign)
  }

  /** Rounding keeps the sign of its argument, with one exception: under an absolute-error
      threshold a normal value more than one binade below it becomes +0. */
  lemma RoundValueSign(f: Format, a: Fp, isInput: bool, ctx: Context, range: nat, precision: int, prims: Primitives)
    requires range >= 1 && SignPreserving(prims)
    ensures var r := RoundValue(f, a, isInput, ctx, range, precision, prims);
      r.sign == a.sign ||
      (IsFinite(f, a) && Emin(range) <= Exponent(f, a) <= Emax(range) && ctx.absErr &&
       Exponent(f, a) - ctx.absErrExp < -1 && r == Zero(false))
  {
    var r := RoundValue(f, a, isInput, ctx, range, precision, prims);
    if IsFinite(f, a) && Emin(range) <= Exponent(f, a) <= Emax(range) {
      if ctx.absErr {
        var d := Exponent(f, a) - ctx.absErrExp;
        if d >= 0 {
          var p :| p <= d && r == prims.roundNormal(f, a, p);
        }
      }
    }
  }

  /** The range check is made on the operand, before rounding: when rounding at the
      reduced precision carries into the next binade, a value at emax leaves the target
      range as a finite number, and rounding that result again turns it into infinity. */
  lemma RangeCheckPrecedesRounding(f: Format, a: Fp, isInput: bool, ctx: Context, range: nat, precision: int, prims: Primitives)
    requires 2 <= range < ExpSize(f) && !ctx.absErr
    requires IsFinite(f, a) && Exponent(f, a) == Emax(range)
    requires prims.roundNormal(f, a, precision) == Fp(a.sign, a.biasedExp + 1, 0)
    ensures var r := RoundValue(f, a, isInput, ctx, range, precision, prims);
      IsFinite(f, r) && Exponent(f, r) == Emax(range) + 1 &&
      RoundValue(f, r, isInput, ctx, range, precision, prims) == Infinity(f, a.sign) != r
  {
    RangeBounds(range);
    Pow2Monotone(range - 1, ExpSize(f) - 2);
    Pow2Add(2, ExpSize(f) - 2);
    assert Pow2(ExpSize(f) - 1) == 2 * Pow2(ExpSize(f) - 2);
    assert Pow2(2) == 4;
  }

  /** The absolute-error boundary case: threshold 2^-20 and a value of exponent -21
      (one binade below) give exactly +-2^-20, neither zero nor a rounded value. */
  lemma AbsoluteErrorBoundary(f: Format, a: Fp, isInput: bool, ctx: Context, range: nat, precision: int, prims: Primitives)
    requires 6 <= range && ctx.absErr && ctx.absErrExp == -20
    requires IsFinite(f, a) && Exponent(f, a) == -21
    ensures var r := RoundValue(f, a, isInput, ctx, range, precision, prims);
      r.sign == a.sign && Exponent(f, r) == -20 && r.mantissa == 0
  {
    Pow2Monotone(5, range - 1);
    assert Pow2(5) == 32;
  }
}
