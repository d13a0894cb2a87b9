/** The VPREC dispatcher: which operands and results are rounded, with which precision
    and range, depending on the VPREC mode, the instrumentation mode and whether a
    profile map was loaded (`_vprec_binary32/64_binary_op`), and the rounding of function
    arguments at call boundaries (`_vprec_round_arg`, `_interflop_enter/exit_function`). */
module VprecDispatch {
  import opened Wrappers
  import opened FloatBits
  import opened Interflop
  import opened VprecRound

  /** `vprec_mode`: where rounding happens around an operation. */
  datatype Mode = Ieee | Full | Ib | Ob

  /** `vprec_inst_mode`: which instrumented sites are rounded when a profile is loaded. */
  datatype InstMode = InstArguments | InstOperations | InstAll | InstNone

  /** The backend's global settings at the time of a call. */
  datatype Settings = Settings(
    mode: Mode, instMode: InstMode,
    b32Precision: int, b32Range: int, b64Precision: int, b64Range: int)

  /** The bounds the setters enforce on the global precisions and ranges. */
  predicate ValidSettings(s: Settings) {
    && 1 <= s.b32Precision <= PmanSize(Binary32) && 2 <= s.b32Range <= ExpSize(Binary32)
    && 1 <= s.b64Precision <= PmanSize(Binary64) && 2 <= s.b64Range <= ExpSize(Binary64)
  }

  /** The fatal errors of the dispatcher. */
  datatype VprecError =
    | FopsNotFound(site: Option<string>)
    | FunctionNotFound(name: string)
    | ArgMetadataMissing(name: string, available: nat)

  /** A precision and a range to round with. */
  datatype Params = Params(precision: int, range: nat)

  /** A loaded profile record carries the precision and range of its operation, and every
      range in it is at least one (the shift `1 << (range - 1)` is undefined otherwise). */
  predicate SiteRangesPositive(info: InstructionInfo) {
    && (info.kind.FopsSite? ==>
          info.kind.fops.precision.Some? && info.kind.fops.range.Some? && info.kind.fops.range.value >= 1)
    && (forall a | a in info.inputArgs :: a.range >= 1)
    && (forall a | a in info.outputArgs :: a.range >= 1)
  }

  predicate RangesPositive(registry: Option<Registry>) {
    registry.Some? ==> forall id | id in registry.value :: SiteRangesPositive(registry.value[id])
  }

  /** The global precision and range of a format. */
  function GlobalParams(f: Format, s: Settings): (p: Params)
    requires ValidSettings(s)
    ensures p.range >= 2 && 1 <= p.precision <= PmanSize(f)
  {
    if f == Binary32 then Params(s.b32Precision, s.b32Range) else Params(s.b64Precision, s.b64Range)
  }

  predicate RoundsInputs(m: Mode) { m == Full || m == Ib }
  predicate RoundsOutputs(m: Mode) { m == Full || m == Ob }

  /** Whether a profile map makes the operation bypass rounding altogether. */
  predicate OperationsBypassed(s: Settings, registry: Option<Registry>) {
    registry.Some? && (s.instMode == InstNone || s.instMode == InstArguments)
  }

  /** The precision and range of an operation site: the profile record's when a map is
      loaded, the globals otherwise. */
  function OpParams(f: Format, id: Option<string>, s: Settings, registry: Option<Registry>): (r: Result<Params, VprecError>)
    requires ValidSettings(s) && RangesPositive(registry)
    ensures registry.None? ==> r == Success(GlobalParams(f, s))
    ensures registry.Some? ==>
      (r.Success? <==> id.Some? && id.value in registry.value && registry.value[id.value].kind.FopsSite?)
    ensures registry.Some? && r.Success? ==>
      var fops := registry.value[id.value].kind.fops;
      r.value == Params(fops.precision.value, fops.range.value)
    ensures r.Success? ==> r.value.range >= 1
    ensures r.Failure? ==> r.error == FopsNotFound(id)
  {
    if registry.None? then Success(GlobalParams(f, s))
    else if id.None? || id.value !in registry.value || !registry.value[id.value].kind.FopsSite? then
      Failure(FopsNotFound(id))
    else
      var fops := registry.value[id.value].kind.fops;
      assert SiteRangesPositive(registry.value[id.value]);
      Success(Params(fops.precision.value, fops.range.value))
  }

  /** Round the operands (ib, full), perform the operation, round the result (ob, full). */
  function RoundedOp(f: Format, a: Fp, b: Fp, op: Op, mode: Mode, ctx: Context, p: Params, prims: Primitives): Fp
    requires p.range >= 1
  {
    var a' := if RoundsInputs(mode) then RoundValue(f, a, true, ctx, p.range, p.precision, prims) else a;
    var b' := if RoundsInputs(mode) then RoundValue(f, b, true, ctx, p.range, p.precision, prims) else b;
    var res := prims.perform(f, op, a', b');
    if RoundsOutputs(mode) then RoundValue(f, res, false, ctx, p.range, p.precision, prims) else res
  }

  /** `_vprec_binary32/64_binary_op(a, b, op, id, context)`. */
  function BinaryOp(f: Format, a: Fp, b: Fp, op: Op, id: Option<string>, ctx: Context, s: Settings,
                    registry: Option<Registry>, prims: Primitives): (r: Result<Fp, VprecError>)
    requires ValidSettings(s) && RangesPositive(registry)
    // with a profile and the operations not instrumented: the plain hardware result
    ensures OperationsBypassed(s, registry) ==> r == Success(prims.perform(f, op, a, b))
    // otherwise the only failure is an operation missing from the profile, whatever the mode
    ensures !OperationsBypassed(s, registry) ==> (r.Failure? <==> OpParams(f, id, s, registry).Failure?)
    ensures r.Failure? ==> r.error == FopsNotFound(id)
    // ieee mode never rounds
    ensures r.Success? && s.mode == Ieee ==> r.value == prims.perform(f, op, a, b)
  {
    if OperationsBypassed(s, registry) then Success(prims.perform(f, op, a, b))
    else
      match OpParams(f, id, s, registry)
      case Failure(e) => Failure(e)
      case Success(p) => Success(RoundedOp(f, a, b, op, s.mode, ctx, p, prims))
  }

  /** Without a profile the instrumentation mode plays no part: operations are always
      rounded with the global settings. */
  lemma NoProfileIgnoresInstMode(f: Format, a: Fp, b: Fp, op: Op, id: Option<string>, ctx: Context,
                                 s: Settings, m: InstMode, prims: Primitives)
    requires ValidSettings(s)
    ensures BinaryOp(f, a, b, op, id, ctx, s, None, prims) == BinaryOp(f, a, b, op, id, ctx, s.(instMode := m), None, prims)
    ensures BinaryOp(f, a, b, op, id, ctx, s, None, prims) ==
      Success(RoundedOp(f, a, b, op, s.mode, ctx, GlobalParams(f, s), prims))
  {
  }

  /** ob rounds only the result, ib only the operands, and full is ob after ib: the
      result of a full-mode operation is the ib-mode result rounded as an output. */
  lemma ModeComposition(f: Format, a: Fp, b: Fp, op: Op, ctx: Context, p: Params, prims: Primitives)
    requires p.range >= 1
    ensures RoundedOp(f, a, b, op, Ob, ctx, p, prims) ==
      RoundValue(f, prims.perform(f, op, a, b), false, ctx, p.range, p.precision, prims)
    ensures RoundedOp(f, a, b, op, Ib, ctx, p, prims) ==
      prims.perform(f, op, RoundValue(f, a, true, ctx, p.range, p.precision, prims),
                           RoundValue(f, b, true, ctx, p.range, p.precision, prims))
    ensures RoundedOp(f, a, b, op, Full, ctx, p, prims) ==
      RoundValue(f, RoundedOp(f, a, b, op, Ib, ctx, p, prims), false, ctx, p.range, p.precision, prims)
    ensures RoundedOp(f, a, b, op, Ieee, ctx, p, prims) == prims.perform(f, op, a, b)
  {
  }

  /** With a profile and instrumented operations, a site missing from the profile is
      fatal even in ieee mode, where nothing would be rounded. */
  lemma MissingSiteFatalInEveryMode(f: Format, a: Fp, b: Fp, op: Op, id: string, ctx: Context,
                                    s: Settings, reg: Registry, prims: Primitives)
    requires ValidSettings(s) && RangesPositive(Some(reg))
    requires s.instMode == InstOperations || s.instMode == InstAll
    requires id !in reg
    ensures BinaryOp(f, a, b, op, Some(id), ctx, s, Some(reg), prims) == Failure(FopsNotFound(Some(id)))
  {
  }

  /** A profiled operation is rounded with its own record's precision and range, not the
      global ones. */
  lemma ProfiledSiteUsesRecord(f: Format, a: Fp, b: Fp, op: Op, id: string, ctx: Context,
                               s: Settings, reg: Registry, prims: Primitives)
    requires ValidSettings(s) && RangesPositive(Some(reg))
    requires s.instMode == InstOperations || s.instMode == InstAll
    requires id in reg && reg[id].kind.FopsSite?
    ensures reg[id].kind.fops.precision.Some? && reg[id].kind.fops.range.Some?
    ensures BinaryOp(f, a, b, op, Some(id), ctx, s, Some(reg), prims) ==
      Success(RoundedOp(f, a, b, op, s.mode, ctx, Params(reg[id].kind.fops.precision.value, reg[id].kind.fops.range.value), prims))
  {
    assert SiteRangesPositive(reg[id]);
  }

  // ---------------------------------------------------------------------------
  // Function arguments

  /** The format of an argument type. */
  function FormatOf(t: FType): Format {
    if t == FDouble || t == FDoublePtr then Binary64 else Binary32
  }

  predicate IsScalar(t: FType) { t == FFloat || t == FDouble }

  /** One variadic argument: its type, its declared element count and the memory it
      points to (scalars are passed by address, so `data` has at least one element). */
  datatype ArgSlot = ArgSlot(argType: FType, argSize: nat, data: array?<Fp>)

  predicate SlotOk(slot: ArgSlot) {
    if IsScalar(slot.argType) then slot.data != null && slot.data.Length >= 1
    else slot.data != null ==> slot.argSize <= slot.data.Length
  }

  /** How many elements of a slot are rounded: one for a scalar, `argSize` behind a
      non-null pointer, none behind a null one. */
  function RoundedCount(slot: ArgSlot): (n: nat)
    requires SlotOk(slot)
    ensures slot.data != null ==> n <= slot.data.Length
    ensures slot.data == null ==> n == 0
  {
    if slot.data == null then 0 else if IsScalar(slot.argType) then 1 else slot.argSize
  }

  /** Every value rounded, element by element. */
  function RoundAll(f: Format, values: seq<Fp>, isInput: bool, ctx: Context, p: Params, prims: Primitives): (r: seq<Fp>)
    requires p.range >= 1
    ensures |r| == |values|
    ensures forall i :: 0 <= i < |values| ==> r[i] == RoundValue(f, values[i], isInput, ctx, p.range, p.precision, prims)
  {
    seq(|values|, i requires 0 <= i < |values| => RoundValue(f, values[i], isInput, ctx, p.range, p.precision, prims))
  }

  /** The contents of a slot after `_vprec_round_arg`: the first n values rounded, the rest untouched. */
  function RoundedSlot(t: FType, n: nat, values: seq<Fp>, isInput: bool, ctx: Context, p: Params, prims: Primitives): (r: seq<Fp>)
    requires p.range >= 1 && n <= |values|
    ensures |r| == |values| && r[n..] == values[n..]
  {
    RoundAll(FormatOf(t), values[..n], isInput, ctx, p, prims) + values[n..]
  }

  /** `_vprec_round_arg(ap, isInput, argType, argSize, precision, range, context)`. */
  method RoundArg(slot: ArgSlot, isInput: bool, ctx: Context, p: Params, prims: Primitives)
    requires SlotOk(slot) && p.range >= 1
    modifies slot.data
    ensures slot.data != null ==>
      slot.data[..] == RoundedSlot(slot.argType, RoundedCount(slot), old(slot.data[..]), isInput, ctx, p, prims)
  {
    if slot.data == null {
      return;
    }
    var f := FormatOf(slot.argType);
    var a := slot.data;
    if IsScalar(slot.argType) {
      a[0] := RoundValue(f, a[0], isInput, ctx, p.range, p.precision, prims);
      assert a[..] == RoundedSlot(slot.argType, 1, old(a[..]), isInput, ctx, p, prims);
    } else {
      var j := 0;
      while j < slot.argSize
        invariant 0 <= j <= slot.argSize <= a.Length
        invariant a[..j] == RoundAll(f, old(a[..j]), isInput, ctx, p, prims)
        invariant a[j..] == old(a[j..])
      {
        a[j] := RoundValue(f, a[j], isInput, ctx, p.range, p.precision, prims);
        j := j + 1;
      }
      assert a[..] == a[..j] + a[j..];
      assert old(a[..]) == old(a[..j]) + old(a[j..]);
    }
  }

  /** Whether the enter hook (inputs) or the exit hook (outputs) rounds anything. */
  predicate HookActive(s: Settings, isInput: bool) {
    (if isInput then RoundsInputs(s.mode) else RoundsOutputs(s.mode))
      && (s.instMode == InstAll || s.instMode == InstArguments)
  }

  /** The per-argument records of a call site, or the fatal error: a missing record, a
      record that is not a call, or fewer argument records than arguments passed. */
  function CallArgInfos(id: string, isInput: bool, nbArgs: nat, reg: Registry): (r: Result<seq<ArgInfo>, VprecError>)
    ensures r.Success? <==>
      id in reg && reg[id].kind.CallSite? &&
      nbArgs <= |if isInput then reg[id].inputArgs else reg[id].outputArgs|
    ensures r.Success? ==> r.value == if isInput then reg[id].inputArgs else reg[id].outputArgs
    ensures r.Failure? && (id !in reg || !reg[id].kind.CallSite?) ==> r.error == FunctionNotFound(id)
  {
    if id !in reg || !reg[id].kind.CallSite? then Failure(FunctionNotFound(id))
    else
      var infos := if isInput then reg[id].inputArgs else reg[id].outputArgs;
      if |infos| < nbArgs then Failure(ArgMetadataMissing(id, |infos|)) else Success(infos)
  }

  /** The parameters for argument i: its profile record's, or the globals of its format. */
  function ArgParams(t: FType, i: nat, s: Settings, infos: Option<seq<ArgInfo>>): (p: Params)
    requires ValidSettings(s)
    requires infos.Some? ==> i < |infos.value| && infos.value[i].range >= 1
    ensures p.range >= 1
    ensures infos.None? ==> p == GlobalParams(FormatOf(t), s)
    ensures infos.Some? ==> p == Params(infos.value[i].precision, infos.value[i].range)
  {
    if infos.Some? then Params(infos.value[i].precision, infos.value[i].range)
    else GlobalParams(FormatOf(t), s)
  }

  /** Distinct arguments point to distinct memory. */
  predicate Disjoint(args: seq<ArgSlot>) {
    forall i, j :: 0 <= i < j < |args| && args[i].data != null && args[j].data != null ==> args[i].data != args[j].data
  }

  lemma DisjointOthers(args: seq<ArgSlot>, i: nat)
    requires i < |args| && Disjoint(args)
    ensures args[i].data != null ==>
      forall k :: 0 <= k < |args| && k != i && args[k].data != null ==> args[k].data != args[i].data
  {
  }

  function Footprint(args: seq<ArgSlot>): set<array<Fp>> {
    set i | 0 <= i < |args| && args[i].data != null :: args[i].data
  }

  /** The lookup that precedes any rounding: no profile, or the argument records of the site. */
  function ArgInfosFor(id: string, isInput: bool, nbArgs: nat, registry: Option<Registry>): (r: Result<Option<seq<ArgInfo>>, VprecError>)
    ensures registry.None? ==> r == Success(None)
    ensures registry.Some? ==> match CallArgInfos(id, isInput, nbArgs, registry.value)
      case Success(infos) => r == Success(Some(infos))
      case Failure(e) => r == Failure(e)
  {
    if registry.None? then Success(None)
    else match CallArgInfos(id, isInput, nbArgs, registry.value)
      case Success(infos) => Success(Some(infos))
      case Failure(e) => Failure(e)
  }

  /** The parameters each argument is rounded with. */
  function HookParams(args: seq<ArgSlot>, s: Settings, infos: Option<seq<ArgInfo>>, i: nat): Params
    requires ValidSettings(s) && i < |args|
    requires infos.Some? ==> |args| <= |infos.value| && forall a | a in infos.value :: a.range >= 1
  {
    ArgParams(args[i].argType, i, s, infos)
  }

  /** The body shared by `_interflop_enter_function` (isInput) and
      `_interflop_exit_function` (!isInput). */
  method FunctionHook(id: string, isInput: bool, ctx: Context, s: Settings, registry: Option<Registry>,
                      args: seq<ArgSlot>, prims: Primitives) returns (outcome: Outcome<VprecError>)
    requires ValidSettings(s) && RangesPositive(registry)
    requires forall i :: 0 <= i < |args| ==> SlotOk(args[i])
    requires Disjoint(args)
    modifies Footprint(args)
    // an inactive hook and a failed lookup change nothing
    ensures !HookActive(s, isInput) ==> outcome == Pass && unchanged(Footprint(args))
    ensures HookActive(s, isInput) && ArgInfosFor(id, isInput, |args|, registry).Failure? ==>
      outcome == Fail(ArgInfosFor(id, isInput, |args|, registry).error) && unchanged(Footprint(args))
    // otherwise every argument is rounded with its own parameters
    ensures HookActive(s, isInput) && ArgInfosFor(id, isInput, |args|, registry).Success? ==>
      outcome == Pass &&
      var infos := ArgInfosFor(id, isInput, |args|, registry).value;
      (infos.Some? ==> forall a | a in infos.value :: a.range >= 1) &&
      forall i :: 0 <= i < |args| && args[i].data != null ==>
        args[i].data[..] == RoundedSlot(args[i].argType, RoundedCount(args[i]), old(args[i].data[..]),
                                        isInput, ctx, HookParams(args, s, infos, i), prims)
  {
    if !HookActive(s, isInput) {
      return Pass;
    }
    var lookup := ArgInfosFor(id, isInput, |args|, registry);
    if lookup.Failure? {
      return Fail(lookup.error);
    }
    var infos := lookup.value;
    if infos.Some? {
      assert SiteRangesPositive(registry.value[id]);
    }
    var i := 0;
    while i < |args|
      invariant 0 <= i <= |args|
      invariant forall k :: 0 <= k < i && args[k].data != null ==>
        args[k].data[..] == RoundedSlot(args[k].argType, RoundedCount(args[k]), old(args[k].data[..]),
                                        isInput, ctx, HookParams(args, s, infos, k), prims)
      invariant forall k :: i <= k < |args| && args[k].data != null ==> args[k].data[..] == old(args[k].data[..])
    {
      DisjointOthers(args, i);
      RoundArg(args[i], isInput, ctx, HookParams(args, s, infos, i), prims);
      i := i + 1;
    }
    return Pass;
  }

  /** `_interflop_enter_function`: rounds the inputs in full and ib modes. */
  method EnterFunction(id: string, ctx: Context, s: Settings, registry: Option<Registry>,
                       args: seq<ArgSlot>, prims: Primitives) returns (outcome: Outcome<VprecError>)
    requires ValidSettings(s) && RangesPositive(registry)
    requires forall i :: 0 <= i < |args| ==> SlotOk(args[i])
    requires Disjoint(args)
    modifies Footprint(args)
    ensures (s.mode == Ieee || s.mode == Ob || s.instMode == InstNone || s.instMode == InstOperations) ==>
      outcome == Pass && unchanged(Footprint(args))
    ensures HookActive(s, true) && ArgInfosFor(id, true, |args|, registry).Failure? ==>
      outcome.Fail? && unchanged(Footprint(args))
    ensures HookActive(s, true) && ArgInfosFor(id, true, |args|, registry).Success? ==>
      outcome == Pass &&
      var infos := ArgInfosFor(id, true, |args|, registry).value;
      (infos.Some? ==> forall a | a in infos.value :: a.range >= 1) &&
      forall i :: 0 <= i < |args| && args[i].data != null ==>
        args[i].data[..] == RoundedSlot(args[i].argType, RoundedCount(args[i]), old(args[i].data[..]),
                                        true, ctx, HookParams(args, s, infos, i), prims)
  {
    outcome := FunctionHook(id, true, ctx, s, registry, args, prims);
  }

  /** `_interflop_exit_function`: rounds the outputs in full and ob modes. */
  method ExitFunction(id: string, ctx: Context, s: Settings, registry: Option<Registry>,
                      args: seq<ArgSlot>, prims: Primitives) returns (outcome: Outcome<VprecError>)
    requires ValidSettings(s) && RangesPositive(registry)
    requires forall i :: 0 <= i < |args| ==> SlotOk(args[i])
    requires Disjoint(args)
    modifies Footprint(args)
    ensures (s.mode == Ieee || s.mode == Ib || s.instMode == InstNone || s.instMode == InstOperations) ==>
      outcome == Pass && unchanged(Footprint(args))
    ensures HookActive(s, false) && ArgInfosFor(id, false, |args|, registry).Failure? ==>
      outcome.Fail? && unchanged(Footprint(args))
    ensures HookActive(s, false) && ArgInfosFor(id, false, |args|, registry).Success? ==>
      outcome == Pass &&
      var infos := ArgInfosFor(id, false, |args|, registry).value;
      (infos.Some? ==> forall a | a in infos.value :: a.range >= 1) &&
      forall i :: 0 <= i < |args| && args[i].data != null ==>
        args[i].data[..] == RoundedSlot(args[i].argType, RoundedCount(args[i]), old(args[i].data[..]),
                                        false, ctx, HookParams(args, s, infos, i), prims)
  {
    outcome := FunctionHook(id, false, ctx, s, registry, args, prims);
  }
}
