/** The instrumentation pass `vfclibinst` (src/libvfcinstrument/libVFCInstrument.cpp):
    which functions of a module it rewrites, and how it turns every floating-point
    `+ - * /` into a call to the arithmetic wrapper of the matching type and width.
    The IR is reduced to what the pass reads: each instruction's opcode and the type
    of its first operand. A module owns its functions, and a function owns its blocks. */
module Instrument {
  import opened Wrappers
  import opened Interflop
  import P = Profile

  // ---------------------------------------------------------------------------
  // Operations and hook names

  /** The pass's own `Fops`, which has no comparison. */
  datatype Fop = AddOp | SubOp | MulOp | DivOp | IgnoreOp

  /** `Fops2str`. */
  function OpName(f: Fop): string {
    match f
    case AddOp => "add"
    case SubOp => "sub"
    case MulOp => "mul"
    case DivOp => "div"
    case IgnoreOp => "ignore"
  }

  /** `mustReplace`: the four arithmetic opcodes, classified as the profiling pass
      classifies them; a comparison, a call and everything else are left alone. */
  function MustReplace(op: P.Opcode): (f: Fop)
    ensures f == AddOp <==> P.GetFops(op) == FopAdd
    ensures f == SubOp <==> P.GetFops(op) == FopSub
    ensures f == MulOp <==> P.GetFops(op) == FopMul
    ensures f == DivOp <==> P.GetFops(op) == FopDiv
    ensures f == IgnoreOp <==> !(op.FAdd? || op.FSub? || op.FMul? || op.FDiv?)
  {
    match op
    case FAdd => AddOp
    case FSub => SubOp
    case FMul => MulOp
    case FDiv => DivOp
    case _ => IgnoreOp
  }

  /** Why the pass stops: the function file cannot be opened, or an operation has a
      type no wrapper exists for (the assertions of `replaceWithMCACall`). */
  datatype InstrumentError =
    | CannotOpen(fileName: string)
    | UnsupportedVectorSize(size: nat)
    | UnsupportedOperandType(ty: P.LType)

  /** A scalar float or double, or a vector of two or four of them. */
  predicate SupportedOperand(t: P.LType) {
    var base := if t.VectorOf? then t.elem else t;
    && (t.VectorOf? ==> t.width == 2 || t.width == 4)
    && (base == P.FloatTy || base == P.DoubleTy)
  }

  /** The hook of `replaceWithMCACall`: "_", then "2x" or "4x" for a vector, then the
      element type, then the operation. The vector width is checked first. */
  function HookName(opType: P.LType, f: Fop): (r: Result<string, InstrumentError>)
    requires f != IgnoreOp
    ensures r.Success? <==> SupportedOperand(opType)
    ensures opType.VectorOf? && opType.width != 2 && opType.width != 4 ==>
      r == Failure(UnsupportedVectorSize(opType.width))
    ensures r.Failure? && !(opType.VectorOf? && opType.width != 2 && opType.width != 4) ==>
      r == Failure(UnsupportedOperandType(opType))
  {
    var vectorName: Option<string> :=
      if !opType.VectorOf? then Some("")
      else if opType.width == 2 then Some("2x")
      else if opType.width == 4 then Some("4x")
      else None;
    if vectorName.None? then Failure(UnsupportedVectorSize(opType.width))
    else
      var baseType := if opType.VectorOf? then opType.elem else opType;
      if baseType == P.DoubleTy then Success("_" + vectorName.value + "double" + OpName(f))
      else if baseType == P.FloatTy then Success("_" + vectorName.value + "float" + OpName(f))
      else Failure(UnsupportedOperandType(opType))
  }

  /** The arithmetic wrappers of the runtime (src/vfcwrapper/vfcwrapper.c), scalar and
      vector; the comparison wrappers are not targets of this pass. */
  const WrapperNames: set<string> := {
    "_floatadd", "_floatsub", "_floatmul", "_floatdiv",
    "_doubleadd", "_doublesub", "_doublemul", "_doublediv",
    "_2xdoubleadd", "_2xdoublesub", "_2xdoublemul", "_2xdoublediv",
    "_4xdoubleadd", "_4xdoublesub", "_4xdoublemul", "_4xdoublediv",
    "_2xfloatadd", "_2xfloatsub", "_2xfloatmul", "_2xfloatdiv",
    "_4xfloatadd", "_4xfloatsub", "_4xfloatmul", "_4xfloatdiv"
  }

  /** What a hook name is made of: its length tells the element type and whether it is
      a vector, its second character the width of a vector, and its third character
      from the end the operation. */
  lemma HookNameShape(t: P.LType, f: Fop)
    requires f != IgnoreOp && HookName(t, f).Success?
    ensures var n := HookName(t, f).value;
      var base := if t.VectorOf? then t.elem else t;
      && |n| == (if t.VectorOf? then 3 else 1) + (if base == P.DoubleTy then 6 else 5) + 3
      && (t.VectorOf? ==> n[1] == (if t.width == 2 then '2' else '4'))
      && n[|n| - 3] == OpName(f)[0]
  {
    var n := HookName(t, f).value;
    var v := if !t.VectorOf? then "" else if t.width == 2 then "2x" else "4x";
    var base := if t.VectorOf? then t.elem else t;
    var b := if base == P.DoubleTy then "double" else "float";
    assert n == ("_" + v) + (b + OpName(f));
    assert |OpName(f)| == 3;
    assert n[|n| - 3] == (b + OpName(f))[|b|];
  }

  /** No two operations share a hook: the name of the wrapper the pass calls tells the
      operand type and the operation back. */
  lemma HookNamesDistinct(t1: P.LType, f1: Fop, t2: P.LType, f2: Fop)
    requires f1 != IgnoreOp && HookName(t1, f1).Success?
    requires f2 != IgnoreOp && HookName(t2, f2).Success?
    requires HookName(t1, f1).value == HookName(t2, f2).value
    ensures t1 == t2 && f1 == f2
  {
    HookNameShape(t1, f1);
    HookNameShape(t2, f2);
  }

  /** The hooks of the scalar operations, of the two-lane and of the four-lane vectors. */
  lemma ScalarFloatHooks()
    ensures HookName(P.FloatTy, AddOp) == Success("_floatadd")
    ensures HookName(P.FloatTy, SubOp) == Success("_floatsub")
    ensures HookName(P.FloatTy, MulOp) == Success("_floatmul")
    ensures HookName(P.FloatTy, DivOp) == Success("_floatdiv")
  {
    assert HookName(P.FloatTy, AddOp).value == "_" + "" + "float" + "add" == "_floatadd";
    assert HookName(P.FloatTy, SubOp).value == "_" + "" + "float" + "sub" == "_floatsub";
    assert HookName(P.FloatTy, MulOp).value == "_" + "" + "float" + "mul" == "_floatmul";
    assert HookName(P.FloatTy, DivOp).value == "_" + "" + "float" + "div" == "_floatdiv";
  }

  lemma ScalarDoubleHooks()
    ensures HookName(P.DoubleTy, AddOp) == Success("_doubleadd")
    ensures HookName(P.DoubleTy, SubOp) == Success("_doublesub")
    ensures HookName(P.DoubleTy, MulOp) == Success("_doublemul")
    ensures HookName(P.DoubleTy, DivOp) == Success("_doublediv")
  {
    assert HookName(P.DoubleTy, AddOp).value == "_" + "" + "double" + "add" == "_doubleadd";
    assert HookName(P.DoubleTy, SubOp).value == "_" + "" + "double" + "sub" == "_doublesub";
    assert HookName(P.DoubleTy, MulOp).value == "_" + "" + "double" + "mul" == "_doublemul";
    assert HookName(P.DoubleTy, DivOp).value == "_" + "" + "double" + "div" == "_doublediv";
  }

  lemma TwoLaneFloatHooks()
    ensures HookName(P.VectorOf(P.FloatTy, 2), AddOp) == Success("_2xfloatadd")
    ensures HookName(P.VectorOf(P.FloatTy, 2), SubOp) == Success("_2xfloatsub")
    ensures HookName(P.VectorOf(P.FloatTy, 2), MulOp) == Success("_2xfloatmul")
    ensures HookName(P.VectorOf(P.FloatTy, 2), DivOp) == Success("_2xfloatdiv")
  {
    assert HookName(P.VectorOf(P.FloatTy, 2), AddOp).value == "_" + "2x" + "float" + "add" == "_2xfloatadd";
    assert HookName(P.VectorOf(P.FloatTy, 2), SubOp).value == "_" + "2x" + "float" + "sub" == "_2xfloatsub";
    assert HookName(P.VectorOf(P.FloatTy, 2), MulOp).value == "_" + "2x" + "float" + "mul" == "_2xfloatmul";
    assert HookName(P.VectorOf(P.FloatTy, 2), DivOp).value == "_" + "2x" + "float" + "div" == "_2xfloatdiv";
  }

  lemma TwoLaneDoubleHooks()
    ensures HookName(P.VectorOf(P.DoubleTy, 2), AddOp) == Success("_2xdoubleadd")
    ensures HookName(P.VectorOf(P.DoubleTy, 2), SubOp) == Success("_2xdoublesub")
    ensures HookName(P.VectorOf(P.DoubleTy, 2), MulOp) == Success("_2xdoublemul")
    ensures HookName(P.VectorOf(P.DoubleTy, 2), DivOp) == Success("_2xdoublediv")
  {
    assert HookName(P.VectorOf(P.DoubleTy, 2), AddOp).value == "_" + "2x" + "double" + "add" == "_2xdoubleadd";
    assert HookName(P.VectorOf(P.DoubleTy, 2), SubOp).value == "_" + "2x" + "double" + "sub" == "_2xdoublesub";
    assert HookName(P.VectorOf(P.DoubleTy, 2), MulOp).value == "_" + "2x" + "double" + "mul" == "_2xdoublemul";
    assert HookName(P.VectorOf(P.DoubleTy, 2), DivOp).value == "_" + "2x" + "double" + "div" == "_2xdoublediv";
  }

  lemma FourLaneFloatHooks()
    ensures HookName(P.VectorOf(P.FloatTy, 4), AddOp) == Success("_4xfloatadd")
    ensures HookName(P.VectorOf(P.FloatTy, 4), SubOp) == Success("_4xfloatsub")
    ensures HookName(P.VectorOf(P.FloatTy, 4), MulOp) == Success("_4xfloatmul")
    ensures HookName(P.VectorOf(P.FloatTy, 4), DivOp) == Success("_4xfloatdiv")
  {
    assert HookName(P.VectorOf(P.FloatTy, 4), AddOp).value == "_" + "4x" + "float" + "add" == "_4xfloatadd";
    assert HookName(P.VectorOf(P.FloatTy, 4), SubOp).value == "_" + "4x" + "float" + "sub" == "_4xfloatsub";
    assert HookName(P.VectorOf(P.FloatTy, 4), MulOp).value == "_" + "4x" + "float" + "mul" == "_4xfloatmul";
    assert HookName(P.VectorOf(P.FloatTy, 4), DivOp).value == "_" + "4x" + "float" + "div" == "_4xfloatdiv";
  }

  lemma FourLaneDoubleHooks()
    ensures HookName(P.VectorOf(P.DoubleTy, 4), AddOp) == Success("_4xdoubleadd")
    ensures HookName(P.VectorOf(P.DoubleTy, 4), SubOp) == Success("_4xdoublesub")
    ensures HookName(P.VectorOf(P.DoubleTy, 4), MulOp) == Success("_4xdoublemul")
    ensures HookName(P.VectorOf(P.DoubleTy, 4), DivOp) == Success("_4xdoublediv")
  {
    assert HookName(P.VectorOf(P.DoubleTy, 4), AddOp).value == "_" + "4x" + "double" + "add" == "_4xdoubleadd";
    assert HookName(P.VectorOf(P.DoubleTy, 4), SubOp).value == "_" + "4x" + "double" + "sub" == "_4xdoublesub";
    assert HookName(P.VectorOf(P.DoubleTy, 4), MulOp).value == "_" + "4x" + "double" + "mul" == "_4xdoublemul";
    assert HookName(P.VectorOf(P.DoubleTy, 4), DivOp).value == "_" + "4x" + "double" + "div" == "_4xdoublediv";
  }

  /** The pass calls only wrappers the runtime defines... */
  lemma HooksAreWrappers(t: P.LType, f: Fop)
    requires f != IgnoreOp && HookName(t, f).Success?
    ensures HookName(t, f).value in WrapperNames
  {
    ScalarFloatHooks();
    ScalarDoubleHooks();
    TwoLaneFloatHooks();
    TwoLaneDoubleHooks();
    FourLaneFloatHooks();
    FourLaneDoubleHooks();
    if t.VectorOf? {
      assert t == P.VectorOf(t.elem, t.width);
    }
  }

  /** ... and every arithmetic wrapper of the runtime is the hook of some operation. */
  lemma WrappersAreHooks(n: string)
    requires n in WrapperNames
    ensures exists t, f :: f != IgnoreOp && HookName(t, f) == Success(n)
  {
    ScalarFloatHooks();
    ScalarDoubleHooks();
    TwoLaneFloatHooks();
    TwoLaneDoubleHooks();
    FourLaneFloatHooks();
    FourLaneDoubleHooks();
  }

  // ---------------------------------------------------------------------------
  // Selecting functions

  /** `SelectedFunctionSet`: the lines of the function file when one is named (every
      line, as `getline` reads it), otherwise the function of `--vfclibinst-function`
      when one is named, otherwise nothing. */
  function SelectionSet(functionFile: string, file: Option<seq<string>>, single: string): set<string>
    requires functionFile != [] ==> file.Some?
  {
    if functionFile != [] then set l | l in file.value
    else if single != [] then {single}
    else {}
  }

  /** The test of `runOnModule`: every function when the set is empty, otherwise the
      functions whose membership differs from the black-list flag. */
  predicate Chosen(selected: set<string>, blackList: bool, name: string) {
    selected == {} || blackList != (name in selected)
  }

  /** The set is a white list without `--vfclibblack-list` and a black list with it. */
  lemma SelectionModes(selected: set<string>, name: string)
    ensures selected == {} ==> Chosen(selected, false, name) && Chosen(selected, true, name)
    ensures selected != {} ==> (Chosen(selected, false, name) <==> name in selected)
    ensures selected != {} ==> (Chosen(selected, true, name) <==> name !in selected)
  {
  }

  /** With `--vfclibinst-function f` and no file, only f is instrumented, or f alone is
      skipped in black-list mode. */
  lemma FunctionOption(single: string, blackList: bool, name: string)
    requires single != []
    ensures Chosen(SelectionSet([], None, single), blackList, name) <==> (blackList != (name == single))
  {
  }

  /** A function file wins over the single-function option. */
  lemma FunctionFileWins(functionFile: string, lines: seq<string>, single: string, name: string)
    requires functionFile != []
    ensures name in SelectionSet(functionFile, Some(lines), single) <==> exists j :: 0 <= j < |lines| && lines[j] == name
  {
  }

  // ---------------------------------------------------------------------------
  // Rewriting instructions

  /** An instruction as the pass sees it: its opcode and the type of its first operand.
      A call the pass has inserted names its hook. */
  datatype Inst =
    | Plain(opcode: P.Opcode, operandType: P.LType)
    | HookCall(hook: string, operandType: P.LType)

  function OpcodeOf(i: Inst): P.Opcode {
    if i.HookCall? then P.Call else i.opcode
  }

  type Block = seq<Inst>

  datatype Function = Function(name: string, blocks: seq<Block>)

  /** The call is one to the wrapper of operation f on operands of type t. */
  predicate CallsHook(c: Inst, t: P.LType, f: Fop)
    requires f != IgnoreOp
  {
    c.HookCall? && c.operandType == t && HookName(t, f) == Success(c.hook)
  }

  /** `replaceWithMCACall`: a call to the hook of the operation, on the same operands. */
  function ReplaceWithMcaCall(i: Inst, f: Fop): (r: Result<Inst, InstrumentError>)
    requires f != IgnoreOp
    ensures r.Success? <==> SupportedOperand(i.operandType)
    ensures r.Success? ==> CallsHook(r.value, i.operandType, f)
  {
    match HookName(i.operandType, f)
    case Failure(e) => Failure(e)
    case Success(n) => Success(HookCall(n, i.operandType))
  }

  /** What `runOnBasicBlock` makes of one instruction: the call to its hook when
      `mustReplace` selects it, the instruction itself otherwise. */
  function Rewrite(i: Inst): (r: Result<Inst, InstrumentError>)
    ensures MustReplace(OpcodeOf(i)) == IgnoreOp ==> r == Success(i)
    ensures MustReplace(OpcodeOf(i)) != IgnoreOp ==>
      && (r.Success? <==> SupportedOperand(i.operandType))
      && (r.Success? ==> CallsHook(r.value, i.operandType, MustReplace(OpcodeOf(i))))
  {
    var f := MustReplace(OpcodeOf(i));
    if f == IgnoreOp then Success(i) else ReplaceWithMcaCall(i, f)
  }

  /** The block rewritten instruction by instruction; the first unsupported operation
      stops the pass. */
  function RewriteBlock(s: Block): (r: Result<Block, InstrumentError>)
    ensures r.Success? ==> |r.value| == |s|
  {
    if s == [] then Success([])
    else match RewriteBlock(s[..|s| - 1])
      case Failure(e) => Failure(e)
      case Success(prev) =>
        match Rewrite(s[|s| - 1])
        case Failure(e) => Failure(e)
        case Success(x) => Success(prev + [x])
  }

  /** Some instruction of the block is one `mustReplace` selects. */
  predicate Replaces(s: Block) {
    exists j :: 0 <= j < |s| && MustReplace(OpcodeOf(s[j])) != IgnoreOp
  }

  /** A block is rewritten when each of its instructions is, and then each instruction
      becomes its own rewrite, in place. */
  lemma {:induction false} RewriteBlockPointwise(s: Block)
    ensures RewriteBlock(s).Success? <==> forall j :: 0 <= j < |s| ==> Rewrite(s[j]).Success?
    ensures RewriteBlock(s).Success? ==> forall j :: 0 <= j < |s| ==> RewriteBlock(s).value[j] == Rewrite(s[j]).value
  {
    if s != [] {
      var init := s[..|s| - 1];
      RewriteBlockPointwise(init);
      assert forall j :: 0 <= j < |init| ==> init[j] == s[j];
    }
  }

  /** A block that cannot be rewritten fails on its first unsupported operation. */
  lemma {:induction false} RewriteBlockFirstError(s: Block)
    requires RewriteBlock(s).Failure?
    ensures exists j ::
      && 0 <= j < |s| && Rewrite(s[j]).Failure?
      && RewriteBlock(s).error == Rewrite(s[j]).error
      && forall k :: 0 <= k < j ==> Rewrite(s[k]).Success?
  {
    var init := s[..|s| - 1];
    if RewriteBlock(init).Failure? {
      RewriteBlockFirstError(init);
      var j :| 0 <= j < |init| && Rewrite(init[j]).Failure? && RewriteBlock(init).error == Rewrite(init[j]).error
        && forall k :: 0 <= k < j ==> Rewrite(init[k]).Success?;
      assert init[j] == s[j];
      assert forall k :: 0 <= k < j ==> init[k] == s[k];
    } else {
      RewriteBlockPointwise(init);
      assert forall k :: 0 <= k < |init| ==> init[k] == s[k];
    }
  }

  /** After the rewrite no instruction of the block is left for `mustReplace`, every
      selected instruction calls the hook of its type and operation, and every other
      instruction is kept. */
  lemma RewrittenBlock(s: Block)
    requires RewriteBlock(s).Success?
    ensures forall j :: 0 <= j < |s| ==> MustReplace(OpcodeOf(RewriteBlock(s).value[j])) == IgnoreOp
    ensures forall j :: 0 <= j < |s| && MustReplace(OpcodeOf(s[j])) != IgnoreOp ==>
      CallsHook(RewriteBlock(s).value[j], s[j].operandType, MustReplace(OpcodeOf(s[j])))
    ensures forall j :: 0 <= j < |s| && MustReplace(OpcodeOf(s[j])) == IgnoreOp ==>
      RewriteBlock(s).value[j] == s[j]
  {
    var v := RewriteBlock(s).value;
    RewriteBlockPointwise(s);
    forall j | 0 <= j < |s|
      ensures MustReplace(OpcodeOf(v[j])) == IgnoreOp
      ensures MustReplace(OpcodeOf(s[j])) != IgnoreOp ==> CallsHook(v[j], s[j].operandType, MustReplace(OpcodeOf(s[j])))
      ensures MustReplace(OpcodeOf(s[j])) == IgnoreOp ==> v[j] == s[j]
    {
      RewriteOne(s[j], v[j]);
    }
  }

  lemma RewriteOne(i: Inst, x: Inst)
    requires Rewrite(i) == Success(x)
    ensures MustReplace(OpcodeOf(x)) == IgnoreOp
    ensures MustReplace(OpcodeOf(i)) != IgnoreOp ==> CallsHook(x, i.operandType, MustReplace(OpcodeOf(i)))
    ensures MustReplace(OpcodeOf(i)) == IgnoreOp ==> x == i
  {
  }

  /** The flag `runOnBasicBlock` returns is true exactly when the block changed, and a
      second run finds nothing to do. */
  lemma BlockModifiedIffChanged(s: Block)
    requires RewriteBlock(s).Success?
    ensures Replaces(s) <==> RewriteBlock(s).value != s
    ensures RewriteBlock(RewriteBlock(s).value) == RewriteBlock(s)
    ensures !Replaces(RewriteBlock(s).value)
  {
    var v := RewriteBlock(s).value;
    RewriteBlockPointwise(s);
    RewrittenBlock(s);
    if Replaces(s) {
      var j :| 0 <= j < |s| && MustReplace(OpcodeOf(s[j])) != IgnoreOp;
      assert v[j].HookCall? && !s[j].HookCall?;
    } else {
      assert v == s;
    }
    RewriteBlockPointwise(v);
    assert RewriteBlock(v).value == v;
  }

  // ---------------------------------------------------------------------------
  // Functions and modules

  /** The blocks of a function rewritten in order. */
  function RewriteFunction(bs: seq<Block>): (r: Result<seq<Block>, InstrumentError>)
    ensures r.Success? ==> |r.value| == |bs|
  {
    if bs == [] then Success([])
    else match RewriteFunction(bs[..|bs| - 1])
      case Failure(e) => Failure(e)
      case Success(prev) =>
        match RewriteBlock(bs[|bs| - 1])
        case Failure(e) => Failure(e)
        case Success(b) => Success(prev + [b])
  }

  /** Some block of the function has an instruction to replace. */
  predicate ReplacesIn(bs: seq<Block>) {
    exists k :: 0 <= k < |bs| && Replaces(bs[k])
  }

  lemma {:induction false} RewriteFunctionPointwise(bs: seq<Block>)
    ensures RewriteFunction(bs).Success? <==> forall k :: 0 <= k < |bs| ==> RewriteBlock(bs[k]).Success?
    ensures RewriteFunction(bs).Success? ==>
      forall k :: 0 <= k < |bs| ==> RewriteFunction(bs).value[k] == RewriteBlock(bs[k]).value
  {
    if bs != [] {
      var init := bs[..|bs| - 1];
      RewriteFunctionPointwise(init);
      assert forall k :: 0 <= k < |init| ==> init[k] == bs[k];
    }
  }

  /** `runOnFunction` reports a change exactly when the function changed. */
  lemma FunctionModifiedIffChanged(bs: seq<Block>)
    requires RewriteFunction(bs).Success?
    ensures ReplacesIn(bs) <==> RewriteFunction(bs).value != bs
  {
    var v := RewriteFunction(bs).value;
    RewriteFunctionPointwise(bs);
    if ReplacesIn(bs) {
      var k :| 0 <= k < |bs| && Replaces(bs[k]);
      BlockModifiedIffChanged(bs[k]);
      assert v[k] != bs[k];
    } else {
      forall k | 0 <= k < |bs| ensures v[k] == bs[k] {
        BlockModifiedIffChanged(bs[k]);
      }
      assert v == bs;
    }
  }

  /** The positions, below n, of the functions the pass instruments, in module order
      (the first loop of `runOnModule`). */
  function ChosenIndices(fs: seq<Function>, selected: set<string>, blackList: bool, n: nat): (idx: seq<nat>)
    requires n <= |fs|
    ensures forall j :: 0 <= j < |idx| ==> idx[j] < n
  {
    if n == 0 then []
    else ChosenIndices(fs, selected, blackList, n - 1) + (if Chosen(selected, blackList, fs[n - 1].name) then [n - 1] else [])
  }

  /** Each chosen function appears once, in module order. */
  lemma {:induction false} ChosenIndicesSpec(fs: seq<Function>, selected: set<string>, blackList: bool, n: nat)
    requires n <= |fs|
    ensures var idx := ChosenIndices(fs, selected, blackList, n);
      && (forall k :: 0 <= k < n ==> (k in idx <==> Chosen(selected, blackList, fs[k].name)))
      && (forall a, b :: 0 <= a < b < |idx| ==> idx[a] < idx[b])
  {
    if n > 0 {
      ChosenIndicesSpec(fs, selected, blackList, n - 1);
    }
  }

  /** The second loop of `runOnModule`: the listed functions rewritten one after the
      other in the module as it stands, with the OR of the flags. */
  function RewriteListed(fs: seq<Function>, idx: seq<nat>): (r: Result<(seq<Function>, bool), InstrumentError>)
    requires forall j :: 0 <= j < |idx| ==> idx[j] < |fs|
    ensures r.Success? ==> |r.value.0| == |fs|
  {
    if idx == [] then Success((fs, false))
    else match RewriteListed(fs, idx[..|idx| - 1])
      case Failure(e) => Failure(e)
      case Success((gs, modified)) =>
        var i := idx[|idx| - 1];
        match RewriteFunction(gs[i].blocks)
        case Failure(e) => Failure(e)
        case Success(bs) => Success((gs[i := gs[i].(blocks := bs)], modified || ReplacesIn(gs[i].blocks)))
  }

  /** What `runOnModule` does to a module with the given selection. */
  function InstrumentModule(fs: seq<Function>, selected: set<string>, blackList: bool): Result<(seq<Function>, bool), InstrumentError> {
    RewriteListed(fs, ChosenIndices(fs, selected, blackList, |fs|))
  }

  /** Rewriting distinct functions one after the other: each listed function is
      rewritten from its original blocks and every other function is kept. */
  lemma {:induction false} RewriteListedPointwise(fs: seq<Function>, idx: seq<nat>)
    requires forall j :: 0 <= j < |idx| ==> idx[j] < |fs|
    requires forall a, b :: 0 <= a < b < |idx| ==> idx[a] != idx[b]
    ensures RewriteListed(fs, idx).Success? <==>
      forall k :: k in idx ==> RewriteFunction(fs[k].blocks).Success?
    ensures RewriteListed(fs, idx).Success? ==>
      && (forall k :: 0 <= k < |fs| ==>
            RewriteListed(fs, idx).value.0[k] ==
            (if k in idx then fs[k].(blocks := RewriteFunction(fs[k].blocks).value) else fs[k]))
      && (RewriteListed(fs, idx).value.1 <==> exists k :: k in idx && ReplacesIn(fs[k].blocks))
  {
    if idx != [] {
      var init := idx[..|idx| - 1];
      var i := idx[|idx| - 1];
      RewriteListedPointwise(fs, init);
      assert i !in init;
      assert forall k :: k in idx <==> k in init || k == i;
    }
  }

  /** `runOnModule` rewrites exactly the chosen functions and leaves the others alone;
      it fails exactly when a chosen function holds an operation on a type without a
      wrapper; and its result is true exactly when the module changed. */
  lemma ModuleInstrumentation(fs: seq<Function>, selected: set<string>, blackList: bool)
    ensures var r := InstrumentModule(fs, selected, blackList);
      && (r.Success? <==> forall k :: 0 <= k < |fs| && Chosen(selected, blackList, fs[k].name) ==>
                                       RewriteFunction(fs[k].blocks).Success?)
      && (r.Success? ==> forall k :: 0 <= k < |fs| ==>
            r.value.0[k] ==
            (if Chosen(selected, blackList, fs[k].name) then fs[k].(blocks := RewriteFunction(fs[k].blocks).value) else fs[k]))
      && (r.Success? ==> (r.value.1 <==> r.value.0 != fs))
  {
    var idx := ChosenIndices(fs, selected, blackList, |fs|);
    ChosenIndicesSpec(fs, selected, blackList, |fs|);
    RewriteListedPointwise(fs, idx);
    var r := InstrumentModule(fs, selected, blackList);
    if r.Success? {
      var gs := r.value.0;
      if r.value.1 {
        var k :| k in idx && ReplacesIn(fs[k].blocks);
        FunctionModifiedIffChanged(fs[k].blocks);
        assert gs[k] != fs[k];
      } else {
        forall k | 0 <= k < |fs| ensures gs[k] == fs[k] {
          if k in idx {
            FunctionModifiedIffChanged(fs[k].blocks);
          }
        }
        assert gs == fs;
      }
    }
  }

  // ---------------------------------------------------------------------------
  // The pass

  /** The module the pass rewrites in place. */
  class Module {
    var functions: seq<Function>

    constructor(functions: seq<Function>)
      ensures this.functions == functions
    {
      this.functions := functions;
    }
  }

  /** The module with block b of function f replaced. */
  function WithBlock(fs: seq<Function>, f: nat, b: nat, blk: Block): seq<Function>
    requires f < |fs| && b < |fs[f].blocks|
  {
    fs[f := fs[f].(blocks := fs[f].blocks[b := blk])]
  }

  /** The module with the blocks of function f replaced. */
  function WithBlocks(fs: seq<Function>, f: nat, bs: seq<Block>): seq<Function>
    requires f < |fs|
  {
    fs[f := fs[f].(blocks := bs)]
  }

  /** Replacing a block of a function whose blocks were replaced. */
  lemma WithBlocksUpdate(fs: seq<Function>, f: nat, bs: seq<Block>, b: nat, blk: Block)
    requires f < |fs| && b < |bs|
    ensures WithBlocks(fs, f, bs)[f].blocks[b] == bs[b]
    ensures WithBlock(WithBlocks(fs, f, bs), f, b, blk) == WithBlocks(fs, f, bs[b := blk])
  {
  }

  /** One step of `runOnBasicBlock`: instruction i rewritten to x. */
  lemma BlockStep(s: Block, i: nat, prev: Block, x: Inst)
    requires i < |s| && RewriteBlock(s[..i]) == Success(prev) && Rewrite(s[i]) == Success(x)
    ensures RewriteBlock(s[..i + 1]) == Success(prev + [x])
    ensures (prev + s[i..])[i := x] == (prev + [x]) + s[i + 1..]
    ensures Replaces(s[..i + 1]) <==> Replaces(s[..i]) || MustReplace(OpcodeOf(s[i])) != IgnoreOp
  {
    var t := s[..i + 1];
    assert t[..|t| - 1] == s[..i] && t[|t| - 1] == s[i];
    assert (prev + s[i..])[i := x] == (prev + [x]) + s[i + 1..];
  }

  /** Replacing instruction i of block b in place gives the module whose block b is the
      updated block. */
  lemma ReplaceInPlace(fs: seq<Function>, f: nat, bs: seq<Block>, b: nat, blk: Block, i: nat, x: Inst, next: Block)
    requires f < |fs| && b < |bs| && i < |blk| && next == blk[i := x]
    ensures WithBlock(WithBlocks(fs, f, bs[b := blk]), f, b, WithBlocks(fs, f, bs[b := blk])[f].blocks[b][i := x])
      == WithBlocks(fs, f, bs[b := next])
  {
    WithBlocksUpdate(fs, f, bs[b := blk], b, next);
    assert bs[b := blk][b := next] == bs[b := next];
  }

  /** An unrewritten instruction at i leaves the block as it stands. */
  lemma BlockKeep(s: Block, i: nat, prev: Block)
    requires i < |s| && |prev| == i
    ensures prev + s[i..] == (prev + [s[i]]) + s[i + 1..]
  {
  }

  /** One step of `runOnFunction`: block k rewritten to blk. */
  lemma FunctionStep(bs: seq<Block>, k: nat, prev: seq<Block>, blk: Block)
    requires k < |bs| && RewriteFunction(bs[..k]) == Success(prev) && RewriteBlock(bs[k]) == Success(blk)
    ensures RewriteFunction(bs[..k + 1]) == Success(prev + [blk])
    ensures (prev + bs[k..])[k := blk] == (prev + [blk]) + bs[k + 1..]
    ensures ReplacesIn(bs[..k + 1]) <==> ReplacesIn(bs[..k]) || Replaces(bs[k])
  {
    var t := bs[..k + 1];
    assert t[..|t| - 1] == bs[..k] && t[|t| - 1] == bs[k];
    assert (prev + bs[k..])[k := blk] == (prev + [blk]) + bs[k + 1..];
  }

  /** `VfclibInst`: the selected functions and the black-list flag. */
  class VfclibInst {
    var selectedFunctionSet: set<string>
    const blackList: bool

    constructor(blackList: bool)
      ensures selectedFunctionSet == {} && this.blackList == blackList
    {
      selectedFunctionSet := {};
      this.blackList := blackList;
    }

    /** The constructor of the pass: the lines of the function file when one is named
        (it is fatal when the file cannot be opened), otherwise the single function. */
    static method Create(functionFile: string, file: Option<seq<string>>, single: string, blackList: bool)
      returns (r: Result<VfclibInst, InstrumentError>)
      ensures r.Failure? <==> functionFile != [] && file.None?
      ensures r.Failure? ==> r.error == CannotOpen(functionFile)
      ensures r.Success? ==>
        && fresh(r.value) && r.value.blackList == blackList
        && r.value.selectedFunctionSet == SelectionSet(functionFile, file, single)
    {
      var pass := new VfclibInst(blackList);
      if functionFile != [] {
        if file.None? {
          return Failure(CannotOpen(functionFile));
        }
        var lines := file.value;
        var i := 0;
        while i < |lines|
          invariant i <= |lines|
          invariant pass.selectedFunctionSet == set j | 0 <= j < i :: lines[j]
        {
          pass.selectedFunctionSet := pass.selectedFunctionSet + {lines[i]};
          i := i + 1;
        }
      } else if single != [] {
        pass.selectedFunctionSet := pass.selectedFunctionSet + {single};
      }
      return Success(pass);
    }

    /** `runOnBasicBlock` on block b of function f: each instruction `mustReplace`
        selects is replaced in place by the call to its hook; the result is whether one
        was. An operation without a wrapper stops the pass. */
    method RunOnBasicBlock(M: Module, f: nat, b: nat) returns (r: Result<bool, InstrumentError>)
      requires f < |M.functions| && b < |M.functions[f].blocks|
      modifies M
      ensures var s := old(M.functions[f].blocks[b]);
        && (r.Success? <==> RewriteBlock(s).Success?)
        && (r.Failure? ==> r.error == RewriteBlock(s).error)
        && (r.Success? ==> M.functions == WithBlock(old(M.functions), f, b, RewriteBlock(s).value))
        && (r.Success? ==> (r.value <==> Replaces(s)))
    {
      ghost var fs := M.functions;
      ghost var bs := M.functions[f].blocks;
      ghost var s := bs[b];
      ghost var done: Block := [];
      var modified := false;
      var i := 0;
      assert M.functions == WithBlocks(fs, f, bs[b := done + s[i..]]) by {
        assert done + s[0..] == s;
        assert bs[b := s] == bs;
      }
      while i < |M.functions[f].blocks[b]|
        invariant i <= |s| && RewriteBlock(s[..i]) == Success(done)
        invariant M.functions == WithBlocks(fs, f, bs[b := done + s[i..]])
        invariant modified <==> Replaces(s[..i])
      {
        WithBlocksUpdate(fs, f, bs[b := done + s[i..]], b, done + s[i..]);
        var inst := M.functions[f].blocks[b][i];
        var opCode := MustReplace(OpcodeOf(inst));
        if opCode == IgnoreOp {
          BlockStep(s, i, done, inst);
          BlockKeep(s, i, done);
          assert inst == s[i];
        } else {
          var newInst := ReplaceWithMcaCall(inst, opCode);
          if newInst.Failure? {
            BlockFails(s, i, done);
            return Failure(newInst.error);
          }
          BlockStep(s, i, done, newInst.value);
          ReplaceInPlace(fs, f, bs, b, done + s[i..], i, newInst.value, (done + [newInst.value]) + s[i + 1..]);
          M.functions := WithBlock(M.functions, f, b, M.functions[f].blocks[b][i := newInst.value]);
          modified := true;
        }
        done := RewriteBlock(s[..i + 1]).value;
        i := i + 1;
      }
      assert s[..i] == s && done + s[i..] == done;
      return Success(modified);
    }

    /** `runOnFunction` on function f: its blocks in order, with the OR of their flags. */
    method RunOnFunction(M: Module, f: nat) returns (r: Result<bool, InstrumentError>)
      requires f < |M.functions|
      modifies M
      ensures var bs := old(M.functions[f].blocks);
        && (r.Success? <==> RewriteFunction(bs).Success?)
        && (r.Failure? ==> r.error == RewriteFunction(bs).error)
        && (r.Success? ==> M.functions == WithBlocks(old(M.functions), f, RewriteFunction(bs).value))
        && (r.Success? ==> (r.value <==> ReplacesIn(bs)))
    {
      ghost var fs := M.functions;
      ghost var bs := M.functions[f].blocks;
      ghost var done: seq<Block> := [];
      var modified := false;
      var k := 0;
      assert M.functions == WithBlocks(fs, f, done + bs[k..]) by {
        assert done + bs[0..] == bs;
      }
      while k < |M.functions[f].blocks|
        invariant k <= |bs| && RewriteFunction(bs[..k]) == Success(done)
        invariant M.functions == WithBlocks(fs, f, done + bs[k..])
        invariant modified <==> ReplacesIn(bs[..k])
      {
        WithBlocksUpdate(fs, f, done + bs[k..], k, bs[k]);
        var m := RunOnBasicBlock(M, f, k);
        if m.Failure? {
          FunctionFails(bs, k, done);
          return Failure(m.error);
        }
        ghost var blk := RewriteBlock(bs[k]).value;
        FunctionStep(bs, k, done, blk);
        WithBlocksUpdate(fs, f, done + bs[k..], k, blk);
        modified := modified || m.value;
        done := done + [blk];
        k := k + 1;
      }
      assert bs[..k] == bs && done + bs[k..] == done;
      return Success(modified);
    }

    /** `runOnModule`: the chosen functions are listed first, then instrumented in
        order; the result is the OR of their flags. */
    method RunOnModule(M: Module) returns (r: Result<bool, InstrumentError>)
      modifies M
      ensures var out := InstrumentModule(old(M.functions), selectedFunctionSet, blackList);
        && (r.Success? <==> out.Success?)
        && (r.Failure? ==> r.error == out.error)
        && (r.Success? ==> M.functions == out.value.0 && r.value == out.value.1)
    {
      ghost var fs := M.functions;
      var functions := ChooseFunctions(M);
      var modified := false;
      var j := 0;
      assert functions[..0] == [];
      while j < |functions|
        invariant j <= |functions|
        invariant RewriteListed(fs, functions[..j]) == Success((M.functions, modified))
      {
        ghost var gs := M.functions;
        var m := RunOnFunction(M, functions[j]);
        if m.Failure? {
          ListedFails(fs, functions, j, gs, modified);
          return Failure(m.error);
        }
        ListedStep(fs, functions, j, gs, modified);
        modified := modified || m.value;
        j := j + 1;
      }
      assert functions[..j] == functions;
      return Success(modified);
    }

    /** The first loop of `runOnModule`: the functions the selection rule picks. */
    method ChooseFunctions(M: Module) returns (functions: seq<nat>)
      ensures functions == ChosenIndices(M.functions, selectedFunctionSet, blackList, |M.functions|)
    {
      functions := [];
      var n := 0;
      while n < |M.functions|
        invariant n <= |M.functions|
        invariant functions == ChosenIndices(M.functions, selectedFunctionSet, blackList, n)
      {
        var isIn := M.functions[n].name in selectedFunctionSet;
        if selectedFunctionSet == {} || blackList != isIn {
          functions := functions + [n];
        }
        n := n + 1;
      }
    }
  }

  /** An unsupported instruction at i makes the whole block fail with its error. */
  lemma {:induction false} BlockFails(s: Block, i: nat, prev: Block)
    requires i < |s| && RewriteBlock(s[..i]) == Success(prev) && Rewrite(s[i]).Failure?
    ensures RewriteBlock(s).Failure? && RewriteBlock(s).error == Rewrite(s[i]).error
  {
    var t := s[..i + 1];
    assert RewriteBlock(t) == Failure(Rewrite(s[i]).error) by {
      assert t[..|t| - 1] == s[..i] && t[|t| - 1] == s[i];
    }
    RewritePrefixFails(s, i + 1);
  }

  /** A failing prefix makes the whole block fail with the same error. */
  lemma {:induction false} RewritePrefixFails(s: Block, n: nat)
    requires n <= |s| && RewriteBlock(s[..n]).Failure?
    ensures RewriteBlock(s) == RewriteBlock(s[..n])
    decreases |s| - n
  {
    if n < |s| {
      var t := s[..n + 1];
      assert t[..|t| - 1] == s[..n];
      assert RewriteBlock(t) == RewriteBlock(s[..n]);
      RewritePrefixFails(s, n + 1);
    } else {
      assert s[..n] == s;
    }
  }

  lemma {:induction false} FunctionFails(bs: seq<Block>, k: nat, prev: seq<Block>)
    requires k < |bs| && RewriteFunction(bs[..k]) == Success(prev) && RewriteBlock(bs[k]).Failure?
    ensures RewriteFunction(bs).Failure? && RewriteFunction(bs).error == RewriteBlock(bs[k]).error
  {
    var t := bs[..k + 1];
    assert RewriteFunction(t) == Failure(RewriteBlock(bs[k]).error) by {
      assert t[..|t| - 1] == bs[..k] && t[|t| - 1] == bs[k];
    }
    FunctionPrefixFails(bs, k + 1);
  }

  lemma {:induction false} FunctionPrefixFails(bs: seq<Block>, n: nat)
    requires n <= |bs| && RewriteFunction(bs[..n]).Failure?
    ensures RewriteFunction(bs) == RewriteFunction(bs[..n])
    decreases |bs| - n
  {
    if n < |bs| {
      var t := bs[..n + 1];
      assert t[..|t| - 1] == bs[..n];
      assert RewriteFunction(t) == RewriteFunction(bs[..n]);
      FunctionPrefixFails(bs, n + 1);
    } else {
      assert bs[..n] == bs;
    }
  }

  /** The listed functions rewritten so far, and one more. */
  lemma ListedStep(fs: seq<Function>, idx: seq<nat>, j: nat, gs: seq<Function>, modified: bool)
    requires j < |idx| && forall i :: 0 <= i < |idx| ==> idx[i] < |fs|
    requires RewriteListed(fs, idx[..j]) == Success((gs, modified))
    requires RewriteFunction(gs[idx[j]].blocks).Success?
    ensures RewriteListed(fs, idx[..j + 1]) ==
      Success((WithBlocks(gs, idx[j], RewriteFunction(gs[idx[j]].blocks).value),
               modified || ReplacesIn(gs[idx[j]].blocks)))
  {
    var t := idx[..j + 1];
    assert t[..|t| - 1] == idx[..j] && t[|t| - 1] == idx[j];
    ListedSnoc(fs, t, gs, modified, RewriteFunction(gs[idx[j]].blocks).value);
  }

  lemma ListedSnoc(fs: seq<Function>, t: seq<nat>, gs: seq<Function>, modified: bool, bs: seq<Block>)
    requires t != [] && forall i :: 0 <= i < |t| ==> t[i] < |fs|
    requires RewriteListed(fs, t[..|t| - 1]) == Success((gs, modified))
    requires RewriteFunction(gs[t[|t| - 1]].blocks) == Success(bs)
    ensures RewriteListed(fs, t) == Success((WithBlocks(gs, t[|t| - 1], bs), modified || ReplacesIn(gs[t[|t| - 1]].blocks)))
  {
  }

  /** A listed function that cannot be rewritten makes the whole pass fail. */
  lemma ListedFails(fs: seq<Function>, idx: seq<nat>, j: nat, gs: seq<Function>, modified: bool)
    requires j < |idx| && forall i :: 0 <= i < |idx| ==> idx[i] < |fs|
    requires RewriteListed(fs, idx[..j]) == Success((gs, modified))
    requires RewriteFunction(gs[idx[j]].blocks).Failure?
    ensures RewriteListed(fs, idx).Failure?
    ensures RewriteListed(fs, idx).error == RewriteFunction(gs[idx[j]].blocks).error
  {
    var t := idx[..j + 1];
    assert RewriteListed(fs, t) == Failure(RewriteFunction(gs[idx[j]].blocks).error) by {
      assert t[..|t| - 1] == idx[..j] && t[|t| - 1] == idx[j];
    }
    ListedPrefixFails(fs, idx, j + 1);
  }

  lemma {:induction false} ListedPrefixFails(fs: seq<Function>, idx: seq<nat>, n: nat)
    requires n <= |idx| && forall i :: 0 <= i < |idx| ==> idx[i] < |fs|
    requires RewriteListed(fs, idx[..n]).Failure?
    ensures RewriteListed(fs, idx) == RewriteListed(fs, idx[..n])
    decreases |idx| - n
  {
    if n < |idx| {
      var t := idx[..n + 1];
      assert t[..|t| - 1] == idx[..n];
      assert RewriteListed(fs, t) == RewriteListed(fs, idx[..n]);
      ListedPrefixFails(fs, idx, n + 1);
    } else {
      assert idx[..n] == idx;
    }
  }
}
