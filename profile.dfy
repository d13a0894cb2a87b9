/** The profiling pass (src/libvfcprofile/libVFCProfile.cpp) apart from its pattern
    files: which instructions it records, how it describes their floating-point
    arguments, and the site identifiers it writes into the profile. An LLVM value is
    described by its type; what `getSizeOf` finds behind a pointer travels with the
    value, and the library lookup of `TargetLibraryInfo` is a parameter. */
module Profile {
  import opened Wrappers
  import opened Decimal
  import opened FloatBits
  import opened Interflop
  import opened ProfileSelect

  // ---------------------------------------------------------------------------
  // Instructions

  /** The LLVM types the pass tells apart. */
  datatype LType =
    | FloatTy
    | DoubleTy
    | PointerTo(pointee: LType)
    | VectorOf(elem: LType, width: nat)
    | OtherTy

  /** An operand or a result: its type and, for a pointer, the element count that
      `getSizeOf` traces back to an allocation (0 when it finds none). */
  datatype Value = Value(ty: LType, sizeOf: nat)

  datatype Opcode = FAdd | FSub | FMul | FDiv | FCmp | Call | Other

  /** The function a call names directly; an indirect call has none. */
  datatype Callee = Callee(name: string, isIntrinsic: bool)

  datatype Loc = Loc(line: nat, column: nat)

  /** The innermost loop of a block: the line it starts on and its nesting depth. */
  datatype LoopInfo = LoopInfo(startLine: nat, depth: nat)

  datatype Instr = Instr(opcode: Opcode, result: Value, operands: seq<Value>,
                         callee: Option<Callee>, loc: Option<Loc>)

  /** An instruction of a function body, in block order, with the loop of its block. */
  datatype Placed = Placed(instr: Instr, loop: Option<LoopInfo>)

  /** A function; a declaration has an empty body. */
  datatype Func = Func(name: string, body: seq<Placed>)

  /** `getFops`: the five floating-point opcodes and everything else ignored. */
  function GetFops(op: Opcode): (r: Fops)
    ensures r == FopAdd <==> op == FAdd
    ensures r == FopSub <==> op == FSub
    ensures r == FopMul <==> op == FMul
    ensures r == FopDiv <==> op == FDiv
    ensures r == FopCmp <==> op == FCmp
  {
    match op
    case FAdd => FopAdd
    case FSub => FopSub
    case FMul => FopMul
    case FDiv => FopDiv
    case FCmp => FopCmp
    case _ => FopIgnore
  }

  // ---------------------------------------------------------------------------
  // Argument names

  /** `getArgName`: the result is "return_value", operand i is "operand_<i+1>". */
  function GetArgName(i: int): string {
    if i < 0 then "return_value" else "operand_" + NatToString(i + 1)
  }

  /** The operand position an argument name stands for, or -1. */
  function OperandIndex(name: string): int {
    if |name| > 8 && name[..8] == "operand_" && AllDigits(name[8..]) && DigitsValue(name[8..]) >= 1
    then DigitsValue(name[8..]) - 1
    else -1
  }

  /** The name of an argument tells which operand it is, and every result is
      "return_value": names of distinct operands differ. */
  lemma ArgNameIndex(i: int)
    ensures OperandIndex(GetArgName(i)) == (if i < 0 then -1 else i)
  {
    var name := GetArgName(i);
    if i >= 0 {
      var digits := NatToString(i + 1);
      assert name[..8] == "operand_" && name[8..] == digits;
      NatToStringValue(i + 1);
    } else {
      assert name[..8] != "operand_" by {
        assert name[0] == 'r';
      }
    }
  }

  // ---------------------------------------------------------------------------
  // Which instructions are recorded

  /** What `mustInstrument(Type*)` looks through: a pointer's pointee or a vector's
      element, one level deep. */
  function ElementType(t: LType): LType {
    match t
    case PointerTo(p) => p
    case VectorOf(e, _) => e
    case _ => t
  }

  predicate MustInstrumentType(t: LType) {
    ElementType(t) == FloatTy || ElementType(t) == DoubleTy
  }

  /** A call to a function named directly that is not an LLVM intrinsic. */
  predicate IsDirectCall(I: Instr) {
    I.opcode == Call && I.callee.Some? && !I.callee.value.isIntrinsic
  }

  /** `mustInstrument(Instruction&)`: a direct call or a floating-point operation whose
      result or some operand is (a pointer to, a vector of) float or double. */
  predicate Instrumentable(I: Instr) {
    && (IsDirectCall(I) || GetFops(I.opcode) != FopIgnore)
    && (MustInstrumentType(I.result.ty) || exists j :: 0 <= j < |I.operands| && MustInstrumentType(I.operands[j].ty))
  }

  method MustInstrument(I: Instr) returns (b: bool)
    ensures b == Instrumentable(I)
  {
    var isCall := I.opcode == Call;
    if isCall {
      isCall := !(I.callee.None? || I.callee.value.isIntrinsic);
    }
    var isArithmetic := GetFops(I.opcode) != FopIgnore;
    var useFloat := false;
    if MustInstrumentType(I.result.ty) {
      useFloat := true;
    }
    var k := 0;
    while k < |I.operands|
      invariant k <= |I.operands|
      invariant useFloat <==> MustInstrumentType(I.result.ty) || exists j :: 0 <= j < k && MustInstrumentType(I.operands[j].ty)
    {
      if MustInstrumentType(I.operands[k].ty) {
        useFloat := true;
      }
      k := k + 1;
    }
    b := (isCall || isArithmetic) && useFloat;
  }

  /** The name a call site is filtered by: the callee of a call, empty otherwise. */
  function CalledName(I: Instr): string {
    if I.opcode == Call && I.callee.Some? then I.callee.value.name else []
  }

  // ---------------------------------------------------------------------------
  // Argument descriptions

  /** The format a described argument is in. */
  function ArgFormat(t: FType): Format {
    if t == FFloat || t == FFloatPtr then Binary32 else Binary64
  }

  predicate IsPointerArg(t: FType) { t == FFloatPtr || t == FDoublePtr }

  /** `add_arg_metadata`: a vector is described by its element type; float and double
      scalars and pointers get the precision and exponent range of their format, and a
      pointer the size `getSizeOf` reports. Any other type is left undescribed. */
  function ArgMetadata(v: Value, i: int): (r: Option<ArgInfo>)
    ensures MustInstrumentType(v.ty) ==> r.Some?
    ensures r.Some? && !(v.ty.VectorOf? && v.ty.elem.PointerTo?) ==> MustInstrumentType(v.ty)
    ensures r.Some? ==> r.value.argName == GetArgName(i)
    ensures r.Some? ==> r.value.precision == PmanSize(ArgFormat(r.value.argType))
    ensures r.Some? ==> r.value.range == ExpSize(ArgFormat(r.value.argType))
    ensures r.Some? ==> (IsPointerArg(r.value.argType) <==> ElementType(v.ty).PointerTo? || v.ty.PointerTo?)
    ensures r.Some? ==> r.value.argSize == (if IsPointerArg(r.value.argType) then v.sizeOf else 1)
    ensures MustInstrumentType(v.ty) ==> (ArgFormat(r.value.argType) == Binary32 <==> ElementType(v.ty) == FloatTy)
  {
    var t := if v.ty.VectorOf? then v.ty.elem else v.ty;
    if t == FloatTy then Some(ArgInfo(FFloat, 23, 8, 1, GetArgName(i)))
    else if t == PointerTo(FloatTy) then Some(ArgInfo(FFloatPtr, 23, 8, v.sizeOf, GetArgName(i)))
    else if t == DoubleTy then Some(ArgInfo(FDouble, 52, 11, 1, GetArgName(i)))
    else if t == PointerTo(DoubleTy) then Some(ArgInfo(FDoublePtr, 52, 11, v.sizeOf, GetArgName(i)))
    else None
  }

  /** The description of operand i of an instruction the pass instruments. */
  function OperandArg(ops: seq<Value>, i: nat): ArgInfo
    requires i < |ops| && MustInstrumentType(ops[i].ty)
  {
    ArgMetadata(ops[i], i).value
  }

  predicate IsFpPointer(t: LType) { t == PointerTo(FloatTy) || t == PointerTo(DoubleTy) }

  /** The inputs among the first n operands: every instrumented operand, in order. */
  function OperandArgs(ops: seq<Value>, n: nat): seq<ArgInfo>
    requires n <= |ops|
  {
    if n == 0 then []
    else OperandArgs(ops, n - 1) + (if MustInstrumentType(ops[n - 1].ty) then [OperandArg(ops, n - 1)] else [])
  }

  /** The operands among the first n that are also outputs: pointers to float or
      double, through which the callee or operation may write. */
  function PointerArgs(ops: seq<Value>, n: nat): seq<ArgInfo>
    requires n <= |ops|
  {
    if n == 0 then []
    else PointerArgs(ops, n - 1) + (if IsFpPointer(ops[n - 1].ty) then [OperandArg(ops, n - 1)] else [])
  }

  /** The result, as the first output, when it is a floating-point value. */
  function ResultArgs(I: Instr): seq<ArgInfo> {
    if MustInstrumentType(I.result.ty) then [ArgMetadata(I.result, -1).value] else []
  }

  /** The input and output lists of `add_fops_metadata` and `add_call_metadata`. */
  method ArgLists(I: Instr) returns (inputs: seq<ArgInfo>, outputs: seq<ArgInfo>)
    ensures inputs == OperandArgs(I.operands, |I.operands|)
    ensures outputs == ResultArgs(I) + PointerArgs(I.operands, |I.operands|)
  {
    inputs := [];
    outputs := [];
    if MustInstrumentType(I.result.ty) {
      var ret := ArgMetadata(I.result, -1);
      outputs := [ret.value];
    }
    var i := 0;
    while i < |I.operands|
      invariant i <= |I.operands|
      invariant inputs == OperandArgs(I.operands, i)
      invariant outputs == ResultArgs(I) + PointerArgs(I.operands, i)
    {
      var t := I.operands[i].ty;
      ArgListsStep(I.operands, i);
      if MustInstrumentType(t) {
        var arg := ArgMetadata(I.operands[i], i).value;
        if t == PointerTo(DoubleTy) || t == PointerTo(FloatTy) {
          AppendAssocArgs(ResultArgs(I), PointerArgs(I.operands, i), [arg]);
          outputs := outputs + [arg];
        }
        inputs := inputs + [arg];
      }
      i := i + 1;
    }
  }

  /** One more operand of the input and output lists. */
  lemma ArgListsStep(ops: seq<Value>, i: nat)
    requires i < |ops|
    ensures IsFpPointer(ops[i].ty) ==> MustInstrumentType(ops[i].ty)
    ensures OperandArgs(ops, i + 1) ==
      OperandArgs(ops, i) + (if MustInstrumentType(ops[i].ty) then [OperandArg(ops, i)] else [])
    ensures PointerArgs(ops, i + 1) ==
      PointerArgs(ops, i) + (if IsFpPointer(ops[i].ty) then [OperandArg(ops, i)] else [])
  {
  }

  lemma AppendAssocArgs(a: seq<ArgInfo>, b: seq<ArgInfo>, c: seq<ArgInfo>)
    ensures (a + b) + c == a + (b + c)
  {
  }

  /** The pointer arguments among described arguments, in order. */
  function PointerInputs(args: seq<ArgInfo>): seq<ArgInfo> {
    if args == [] then []
    else
      var last := args[|args| - 1];
      PointerInputs(args[..|args| - 1]) + (if IsPointerArg(last.argType) then [last] else [])
  }

  /** The output operands are exactly the inputs of pointer type, in the same order. */
  lemma {:induction false} PointerArgsAreInputs(ops: seq<Value>, n: nat)
    requires n <= |ops|
    ensures PointerArgs(ops, n) == PointerInputs(OperandArgs(ops, n))
  {
    if n > 0 {
      PointerArgsAreInputs(ops, n - 1);
      var prev := OperandArgs(ops, n - 1);
      if MustInstrumentType(ops[n - 1].ty) {
        var a := OperandArg(ops, n - 1);
        assert IsPointerArg(a.argType) <==> IsFpPointer(ops[n - 1].ty);
        PointerInputsSnoc(prev, a);
      } else {
        assert OperandArgs(ops, n) == prev + [];
        assert prev + [] == prev;
      }
    }
  }

  lemma PointerInputsSnoc(args: seq<ArgInfo>, a: ArgInfo)
    ensures PointerInputs(args + [a]) == PointerInputs(args) + (if IsPointerArg(a.argType) then [a] else [])
  {
    assert (args + [a])[..|args|] == args;
  }

  /** The inputs name operands in increasing order, so no two inputs share a name. */
  lemma {:induction false} OperandArgsInOrder(ops: seq<Value>, n: nat)
    requires n <= |ops|
    ensures forall k :: 0 <= k < |OperandArgs(ops, n)| ==> 0 <= OperandIndex(OperandArgs(ops, n)[k].argName) < n
    ensures forall p, q :: 0 <= p < q < |OperandArgs(ops, n)| ==>
      OperandIndex(OperandArgs(ops, n)[p].argName) < OperandIndex(OperandArgs(ops, n)[q].argName)
  {
    if n > 0 {
      OperandArgsInOrder(ops, n - 1);
      ArgNameIndex(n - 1);
    }
  }

  /** Some input is described exactly when some operand is instrumented. */
  lemma {:induction false} OperandArgsPresent(ops: seq<Value>, n: nat)
    requires n <= |ops|
    ensures OperandArgs(ops, n) != [] <==> exists j :: 0 <= j < n && MustInstrumentType(ops[j].ty)
  {
    if n > 0 {
      OperandArgsPresent(ops, n - 1);
    }
  }

  /** An instruction the pass records describes at least one floating-point value. */
  lemma RecordedSiteHasArgs(I: Instr)
    requires Instrumentable(I)
    ensures ResultArgs(I) != [] || OperandArgs(I.operands, |I.operands|) != []
  {
    OperandArgsPresent(I.operands, |I.operands|);
  }

  // ---------------------------------------------------------------------------
  // Operation records

  /** A vector's element type, any other type itself. */
  function ScalarOf(t: LType): LType {
    if t.VectorOf? then t.elem else t
  }

  predicate UsesType(ops: seq<Value>, t: LType) {
    exists j :: 0 <= j < |ops| && ScalarOf(ops[j].ty) == t
  }

  /** `haveFloatingPointArithmetic(Instruction&, ...)`: whether some operand is float,
      and whether some operand is double (vectors by their element). */
  method HaveFloatingPointArithmetic(ops: seq<Value>) returns (useFloat: bool, useDouble: bool)
    ensures useFloat == UsesType(ops, FloatTy)
    ensures useDouble == UsesType(ops, DoubleTy)
  {
    useFloat, useDouble := false, false;
    var i := 0;
    while i < |ops|
      invariant i <= |ops|
      invariant useFloat <==> exists j :: 0 <= j < i && ScalarOf(ops[j].ty) == FloatTy
      invariant useDouble <==> exists j :: 0 <= j < i && ScalarOf(ops[j].ty) == DoubleTy
    {
      var t := ScalarOf(ops[i].ty);
      if t == FloatTy {
        useFloat := true;
      }
      if t == DoubleTy {
        useDouble := true;
      }
      i := i + 1;
    }
  }

  /** The width of the first vector operand, 1 when there is none. */
  function VectorWidth(ops: seq<Value>): nat {
    if ops == [] then 1
    else if ops[0].ty.VectorOf? then ops[0].ty.width
    else VectorWidth(ops[1..])
  }

  lemma {:induction false} VectorWidthFirst(ops: seq<Value>, j: int)
    requires j == |ops| || (0 <= j < |ops| && ops[j].ty.VectorOf?)
    requires forall k :: 0 <= k < j ==> !ops[k].ty.VectorOf?
    ensures VectorWidth(ops) == if j == |ops| then 1 else ops[j].ty.width
  {
    if j > 0 {
      assert !ops[0].ty.VectorOf?;
      VectorWidthFirst(ops[1..], j - 1);
    }
  }

  /** `isVectorized`. */
  method IsVectorized(ops: seq<Value>) returns (w: nat)
    ensures w == VectorWidth(ops)
  {
    var i := 0;
    while i < |ops|
      invariant i <= |ops|
      invariant forall k :: 0 <= k < i ==> !ops[k].ty.VectorOf?
    {
      if ops[i].ty.VectorOf? {
        VectorWidthFirst(ops, i);
        return ops[i].ty.width;
      }
      i := i + 1;
    }
    VectorWidthFirst(ops, |ops|);
    return 1;
  }

  /** The operation part of an `fops` record: its kind, double as data type when some
      operand is double (float otherwise) and the vector width. The precision and range
      the pass computes are not written into the record. */
  function FopsRecord(I: Instr): FopsInfo {
    FopsInfo(GetFops(I.opcode), if UsesType(I.operands, DoubleTy) then FDouble else FFloat,
             VectorWidth(I.operands), None, None)
  }

  /** For an operation whose operands all have one scalar type, float or double, the
      record's data type is that type; precision and range are left unset. */
  lemma FopsRecordFormat(I: Instr)
    requires I.operands != []
    requires ScalarOf(I.operands[0].ty) == FloatTy || ScalarOf(I.operands[0].ty) == DoubleTy
    requires forall j :: 0 <= j < |I.operands| ==> ScalarOf(I.operands[j].ty) == ScalarOf(I.operands[0].ty)
    ensures FopsRecord(I).dataType == (if ScalarOf(I.operands[0].ty) == FloatTy then FFloat else FDouble)
    ensures FopsRecord(I).kind == GetFops(I.opcode)
    ensures FopsRecord(I).precision.None? && FopsRecord(I).range.None?
  {
    var t := ScalarOf(I.operands[0].ty);
    assert UsesType(I.operands, t);
    if t == FloatTy {
      assert !UsesType(I.operands, DoubleTy);
    }
  }

  // ---------------------------------------------------------------------------
  // Site records

  /** The identifier `add_instr_metadata` gives the n-th recorded instruction of a
      function: "<file>/<function>/<n>". */
  function SiteId(file: string, func: string, n: nat): string {
    file + "/" + func + "/" + NatToString(n)
  }

  /** The loop identifier: the function name, the loop's start line and its depth, or
      "none" outside loops. */
  function LoopId(func: string, loop: Option<LoopInfo>): string {
    match loop
    case None => "none"
    case Some(l) => func + NatToString(l.startLine) + NatToString(l.depth)
  }

  /** What `TargetLibraryInfo` knows of a name: the library function it is, if any. */
  type LibraryLookup = string -> Option<string>

  function LibraryName(lookup: LibraryLookup, name: string): string {
    match lookup(name)
    case Some(n) => n
    case None => "none"
  }

  /** The call part of a `call` record as `add_call_metadata` writes it: the library
      is looked up by the name of the function that contains the call. */
  function CallInfoAsWritten(I: Instr, func: string, lookup: LibraryLookup): FunctionInfo {
    FunctionInfo(CalledName(I), LibraryName(lookup, func))
  }

  /** The call part of a `call` record with the library looked up by the callee. */
  function CallInfo(I: Instr, lookup: LibraryLookup): (r: FunctionInfo)
    ensures r.calledName == CalledName(I)
    ensures lookup(CalledName(I)).Some? ==> r.libraryName == lookup(CalledName(I)).value
    ensures lookup(CalledName(I)).None? ==> r.libraryName == "none"
  {
    FunctionInfo(CalledName(I), LibraryName(lookup, CalledName(I)))
  }

  /** A call to a library function made from a function that is not one is recorded
      by `add_call_metadata` as calling no library, whereas the callee's library is
      named once the lookup uses the callee. */
  lemma LibraryOfCallerRecorded(I: Instr, func: string, lookup: LibraryLookup, lib: string)
    requires lookup(func) == None && lookup(CalledName(I)) == Some(lib) && lib != "none"
    ensures CallInfoAsWritten(I, func, lookup).libraryName == "none"
    ensures CallInfo(I, lookup).libraryName == lib
    ensures CallInfoAsWritten(I, func, lookup) != CallInfo(I, lookup)
  {
  }

  /** What a module's records depend on besides its functions: the source file name,
      its absolute path, the library lookup and the selection. */
  datatype Setup = Setup(file: string, absPath: string, library: LibraryLookup,
                         includeRgx: string, excludeRgx: string,
                         includeFile: string, excludeFile: string, matches: Matcher)

  /** The record of an instrumented instruction, numbered n in its function. */
  function SiteRecord(p: Placed, func: string, s: Setup, n: nat): (r: InstructionInfo)
    ensures r.id == SiteId(s.file, func, n) && r.funcName == func
  {
    var I := p.instr;
    var inputs := OperandArgs(I.operands, |I.operands|);
    var outputs := ResultArgs(I) + PointerArgs(I.operands, |I.operands|);
    InstructionInfo(
      if I.loc.Some? then I.loc.value.line else 0,
      if I.loc.Some? then I.loc.value.column else 0,
      if p.loop.Some? then p.loop.value.depth else 0,
      0, |inputs|, |outputs|,
      SiteId(s.file, func, n), s.absPath, func, LoopId(func, p.loop),
      if I.opcode == Call then CallSite(CallInfo(I, s.library)) else FopsSite(FopsRecord(I)),
      inputs, outputs)
  }

  /** What a record says about its arguments: the counts are the list lengths, and
      the outputs are the floating-point result followed by the inputs of pointer
      type. */
  lemma SiteRecordArgs(p: Placed, func: string, s: Setup, n: nat)
    ensures var r := SiteRecord(p, func, s, n);
      && r.nbInput == |r.inputArgs| && r.nbOutput == |r.outputArgs|
      && r.outputArgs[|ResultArgs(p.instr)|..] == PointerInputs(r.inputArgs)
      && (r.kind.CallSite? <==> p.instr.opcode == Call)
  {
    var I := p.instr;
    PointerArgsAreInputs(I.operands, |I.operands|);
    var r := SiteRecord(p, func, s, n);
    assert r.outputArgs[|ResultArgs(I)|..] == PointerArgs(I.operands, |I.operands|);
    assert r.inputArgs == OperandArgs(I.operands, |I.operands|);
  }

  /** Whether the pass records an instruction of the function named func: it has a
      debug location, it is instrumentable, and the selection includes it. */
  predicate Selected(p: Placed, func: string, s: Setup) {
    && p.instr.loc.Some?
    && Instrumentable(p.instr)
    && IsIncluded(CalledName(p.instr), func, s.includeRgx, s.excludeRgx, s.includeFile, s.excludeFile, s.matches)
  }

  /** The selected instructions among the first n of a function, in order. */
  function Selections(F: Func, s: Setup, n: nat): seq<Placed>
    requires n <= |F.body|
  {
    if n == 0 then []
    else Selections(F, s, n - 1) + (if Selected(F.body[n - 1], F.name, s) then [F.body[n - 1]] else [])
  }

  /** The records of the selected instructions among the first n of a function,
      numbered from 0. */
  function FunctionRecords(F: Func, s: Setup, n: nat): (recs: seq<InstructionInfo>)
    requires n <= |F.body|
    ensures |recs| == |Selections(F, s, n)|
  {
    var sel := Selections(F, s, n);
    seq(|sel|, k requires 0 <= k < |sel| => SiteRecord(sel[k], F.name, s, k))
  }

  /** One more instruction: its record is appended, numbered after the others, when it
      is selected. */
  lemma FunctionRecordsStep(F: Func, s: Setup, k: nat)
    requires k < |F.body|
    ensures FunctionRecords(F, s, k + 1) == FunctionRecords(F, s, k) +
      (if Selected(F.body[k], F.name, s) then [SiteRecord(F.body[k], F.name, s, |FunctionRecords(F, s, k)|)] else [])
  {
    var sel := Selections(F, s, k);
    var next := Selections(F, s, k + 1);
    var extra: seq<InstructionInfo> :=
      if Selected(F.body[k], F.name, s) then [SiteRecord(F.body[k], F.name, s, |sel|)] else [];
    assert next == sel + (if Selected(F.body[k], F.name, s) then [F.body[k]] else []);
    var lhs := FunctionRecords(F, s, k + 1);
    var rhs := FunctionRecords(F, s, k) + extra;
    assert |lhs| == |rhs|;
    forall j | 0 <= j < |lhs| ensures lhs[j] == rhs[j] {
      if j < |sel| {
        assert next[j] == sel[j];
      }
    }
  }

  /** The profile after instruction k of a function, appended to what came before. */
  lemma FunctionRecordsExtend(base: seq<InstructionInfo>, F: Func, s: Setup, k: nat)
    requires k < |F.body|
    ensures Selected(F.body[k], F.name, s) ==>
      && (base + FunctionRecords(F, s, k)) + [SiteRecord(F.body[k], F.name, s, |FunctionRecords(F, s, k)|)]
         == base + FunctionRecords(F, s, k + 1)
      && |FunctionRecords(F, s, k)| + 1 == |FunctionRecords(F, s, k + 1)|
    ensures !Selected(F.body[k], F.name, s) ==> FunctionRecords(F, s, k + 1) == FunctionRecords(F, s, k)
  {
    FunctionRecordsStep(F, s, k);
    if Selected(F.body[k], F.name, s) {
      AppendAssoc(base, FunctionRecords(F, s, k), [SiteRecord(F.body[k], F.name, s, |FunctionRecords(F, s, k)|)]);
    } else {
      assert FunctionRecords(F, s, k) + [] == FunctionRecords(F, s, k);
    }
  }

  /** The k-th record of a function carries the identifier numbered k. */
  lemma FunctionRecordIds(F: Func, s: Setup, n: nat)
    requires n <= |F.body|
    ensures forall k :: 0 <= k < |FunctionRecords(F, s, n)| ==>
      FunctionRecords(F, s, n)[k].id == SiteId(s.file, F.name, k) && FunctionRecords(F, s, n)[k].funcName == F.name
  {
  }

  /** The records of the defined functions among the first n of a module. */
  function ModuleRecords(M: seq<Func>, s: Setup, n: nat): seq<InstructionInfo>
    requires n <= |M|
  {
    if n == 0 then []
    else ModuleRecords(M, s, n - 1) + (if M[n - 1].body == [] then [] else FunctionRecords(M[n - 1], s, |M[n - 1].body|))
  }

  lemma ModuleRecordsSnoc(M: seq<Func>, s: Setup, n: nat)
    requires 0 < n <= |M| && M[n - 1].body != []
    ensures ModuleRecords(M, s, n) == ModuleRecords(M, s, n - 1) + FunctionRecords(M[n - 1], s, |M[n - 1].body|)
  {
  }

  lemma ModuleRecordsSkip(M: seq<Func>, s: Setup, n: nat)
    requires 0 < n <= |M| && M[n - 1].body == []
    ensures ModuleRecords(M, s, n) == ModuleRecords(M, s, n - 1)
  {
    assert ModuleRecords(M, s, n - 1) + [] == ModuleRecords(M, s, n - 1);
  }

  /** The counter after the first n functions: the record count of the last defined
      one, or the initial value when there is none. */
  function CounterAfter(M: seq<Func>, s: Setup, n: nat, initial: nat): nat
    requires n <= |M|
  {
    if n == 0 then initial
    else if M[n - 1].body == [] then CounterAfter(M, s, n - 1, initial)
    else |FunctionRecords(M[n - 1], s, |M[n - 1].body|)|
  }

  // ---------------------------------------------------------------------------
  // Site identifiers are keys

  /** The number at the end of an identifier. */
  function IdNumber(id: string): nat {
    var d := LastComponent(id);
    if AllDigits(d) then DigitsValue(d) else 0
  }

  lemma {:induction false} LastComponentAfterSlash(prefix: string, d: string)
    requires prefix != [] && prefix[|prefix| - 1] == '/' && AllDigits(d)
    ensures LastComponent(prefix + d) == d
    decreases |d|
  {
    if d == [] {
      assert prefix + d == prefix;
    } else {
      var init := d[..|d| - 1];
      assert (prefix + d)[..|prefix + d| - 1] == prefix + init;
      LastComponentAfterSlash(prefix, init);
      assert init + [d[|d| - 1]] == d;
    }
  }

  /** An identifier tells its function and its number apart. */
  lemma SiteIdInjective(file: string, f1: string, k1: nat, f2: string, k2: nat)
    requires SiteId(file, f1, k1) == SiteId(file, f2, k2)
    ensures f1 == f2 && k1 == k2
  {
    var p1 := file + "/" + f1 + "/";
    var p2 := file + "/" + f2 + "/";
    assert SiteId(file, f1, k1) == p1 + NatToString(k1);
    assert SiteId(file, f2, k2) == p2 + NatToString(k2);
    LastComponentAfterSlash(p1, NatToString(k1));
    LastComponentAfterSlash(p2, NatToString(k2));
    NatToStringValue(k1);
    NatToStringValue(k2);
    assert p1 == (p1 + NatToString(k1))[..|p1|];
    assert f1 == p1[|file| + 1..|p1| - 1];
    assert f2 == p2[|file| + 1..|p2| - 1];
  }

  lemma IdNumberOf(file: string, func: string, k: nat)
    ensures IdNumber(SiteId(file, func, k)) == k
  {
    LastComponentAfterSlash(file + "/" + func + "/", NatToString(k));
    assert SiteId(file, func, k) == (file + "/" + func + "/") + NatToString(k);
    NatToStringValue(k);
  }

  /** The names of the first n functions of a module. */
  function Names(M: seq<Func>, n: nat): set<string>
    requires n <= |M|
  {
    if n == 0 then {} else Names(M, n - 1) + {M[n - 1].name}
  }

  /** Record k of a list. The facts about the identifiers of a list below are stated
      through it, so that they are used only where a proof names a record this way. */
  function RecAt(recs: seq<InstructionInfo>, k: nat): InstructionInfo
    requires k < |recs|
  {
    recs[k]
  }

  /** Records that each name a function of a given set and carry that function's
      identifier with their own number. */
  predicate NamedIn(recs: seq<InstructionInfo>, file: string, names: set<string>) {
    forall k {:trigger RecAt(recs, k)} :: 0 <= k < |recs| ==>
      && RecAt(recs, k).funcName in names
      && RecAt(recs, k).id == SiteId(file, RecAt(recs, k).funcName, IdNumber(RecAt(recs, k).id))
  }

  /** The records of one function numbered from 0. */
  predicate NumberedFor(recs: seq<InstructionInfo>, file: string, name: string) {
    forall k {:trigger RecAt(recs, k)} :: 0 <= k < |recs| ==>
      RecAt(recs, k).id == SiteId(file, name, k) && RecAt(recs, k).funcName == name
  }

  lemma NamedInAppend(prev: seq<InstructionInfo>, recs: seq<InstructionInfo>, all: seq<InstructionInfo>,
                      file: string, names: set<string>, name: string, allNames: set<string>)
    requires all == prev + recs && allNames == names + {name}
    requires NamedIn(prev, file, names) && NumberedFor(recs, file, name)
    ensures NamedIn(all, file, allNames)
  {
    forall k | 0 <= k < |all|
      ensures RecAt(all, k).funcName in allNames
      ensures RecAt(all, k).id == SiteId(file, RecAt(all, k).funcName, IdNumber(RecAt(all, k).id))
    {
      if k < |prev| {
        assert RecAt(all, k) == RecAt(prev, k);
      } else {
        assert RecAt(all, k) == RecAt(recs, k - |prev|);
        IdNumberOf(file, name, k - |prev|);
      }
    }
  }

  lemma FunctionRecordsNumbered(F: Func, s: Setup)
    ensures NumberedFor(FunctionRecords(F, s, |F.body|), s.file, F.name)
  {
    var recs := FunctionRecords(F, s, |F.body|);
    FunctionRecordIds(F, s, |F.body|);
    forall k | 0 <= k < |recs| ensures RecAt(recs, k).id == SiteId(s.file, F.name, k) && RecAt(recs, k).funcName == F.name {
    }
  }

  /** Every record of a module names one of its functions and carries that function's
      identifier with its own number. */
  lemma {:induction false} ModuleRecordsNamed(M: seq<Func>, s: Setup, n: nat)
    requires n <= |M|
    ensures NamedIn(ModuleRecords(M, s, n), s.file, Names(M, n))
  {
    if n > 0 {
      ModuleRecordsNamed(M, s, n - 1);
      var prev := ModuleRecords(M, s, n - 1);
      assert Names(M, n) == Names(M, n - 1) + {M[n - 1].name};
      if M[n - 1].body != [] {
        var recs := FunctionRecords(M[n - 1], s, |M[n - 1].body|);
        ModuleRecordsSnoc(M, s, n);
        FunctionRecordsNumbered(M[n - 1], s);
        assert ModuleRecords(M, s, n) == prev + recs;
        assert NumberedFor(recs, s.file, M[n - 1].name);
        NamedInAppend(prev, recs, ModuleRecords(M, s, n), s.file, Names(M, n - 1), M[n - 1].name, Names(M, n));
      } else {
        ModuleRecordsSkip(M, s, n);
        NamedInWider(prev, ModuleRecords(M, s, n), s.file, Names(M, n - 1), M[n - 1].name, Names(M, n));
      }
    }
  }

  lemma NamedInWider(recs: seq<InstructionInfo>, same: seq<InstructionInfo>, file: string, names: set<string>,
                     name: string, allNames: set<string>)
    requires same == recs && allNames == names + {name}
    requires NamedIn(recs, file, names)
    ensures NamedIn(same, file, allNames)
  {
    forall k | 0 <= k < |same| ensures RecAt(same, k).funcName in allNames {
      assert RecAt(same, k) == RecAt(recs, k);
    }
  }

  /** Functions of a module have distinct names. */
  predicate DistinctNames(M: seq<Func>) {
    forall i, j :: 0 <= i < j < |M| ==> M[i].name != M[j].name
  }

  lemma {:induction false} NamesBefore(M: seq<Func>, n: nat, i: nat)
    requires n <= i < |M| && DistinctNames(M)
    ensures M[i].name !in Names(M, n)
  {
    if n > 0 {
      NamesBefore(M, n - 1, i);
      assert M[n - 1].name != M[i].name;
    }
  }

  predicate DistinctIds(recs: seq<InstructionInfo>) {
    forall p, q {:trigger RecAt(recs, p), RecAt(recs, q)} :: 0 <= p < q < |recs| ==> RecAt(recs, p).id != RecAt(recs, q).id
  }

  /** The records of one function carry pairwise distinct identifiers. */
  lemma NumberedDistinct(recs: seq<InstructionInfo>, file: string, name: string)
    requires NumberedFor(recs, file, name)
    ensures DistinctIds(recs)
  {
    forall p, q | 0 <= p < q < |recs| ensures RecAt(recs, p).id != RecAt(recs, q).id {
      if RecAt(recs, p).id == RecAt(recs, q).id {
        SiteIdInjective(file, name, p, name, q);
      }
    }
  }

  /** Appending the records of a function whose name no earlier record carries keeps
      the identifiers distinct. */
  lemma DistinctAppend(prev: seq<InstructionInfo>, recs: seq<InstructionInfo>, file: string, names: set<string>, name: string)
    requires DistinctIds(prev) && NamedIn(prev, file, names) && name !in names
    requires NumberedFor(recs, file, name)
    ensures DistinctIds(prev + recs)
  {
    NumberedDistinct(recs, file, name);
    CrossDistinct(prev, recs, file, names, name);
    DistinctConcat(prev, recs);
  }

  /** No record of an earlier function shares its identifier with a record of a
      function with a new name. */
  lemma CrossDistinct(prev: seq<InstructionInfo>, recs: seq<InstructionInfo>, file: string, names: set<string>, name: string)
    requires NamedIn(prev, file, names) && name !in names && NumberedFor(recs, file, name)
    ensures forall p, q {:trigger RecAt(prev, p), RecAt(recs, q)} ::
      0 <= p < |prev| && 0 <= q < |recs| ==> RecAt(prev, p).id != RecAt(recs, q).id
  {
    forall p, q | 0 <= p < |prev| && 0 <= q < |recs| ensures RecAt(prev, p).id != RecAt(recs, q).id {
      DistinctAcross(RecAt(prev, p), RecAt(recs, q), file, names, name, q);
    }
  }

  lemma DistinctConcat(prev: seq<InstructionInfo>, recs: seq<InstructionInfo>)
    requires DistinctIds(prev) && DistinctIds(recs)
    requires forall p, q {:trigger RecAt(prev, p), RecAt(recs, q)} ::
      0 <= p < |prev| && 0 <= q < |recs| ==> RecAt(prev, p).id != RecAt(recs, q).id
    ensures DistinctIds(prev + recs)
  {
    var all := prev + recs;
    forall p, q | 0 <= p < q < |all| ensures RecAt(all, p).id != RecAt(all, q).id {
      if p < |prev| && q >= |prev| {
        assert RecAt(all, p) == RecAt(prev, p) && RecAt(all, q) == RecAt(recs, q - |prev|);
      } else if p >= |prev| {
        assert RecAt(all, p) == RecAt(recs, p - |prev|) && RecAt(all, q) == RecAt(recs, q - |prev|);
      } else {
        assert RecAt(all, p) == RecAt(prev, p) && RecAt(all, q) == RecAt(prev, q);
      }
    }
  }

  /** A record of an earlier function and one of a function with a new name have
      different identifiers. */
  lemma DistinctAcross(a: InstructionInfo, b: InstructionInfo, file: string, names: set<string>, name: string, k: nat)
    requires a.funcName in names && a.id == SiteId(file, a.funcName, IdNumber(a.id))
    requires name !in names && b.id == SiteId(file, name, k)
    ensures a.id != b.id
  {
    if a.id == b.id {
      SiteIdInjective(file, a.funcName, IdNumber(a.id), name, k);
    }
  }

  /** In a module whose functions have distinct names, no two records of the profile
      share an identifier: the identifiers are keys of the profile map. */
  lemma {:induction false} ModuleIdsDistinct(M: seq<Func>, s: Setup, n: nat)
    requires n <= |M| && DistinctNames(M)
    ensures DistinctIds(ModuleRecords(M, s, n))
  {
    if n > 0 {
      ModuleIdsDistinct(M, s, n - 1);
      NamesBefore(M, n - 1, n - 1);
      ModuleIdsNext(M, s, n);
    }
  }

  /** The records of one more function keep the identifiers of a module distinct. */
  lemma ModuleIdsNext(M: seq<Func>, s: Setup, n: nat)
    requires 0 < n <= |M| && M[n - 1].name !in Names(M, n - 1)
    requires DistinctIds(ModuleRecords(M, s, n - 1))
    ensures DistinctIds(ModuleRecords(M, s, n))
  {
    if M[n - 1].body == [] {
      ModuleRecordsSkip(M, s, n);
      return;
    }
    var prev, recs := ModuleRecords(M, s, n - 1), FunctionRecords(M[n - 1], s, |M[n - 1].body|);
    var names, name := Names(M, n - 1), M[n - 1].name;
    ModuleRecordsSnoc(M, s, n);
    ModuleRecordsNamed(M, s, n - 1);
    FunctionRecordsNumbered(M[n - 1], s);
    ModuleIdsStep(prev, recs, ModuleRecords(M, s, n), s.file, names, name);
  }

  lemma ModuleIdsStep(prev: seq<InstructionInfo>, recs: seq<InstructionInfo>, all: seq<InstructionInfo>,
                      file: string, names: set<string>, name: string)
    requires all == prev + recs
    requires DistinctIds(prev) && NamedIn(prev, file, names) && name !in names
    requires NumberedFor(recs, file, name)
    ensures DistinctIds(all)
  {
    DistinctAppend(prev, recs, file, names, name);
  }

  // ---------------------------------------------------------------------------
  // The pass

  /** One more function of the module: the profile grows by its records, if it has a
      body, and the counter ends at its record count. */
  lemma ModuleRecordsStep(base: seq<InstructionInfo>, M: seq<Func>, s: Setup, i: nat, initial: nat,
                          before: seq<InstructionInfo>, counted: nat, after: seq<InstructionInfo>, count: nat)
    requires i < |M|
    requires before == base + ModuleRecords(M, s, i) && counted == CounterAfter(M, s, i, initial)
    requires M[i].body != [] ==>
      after == before + FunctionRecords(M[i], s, |M[i].body|) && count == |FunctionRecords(M[i], s, |M[i].body|)|
    requires M[i].body == [] ==> after == before && count == counted
    ensures after == base + ModuleRecords(M, s, i + 1) && count == CounterAfter(M, s, i + 1, initial)
  {
    if M[i].body != [] {
      ModuleRecordsSnoc(M, s, i + 1);
      AppendAssoc(base, ModuleRecords(M, s, i), FunctionRecords(M[i], s, |M[i].body|));
    } else {
      ModuleRecordsSkip(M, s, i + 1);
    }
  }

  lemma AppendAssoc(a: seq<InstructionInfo>, b: seq<InstructionInfo>, c: seq<InstructionInfo>)
    ensures (a + b) + c == a + (b + c)
  {
  }

  /** The selection options of the pass and the lines of their files, if they could
      be read. */
  datatype Options = Options(includeFile: string, includeLines: Option<seq<string>>,
                             excludeFile: string, excludeLines: Option<seq<string>>, single: string)

  /** What the pass knows of a module besides its functions: the source file name, its
      absolute path, the name function-set modules are matched against, the library
      lookup and regular-expression matching. */
  datatype ModuleEnv = ModuleEnv(file: string, absPath: string, moduleName: string,
                                 library: LibraryLookup, matches: Matcher)

  /** Both function-set files, when named, can be read and are well formed. */
  predicate FilesParse(o: Options, env: ModuleEnv) {
    && (o.includeFile != [] ==>
          o.includeLines.Some? && SelectedFrom(Kinds(o.includeLines.value), 0, o.includeFile, env.moduleName, env.matches).Success?)
    && (o.excludeFile != [] ==>
          o.excludeLines.Some? && SelectedFrom(Kinds(o.excludeLines.value), 0, o.excludeFile, env.moduleName, env.matches).Success?)
  }

  function SetupFor(env: ModuleEnv, o: Options, patterns: (string, string)): Setup {
    Setup(env.file, env.absPath, env.library, patterns.0, patterns.1, o.includeFile, o.excludeFile, env.matches)
  }

  /** `VfclibProfile`: the instruction counter and the records of the profile tree. */
  class ProfilePass {
    /** `instr_cpt`. */
    var instrCpt: nat
    /** The `fops` and `call` children of the profile tree, in order. */
    var profile: seq<InstructionInfo>

    constructor()
      ensures instrCpt == 0 && profile == []
    {
      instrCpt := 0;
      profile := [];
    }

    /** The identifier of `add_instr_metadata`, which post-increments the counter. */
    method NextSiteId(file: string, func: string) returns (id: string)
      modifies this
      ensures id == SiteId(file, func, old(instrCpt))
      ensures instrCpt == old(instrCpt) + 1 && profile == old(profile)
    {
      id := file + "/" + func + "/" + NatToString(instrCpt);
      instrCpt := instrCpt + 1;
    }

    /** `add_fops_metadata` or `add_call_metadata`, and the record added to the tree. */
    method RecordSite(p: Placed, func: string, s: Setup)
      modifies this
      ensures profile == old(profile) + [SiteRecord(p, func, s, old(instrCpt))]
      ensures instrCpt == old(instrCpt) + 1
    {
      var I := p.instr;
      var id := NextSiteId(s.file, func);
      var inputs, outputs := ArgLists(I);
      var kind: SiteKind;
      if I.opcode == Call {
        kind := CallSite(CallInfo(I, s.library));
      } else {
        var width := IsVectorized(I.operands);
        var useFloat, useDouble := HaveFloatingPointArithmetic(I.operands);
        kind := FopsSite(FopsInfo(GetFops(I.opcode), if useDouble then FDouble else FFloat, width, None, None));
      }
      var line := if I.loc.Some? then I.loc.value.line else 0;
      var column := if I.loc.Some? then I.loc.value.column else 0;
      var depth := if p.loop.Some? then p.loop.value.depth else 0;
      var record := InstructionInfo(line, column, depth, 0, |inputs|, |outputs|, id, s.absPath, func,
                                    LoopId(func, p.loop), kind, inputs, outputs);
      profile := profile + [record];
    }

    /** One function of `runOnModule`: the counter restarts at 0, instructions without a
        debug location are skipped, and the instrumentable, included ones are recorded. */
    method ProfileFunction(F: Func, s: Setup)
      modifies this
      ensures profile == old(profile) + FunctionRecords(F, s, |F.body|)
      ensures instrCpt == |FunctionRecords(F, s, |F.body|)|
    {
      instrCpt := 0;
      var k := 0;
      while k < |F.body|
        invariant k <= |F.body|
        invariant profile == old(profile) + FunctionRecords(F, s, k)
        invariant instrCpt == |FunctionRecords(F, s, k)|
      {
        var p := F.body[k];
        FunctionRecordsExtend(old(profile), F, s, k);
        if p.instr.loc.Some? {
          var must := MustInstrument(p.instr);
          if must && IsIncluded(CalledName(p.instr), F.name, s.includeRgx, s.excludeRgx, s.includeFile, s.excludeFile, s.matches) {
            RecordSite(p, F.name, s);
          }
        }
        k := k + 1;
      }
    }

    /** The loop of `runOnModule` over the functions of a module: declarations are
        skipped. */
    method ProfileFunctions(M: seq<Func>, s: Setup)
      modifies this
      ensures profile == old(profile) + ModuleRecords(M, s, |M|)
      ensures instrCpt == CounterAfter(M, s, |M|, old(instrCpt))
    {
      var i := 0;
      assert old(profile) + [] == old(profile);
      while i < |M|
        invariant i <= |M|
        invariant profile == old(profile) + ModuleRecords(M, s, i)
        invariant instrCpt == CounterAfter(M, s, i, old(instrCpt))
      {
        ghost var before, counted := profile, instrCpt;
        if M[i].body != [] {
          ProfileFunction(M[i], s);
        }
        ModuleRecordsStep(old(profile), M, s, i, old(instrCpt), before, counted, profile, instrCpt);
        i := i + 1;
      }
    }

    /** `runOnModule`: the selection patterns, then every defined function in order. A
        function-set file that cannot be read or is malformed is fatal. */
    method RunOnModule(M: seq<Func>, o: Options, env: ModuleEnv) returns (r: Result<(string, string), ProfileError>)
      modifies this
      ensures r.Success? <==> FilesParse(o, env)
      ensures r.Failure? ==> profile == old(profile) && instrCpt == old(instrCpt)
      ensures r.Success? ==> profile == old(profile) + ModuleRecords(M, SetupFor(env, o, r.value), |M|)
      ensures r.Success? ==> instrCpt == CounterAfter(M, SetupFor(env, o, r.value), |M|, old(instrCpt))
      ensures r.Success? && o.single != [] ==> r.value == (o.single, ['.', '*'])
    {
      r := SelectionPatterns(o.includeFile, o.includeLines, o.excludeFile, o.excludeLines, o.single, env.moduleName, env.matches);
      if r.Failure? {
        return;
      }
      var s := SetupFor(env, o, r.value);
      ProfileFunctions(M, s);
    }
  }
}
