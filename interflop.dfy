/** The datatypes of the backend interface (src/common/interflop.h): argument types,
    operation kinds and the per-site instruction record, as a sum type instead of the
    pair of pointers of which exactly one is non-null. */
module Interflop {
  import opened Wrappers

  /** `enum FTYPES`: the argument types handled by function instrumentation. */
  datatype FType = FFloat | FDouble | FFloatPtr | FDoublePtr

  /** `enum Fops`: the kind of floating-point operation recorded for a site. */
  datatype Fops = FopAdd | FopSub | FopMul | FopDiv | FopCmp | FopIgnore

  /** The four arithmetic operators the backends intercept. */
  datatype Op = Add | Sub | Mul | Div

  /** `interflop_arg_info_t`, without the unused min/max/mean statistics. */
  datatype ArgInfo = ArgInfo(argType: FType, precision: nat, range: nat, argSize: nat, argName: string)

  /** `interflop_fops_info_t`. The profiling pass writes only the kind, the data type
      and the vector size of an operation; precision and range stay unset (`None`) in
      the records it produces, and are present in a registry that has been loaded for
      a run. */
  datatype FopsInfo = FopsInfo(kind: Fops, dataType: FType, vectorSize: nat,
                               precision: Option<nat>, range: Option<nat>)

  /** `interflop_function_info_t`. */
  datatype FunctionInfo = FunctionInfo(calledName: string, libraryName: string)

  /** Exactly one of `fopsInfo` / `functionInfo` is present in a well-formed record. */
  datatype SiteKind = FopsSite(fops: FopsInfo) | CallSite(call: FunctionInfo)

  /** `interflop_instruction_info_t`. */
  datatype InstructionInfo = InstructionInfo(
    line: nat, column: nat, depth: nat, nbExec: nat, nbInput: nat, nbOutput: nat,
    id: string, filePath: string, funcName: string, loopId: string,
    kind: SiteKind, inputArgs: seq<ArgInfo>, outputArgs: seq<ArgInfo>)

  /** The profile map from site identifier to record, read-only once loaded. */
  type Registry = map<string, InstructionInfo>
}
