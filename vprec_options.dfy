/** The VPREC backend's configuration: the global precision, range and mode settings
    with their bounds-checking setters, the option parser (`parse_opt`) with its
    case-insensitive keyword tables and numeric arguments, and `init_context`. */
module VprecOptions {
  import opened Wrappers
  import opened Arith
  import opened FloatBits
  import opened Decimal
  import opened VprecRound
  import opened VprecDispatch

  /** ASCII `tolower`, the folding `strcasecmp` applies to each byte. */
  function ToLower(c: char): (r: char)
    ensures 'A' <= c <= 'Z' ==> r as int == c as int + 32
    ensures !('A' <= c <= 'Z') ==> r == c
  {
    if 'A' <= c <= 'Z' then (c as int + 32) as char else c
  }

  /** `strcasecmp(name, arg) == 0`. */
  predicate EqualsIgnoreCase(name: string, arg: string) {
    |name| == |arg| && forall i :: 0 <= i < |name| ==> ToLower(name[i]) == ToLower(arg[i])
  }

  /** `VPREC_MODE_STR`. */
  function ModeName(m: Mode): string {
    match m
    case Ieee => "ieee"
    case Full => "full"
    case Ib => "ib"
    case Ob => "ob"
  }

  predicate IsLowercase(name: string) {
    forall i :: 0 <= i < |name| ==> ToLower(name[i]) == name[i]
  }

  /** Two lower-case names that both match an argument are the same name. */
  lemma EqualsIgnoreCaseUnique(a: string, b: string, arg: string)
    requires IsLowercase(a) && IsLowercase(b) && EqualsIgnoreCase(a, arg) && EqualsIgnoreCase(b, arg)
    ensures a == b
  {
    assert forall i :: 0 <= i < |a| ==> a[i] == b[i];
  }

  /** The `--mode` keyword lookup: a mode exactly when the argument spells its name in
      any letter case. */
  function ModeOfString(arg: string): (r: Option<Mode>)
    ensures forall m :: r == Some(m) <==> EqualsIgnoreCase(ModeName(m), arg)
  {
    ModeNamesMatchOnce(arg);
    if EqualsIgnoreCase("ieee", arg) then Some(Ieee)
    else if EqualsIgnoreCase("full", arg) then Some(Full)
    else if EqualsIgnoreCase("ib", arg) then Some(Ib)
    else if EqualsIgnoreCase("ob", arg) then Some(Ob)
    else None
  }

  /** The three error modes and the context flags each one sets. */
  datatype ErrMode = Rel | Abs | All

  /** `VPREC_ERR_MODE_STR`. */
  function ErrModeName(e: ErrMode): string {
    match e
    case Rel => "rel"
    case Abs => "abs"
    case All => "all"
  }

  /** (relErr, absErr) after `--error-mode`: rel is (true, false), abs (false, true),
      all (true, true). */
  function ErrModeFlags(e: ErrMode): (r: (bool, bool))
    ensures r.0 <==> e != Abs
    ensures r.1 <==> e != Rel
  {
    match e
    case Rel => (true, false)
    case Abs => (false, true)
    case All => (true, true)
  }

  function ErrModeOfString(arg: string): (r: Option<ErrMode>)
    ensures forall e :: r == Some(e) <==> EqualsIgnoreCase(ErrModeName(e), arg)
  {
    ErrModeNamesMatchOnce(arg);
    if EqualsIgnoreCase("rel", arg) then Some(Rel)
    else if EqualsIgnoreCase("abs", arg) then Some(Abs)
    else if EqualsIgnoreCase("all", arg) then Some(All)
    else None
  }

  /** `VPREC_INST_MODE_STR`. */
  function InstModeName(m: InstMode): string {
    match m
    case InstArguments => "arguments"
    case InstOperations => "operations"
    case InstAll => "all"
    case InstNone => "none"
  }

  function InstModeOfString(arg: string): (r: Option<InstMode>)
    ensures forall m :: r == Some(m) <==> EqualsIgnoreCase(InstModeName(m), arg)
  {
    InstModeNamesMatchOnce(arg);
    if EqualsIgnoreCase("arguments", arg) then Some(InstArguments)
    else if EqualsIgnoreCase("operations", arg) then Some(InstOperations)
    else if EqualsIgnoreCase("all", arg) then Some(InstAll)
    else if EqualsIgnoreCase("none", arg) then Some(InstNone)
    else None
  }

  lemma ModeNamesMatchOnce(arg: string)
    ensures forall m, m' :: EqualsIgnoreCase(ModeName(m), arg) && EqualsIgnoreCase(ModeName(m'), arg) ==> m == m'
  {
    forall m, m' | EqualsIgnoreCase(ModeName(m), arg) && EqualsIgnoreCase(ModeName(m'), arg) {
      EqualsIgnoreCaseUnique(ModeName(m), ModeName(m'), arg);
    }
  }

  lemma ErrModeNamesMatchOnce(arg: string)
    ensures forall e, e' :: EqualsIgnoreCase(ErrModeName(e), arg) && EqualsIgnoreCase(ErrModeName(e'), arg) ==> e == e'
  {
    forall e, e' | EqualsIgnoreCase(ErrModeName(e), arg) && EqualsIgnoreCase(ErrModeName(e'), arg) {
      EqualsIgnoreCaseUnique(ErrModeName(e), ErrModeName(e'), arg);
    }
  }

  lemma InstModeNamesMatchOnce(arg: string)
    ensures forall m, m' :: EqualsIgnoreCase(InstModeName(m), arg) && EqualsIgnoreCase(InstModeName(m'), arg) ==> m == m'
  {
    forall m, m' | EqualsIgnoreCase(InstModeName(m), arg) && EqualsIgnoreCase(InstModeName(m'), arg) {
      EqualsIgnoreCaseUnique(InstModeName(m), InstModeName(m'), arg);
    }
  }

  /** The keyword tables accept each name whatever the case of its letters. */
  lemma {:induction false} KeywordsIgnoreCase(m: Mode, e: ErrMode, im: InstMode, upper: string)
    requires |upper| == |ModeName(m)| && forall i :: 0 <= i < |upper| ==> ToLower(upper[i]) == ModeName(m)[i]
    ensures ModeOfString(upper) == Some(m)
    ensures ModeOfString(ModeName(m)) == Some(m)
    ensures ErrModeOfString(ErrModeName(e)) == Some(e)
    ensures InstModeOfString(InstModeName(im)) == Some(im)
  {
    LowerNames(m);
    assert EqualsIgnoreCase(ModeName(m), upper);
  }

  lemma LowerNames(m: Mode)
    ensures forall i :: 0 <= i < |ModeName(m)| ==> ToLower(ModeName(m)[i]) == ModeName(m)[i]
  {
  }

  /** The fatal errors of the configuration code, and argp's "unknown key" answer. */
  datatype OptionError =
    | InvalidModeCode(code: nat)
    | InvalidInstModeCode(code: nat)
    | PrecisionTooSmall(f: Format, value: int)
    | PrecisionTooLarge(f: Format, value: int)
    | RangeTooSmall(f: Format, value: int)
    | RangeTooLarge(f: Format, value: int)
    | LogFileUnwritable(name: string)
    | OptionNotPositive(key: OptionKey)
    | OptionTooLarge(key: OptionKey)
    | OptionNotAnInteger(key: OptionKey)
    | UnknownMode(arg: string)
    | UnknownErrMode(arg: string)
    | UnknownInstMode(arg: string)
    | UnknownKey

  /** The option keys of `parse_opt`. */
  datatype OptionKey =
    | KeyPrecB32 | KeyPrecB64 | KeyRangeB32 | KeyRangeB64
    | KeyInputFile | KeyOutputFile | KeyLogFile
    | KeyMode | KeyErrMode | KeyErrExp | KeyInstrument | KeyDaz | KeyFtz
    | KeyOther

  /** The order of `vprec_mode`: ieee, full, ib, ob. */
  function ModeOfCode(code: nat): Mode
    requires code < 4
  {
    [Ieee, Full, Ib, Ob][code]
  }

  /** The order of `vprec_inst_mode`: arguments, operations, all, none. */
  function InstModeOfCode(code: nat): InstMode
    requires code < 4
  {
    [InstArguments, InstOperations, InstAll, InstNone][code]
  }

  /** `init_context`: relative error only, threshold exponent -DOUBLE_EXP_MIN, no flushing. */
  function InitContext(doubleExpMin: int): (ctx: Context)
    ensures ctx.relErr && !ctx.absErr && !ctx.daz && !ctx.ftz
    ensures ctx.absErrExp + doubleExpMin == 0
  {
    Context(true, false, -doubleExpMin, false, false)
  }

  /** The numeric value of an option argument as `parse_opt` obtains it:
      `int val = strtol(arg, &endptr, 10)`, together with whether errno was set. */
  function ParseIntAsWritten(arg: string): (int, bool) {
    var r := Strtol(arg);
    (LongToInt(r.value), r.outOfRange)
  }

  /** The numeric value of an option argument, refusing any text whose number does not
      fit the `int` it is stored in. */
  function ParseInt(arg: string): (r: Option<int>)
    ensures r.Some? <==> !Strtol(arg).outOfRange && IntMin <= Strtol(arg).value <= IntMax
    ensures r.Some? ==> r.value == Strtol(arg).value
    ensures r.Some? ==> r.value == ParseIntAsWritten(arg).0 && !ParseIntAsWritten(arg).1
  {
    var l := Strtol(arg);
    if l.outOfRange || l.value < IntMin || l.value > IntMax then None else Some(l.value)
  }

  /** The accepted precisions: 1 to the native significand width. */
  predicate PrecisionOk(f: Format, p: int) { 1 <= p <= PmanSize(f) }

  /** The accepted ranges: 2 to the native exponent width. */
  predicate RangeOk(f: Format, r: int) { 2 <= r <= ExpSize(f) }

  /** The precision check of `parse_opt` on the value as it reads it. */
  function CheckPrecisionAsWritten(f: Format, arg: string): (r: Result<int, OptionError>) {
    var (val, erange) := ParseIntAsWritten(arg);
    var key := if f == Binary32 then KeyPrecB32 else KeyPrecB64;
    if erange || val < 1 then Failure(OptionNotPositive(key))
    else if val > PmanSize(f) then Failure(OptionTooLarge(key))
    else Success(val)
  }

  /** A number k * 2^32 + c that `strtol` reads without error is stored in `int val` as c,
      where the check on the number the text denotes refuses it as beyond `int`. */
  lemma IntWrapsAround(k: int, c: int)
    requires 1 <= k && IntMin <= c <= IntMax && k * 0x1_0000_0000 + c <= LongMax
    ensures ParseIntAsWritten(IntToString(k * 0x1_0000_0000 + c)) == (c, false)
    ensures ParseInt(IntToString(k * 0x1_0000_0000 + c)).None?
    ensures Strtol(IntToString(k * 0x1_0000_0000 + c)).value == k * 0x1_0000_0000 + c
  {
    var v := k * 0x1_0000_0000 + c;
    StrtolOfIntToString([], v, []);
    assert [] + IntToString(v) + [] == IntToString(v);
    MulAtLeast(k, 0x1_0000_0000);
    ModAddMultiple(c - IntMin, k, 0x1_0000_0000);
    assert v - IntMin == (c - IntMin) + k * 0x1_0000_0000;
    assert LongToInt(v) == c;
  }

  /** The `int` conversion lets a precision of k * 2^32 + 23 (for instance 4294967319)
      through as 23, where the check on the number the text denotes refuses it. */
  lemma PrecisionWrapsAround(k: int)
    requires 1 <= k && k * 0x1_0000_0000 + 23 <= LongMax
    ensures !PrecisionOk(Binary32, k * 0x1_0000_0000 + 23)
    ensures CheckPrecisionAsWritten(Binary32, IntToString(k * 0x1_0000_0000 + 23)) == Success(23)
    ensures CheckPrecision(Binary32, IntToString(k * 0x1_0000_0000 + 23)).Failure?
  {
    IntWrapsAround(k, 23);
  }

  /** The range check of `parse_opt` on the value as it reads it. */
  function CheckRangeAsWritten(f: Format, arg: string): (r: Result<int, OptionError>)
    ensures r.Success? <==> !ParseIntAsWritten(arg).1 && RangeOk(f, ParseIntAsWritten(arg).0)
    ensures r.Success? ==> r.value == ParseIntAsWritten(arg).0
  {
    var (val, erange) := ParseIntAsWritten(arg);
    var key := if f == Binary32 then KeyRangeB32 else KeyRangeB64;
    if erange || val < 2 then Failure(OptionNotPositive(key))
    else if val > ExpSize(f) then Failure(OptionTooLarge(key))
    else Success(val)
  }

  /** The same conversion lets a range of k * 2^32 + 8 (for instance 4294967304) through
      as 8. */
  lemma RangeWrapsAround(k: int)
    requires 1 <= k && k * 0x1_0000_0000 + 8 <= LongMax
    ensures !RangeOk(Binary32, k * 0x1_0000_0000 + 8)
    ensures CheckRangeAsWritten(Binary32, IntToString(k * 0x1_0000_0000 + 8)) == Success(8)
    ensures CheckRange(Binary32, IntToString(k * 0x1_0000_0000 + 8)).Failure?
  {
    IntWrapsAround(k, 8);
  }

  /** The error exponent as `parse_opt` stores it: the `int` value of the `strtol`
      result, fatal only when errno is set. */
  function ErrExpAsWritten(arg: string): (r: Result<int, OptionError>)
    ensures r.Success? <==> !Strtol(arg).outOfRange
    ensures r.Success? ==> IntMin <= r.value <= IntMax && (r.value - Strtol(arg).value) % 0x1_0000_0000 == 0
  {
    var (val, erange) := ParseIntAsWritten(arg);
    if erange then Failure(OptionNotAnInteger(KeyErrExp)) else Success(val)
  }

  /** The conversion makes an error exponent of k * 2^32 (for instance 4294967296) a
      threshold of 2^0, where the number the text denotes is refused. */
  lemma ErrExpWrapsAround(k: int)
    requires 1 <= k && k * 0x1_0000_0000 <= LongMax
    ensures ErrExpAsWritten(IntToString(k * 0x1_0000_0000)) == Success(0)
    ensures ParseInt(IntToString(k * 0x1_0000_0000)).None?
  {
    IntWrapsAround(k, 0);
  }

  /** The precision check on the number the text denotes. */
  function CheckPrecision(f: Format, arg: string): (r: Result<int, OptionError>)
    ensures r.Success? <==> !Strtol(arg).outOfRange && PrecisionOk(f, Strtol(arg).value)
    ensures r.Success? ==> r.value == Strtol(arg).value
  {
    var key := if f == Binary32 then KeyPrecB32 else KeyPrecB64;
    match ParseInt(arg)
    case None => Failure(OptionNotAnInteger(key))
    case Some(val) =>
      if val < 1 then Failure(OptionNotPositive(key))
      else if val > PmanSize(f) then Failure(OptionTooLarge(key))
      else Success(val)
  }

  /** The range check on the number the text denotes. */
  function CheckRange(f: Format, arg: string): (r: Result<int, OptionError>)
    ensures r.Success? <==> !Strtol(arg).outOfRange && RangeOk(f, Strtol(arg).value)
    ensures r.Success? ==> r.value == Strtol(arg).value
  {
    var key := if f == Binary32 then KeyRangeB32 else KeyRangeB64;
    match ParseInt(arg)
    case None => Failure(OptionNotAnInteger(key))
    case Some(val) =>
      if val < 2 then Failure(OptionNotPositive(key))
      else if val > ExpSize(f) then Failure(OptionTooLarge(key))
      else Success(val)
  }

  /** Where the two precision checks agree: on every text whose number fits an `int`. */
  lemma CheckPrecisionAgreesInIntRange(f: Format, arg: string)
    requires !Strtol(arg).outOfRange && IntMin <= Strtol(arg).value <= IntMax
    ensures CheckPrecision(f, arg) == CheckPrecisionAsWritten(f, arg)
  {
  }

  /** The backend's global settings (`VPRECLIB_*`, `VPREC_INST_MODE`) and file names. */
  class VprecGlobals {
    var mode: Mode
    var instMode: InstMode
    var b32Precision: int
    var b32Range: int
    var b64Precision: int
    var b64Range: int
    var inputFile: Option<string>
    var outputFile: Option<string>
    var logFile: Option<string>

    function Snapshot(): (s: Settings)
      reads this
    {
      Settings(mode, instMode, b32Precision, b32Range, b64Precision, b64Range)
    }

    predicate Valid()
      reads this
    {
      ValidSettings(Snapshot())
    }

    function Precision(f: Format): int
      reads this
    {
      if f == Binary32 then b32Precision else b64Precision
    }

    function Range(f: Format): int
      reads this
    {
      if f == Binary32 then b32Range else b64Range
    }

    /** The defaults: mode ob, no instrumentation, the native precisions and ranges. */
    constructor ()
      ensures Valid()
      ensures mode == Ob && instMode == InstNone
      ensures b32Precision == PmanSize(Binary32) && b32Range == ExpSize(Binary32)
      ensures b64Precision == PmanSize(Binary64) && b64Range == ExpSize(Binary64)
      ensures inputFile.None? && outputFile.None? && logFile.None?
    {
      mode := Ob;
      instMode := InstNone;
      b32Precision := 23;
      b32Range := 8;
      b64Precision := 52;
      b64Range := 11;
      inputFile := None;
      outputFile := None;
      logFile := None;
    }

    /** `_set_vprec_mode`. */
    method SetMode(code: nat) returns (o: Outcome<OptionError>)
      modifies this
      ensures code < 4 ==> o == Pass && Snapshot() == old(Snapshot()).(mode := ModeOfCode(code))
      ensures code >= 4 ==> o == Fail(InvalidModeCode(code)) && Snapshot() == old(Snapshot())
      ensures inputFile == old(inputFile) && outputFile == old(outputFile) && logFile == old(logFile)
    {
      if code >= 4 {
        return Fail(InvalidModeCode(code));
      }
      mode := ModeOfCode(code);
      return Pass;
    }

    /** `_set_vprec_inst_mode`. */
    method SetInstMode(code: nat) returns (o: Outcome<OptionError>)
      modifies this
      ensures code < 4 ==> o == Pass && Snapshot() == old(Snapshot()).(instMode := InstModeOfCode(code))
      ensures code >= 4 ==> o == Fail(InvalidInstModeCode(code)) && Snapshot() == old(Snapshot())
      ensures inputFile == old(inputFile) && outputFile == old(outputFile) && logFile == old(logFile)
    {
      if code >= 4 {
        return Fail(InvalidInstModeCode(code));
      }
      instMode := InstModeOfCode(code);
      return Pass;
    }

    /** `_set_vprec_precision_binary32/64`: accepts exactly 1..23 or 1..52; anything
        else is fatal and leaves the setting unchanged. */
    method SetPrecision(f: Format, precision: int) returns (o: Outcome<OptionError>)
      modifies this
      ensures PrecisionOk(f, precision) ==> (o == Pass &&
        Snapshot() == (if f == Binary32 then old(Snapshot()).(b32Precision := precision)
                       else old(Snapshot()).(b64Precision := precision)))
      ensures precision < 1 ==> o == Fail(PrecisionTooSmall(f, precision)) && Snapshot() == old(Snapshot())
      ensures precision > PmanSize(f) ==> o == Fail(PrecisionTooLarge(f, precision)) && Snapshot() == old(Snapshot())
      ensures old(Valid()) ==> Valid()
      ensures inputFile == old(inputFile) && outputFile == old(outputFile) && logFile == old(logFile)
    {
      if precision < 1 {
        return Fail(PrecisionTooSmall(f, precision));
      } else if precision > PmanSize(f) {
        return Fail(PrecisionTooLarge(f, precision));
      }
      if f == Binary32 {
        b32Precision := precision;
      } else {
        b64Precision := precision;
      }
      return Pass;
    }

    /** `_set_vprec_range_binary32/64`: accepts exactly 2..8 or 2..11. */
    method SetRange(f: Format, range: int) returns (o: Outcome<OptionError>)
      modifies this
      ensures RangeOk(f, range) ==> (o == Pass &&
        Snapshot() == (if f == Binary32 then old(Snapshot()).(b32Range := range)
                       else old(Snapshot()).(b64Range := range)))
      ensures range < 2 ==> o == Fail(RangeTooSmall(f, range)) && Snapshot() == old(Snapshot())
      ensures range > ExpSize(f) ==> o == Fail(RangeTooLarge(f, range)) && Snapshot() == old(Snapshot())
      ensures old(Valid()) ==> Valid()
      ensures inputFile == old(inputFile) && outputFile == old(outputFile) && logFile == old(logFile)
    {
      if range < 2 {
        return Fail(RangeTooSmall(f, range));
      } else if range > ExpSize(f) {
        return Fail(RangeTooLarge(f, range));
      }
      if f == Binary32 {
        b32Range := range;
      } else {
        b64Range := range;
      }
      return Pass;
    }

    /** `parse_opt(key, arg, state)`: one option applied to the globals and to the
        context. `logOpened` is whether `fopen` of a log file succeeds. Numeric arguments go
        through the corrected checks `CheckPrecision`, `CheckRange` and `ParseInt`, which
        refuse numbers beyond `int` instead of wrapping them. */
    method ParseOpt(key: OptionKey, arg: string, ctx: Context, logOpened: bool)
      returns (ctx': Context, o: Outcome<OptionError>)
      requires Valid()
      modifies this
      ensures Valid()
      // the numeric settings change exactly when the argument denotes an accepted value
      ensures key == KeyPrecB32 || key == KeyPrecB64 ==>
        var f := if key == KeyPrecB32 then Binary32 else Binary64;
        ctx' == ctx &&
        (if CheckPrecision(f, arg).Success? then
           o == Pass &&
           Snapshot() == (if f == Binary32 then old(Snapshot()).(b32Precision := Strtol(arg).value)
                          else old(Snapshot()).(b64Precision := Strtol(arg).value))
         else o == Fail(CheckPrecision(f, arg).error) && Snapshot() == old(Snapshot()))
      ensures key == KeyRangeB32 || key == KeyRangeB64 ==>
        var f := if key == KeyRangeB32 then Binary32 else Binary64;
        ctx' == ctx &&
        (if CheckRange(f, arg).Success? then
           o == Pass &&
           Snapshot() == (if f == Binary32 then old(Snapshot()).(b32Range := Strtol(arg).value)
                          else old(Snapshot()).(b64Range := Strtol(arg).value))
         else o == Fail(CheckRange(f, arg).error) && Snapshot() == old(Snapshot()))
      // keyword options: the case-insensitive tables, anything else is fatal
      ensures key == KeyMode ==> (ctx' == ctx &&
        (if ModeOfString(arg).Some? then o == Pass && Snapshot() == old(Snapshot()).(mode := ModeOfString(arg).value)
         else o == Fail(UnknownMode(arg)) && Snapshot() == old(Snapshot())))
      ensures key == KeyInstrument ==> (ctx' == ctx &&
        (if InstModeOfString(arg).Some? then o == Pass && Snapshot() == old(Snapshot()).(instMode := InstModeOfString(arg).value)
         else o == Fail(UnknownInstMode(arg)) && Snapshot() == old(Snapshot())))
      ensures key == KeyErrMode ==> (Snapshot() == old(Snapshot()) &&
        (if ErrModeOfString(arg).Some? then
           var (rel, abs) := ErrModeFlags(ErrModeOfString(arg).value);
           o == Pass && ctx' == ctx.(relErr := rel, absErr := abs)
         else o == Fail(UnknownErrMode(arg)) && ctx' == ctx))
      ensures key == KeyErrExp ==> (Snapshot() == old(Snapshot()) &&
        (if ParseInt(arg).Some? then o == Pass && ctx' == ctx.(absErrExp := ParseInt(arg).value)
         else o == Fail(OptionNotAnInteger(KeyErrExp)) && ctx' == ctx))
      // the flags and the file names
      ensures key == KeyDaz ==> o == Pass && ctx' == ctx.(daz := true) && Snapshot() == old(Snapshot())
      ensures key == KeyFtz ==> o == Pass && ctx' == ctx.(ftz := true) && Snapshot() == old(Snapshot())
      ensures key == KeyInputFile ==> o == Pass && ctx' == ctx && inputFile == Some(arg) && Snapshot() == old(Snapshot())
      ensures key == KeyOutputFile ==> o == Pass && ctx' == ctx && outputFile == Some(arg) && Snapshot() == old(Snapshot())
      ensures key == KeyLogFile ==> (ctx' == ctx && Snapshot() == old(Snapshot()) &&
        (if logOpened then o == Pass && logFile == Some(arg) else o == Fail(LogFileUnwritable(arg)) && logFile.None?))
      ensures key == KeyOther ==> o == Fail(UnknownKey) && ctx' == ctx && Snapshot() == old(Snapshot())
      // each file name changes only under its own key
      ensures key != KeyInputFile ==> inputFile == old(inputFile)
      ensures key != KeyOutputFile ==> outputFile == old(outputFile)
      ensures key != KeyLogFile ==> logFile == old(logFile)
    {
      ctx' := ctx;
      o := Pass;
      match key {
        case KeyPrecB32 =>
          o := SetPrecisionOption(Binary32, arg);
        case KeyPrecB64 =>
          o := SetPrecisionOption(Binary64, arg);
        case KeyRangeB32 =>
          o := SetRangeOption(Binary32, arg);
        case KeyRangeB64 =>
          o := SetRangeOption(Binary64, arg);
        case KeyInputFile =>
          inputFile := Some(arg);
        case KeyOutputFile =>
          outputFile := Some(arg);
        case KeyLogFile =>
          if logOpened {
            logFile := Some(arg);
          } else {
            logFile := None;
            o := Fail(LogFileUnwritable(arg));
          }
        case KeyMode =>
          var m := ModeOfString(arg);
          if m.Some? {
            mode := m.value;
          } else {
            o := Fail(UnknownMode(arg));
          }
        case KeyErrMode =>
          var e := ErrModeOfString(arg);
          if e.Some? {
            var (rel, abs) := ErrModeFlags(e.value);
            ctx' := ctx.(relErr := rel, absErr := abs);
          } else {
            o := Fail(UnknownErrMode(arg));
          }
        case KeyErrExp =>
          var v := ParseInt(arg);
          if v.Some? {
            ctx' := ctx.(absErrExp := v.value);
          } else {
            o := Fail(OptionNotAnInteger(KeyErrExp));
          }
        case KeyInstrument =>
          var m := InstModeOfString(arg);
          if m.Some? {
            instMode := m.value;
          } else {
            o := Fail(UnknownInstMode(arg));
          }
        case KeyDaz =>
          ctx' := ctx.(daz := true);
        case KeyFtz =>
          ctx' := ctx.(ftz := true);
        case KeyOther =>
          o := Fail(UnknownKey);
      }
    }

    /** The precision options: the checked value handed to the setter. */
    method SetPrecisionOption(f: Format, arg: string) returns (o: Outcome<OptionError>)
      requires Valid()
      modifies this
      ensures Valid()
      ensures CheckPrecision(f, arg).Success? ==> (o == Pass &&
        Snapshot() == (if f == Binary32 then old(Snapshot()).(b32Precision := Strtol(arg).value)
                       else old(Snapshot()).(b64Precision := Strtol(arg).value)))
      ensures CheckPrecision(f, arg).Failure? ==> o == Fail(CheckPrecision(f, arg).error) && Snapshot() == old(Snapshot())
      ensures inputFile == old(inputFile) && outputFile == old(outputFile) && logFile == old(logFile)
    {
      var r := CheckPrecision(f, arg);
      if r.Failure? {
        return Fail(r.error);
      }
      o := SetPrecision(f, r.value);
    }

    /** The range options: the checked value handed to the setter. */
    method SetRangeOption(f: Format, arg: string) returns (o: Outcome<OptionError>)
      requires Valid()
      modifies this
      ensures Valid()
      ensures CheckRange(f, arg).Success? ==> (o == Pass &&
        Snapshot() == (if f == Binary32 then old(Snapshot()).(b32Range := Strtol(arg).value)
                       else old(Snapshot()).(b64Range := Strtol(arg).value)))
      ensures CheckRange(f, arg).Failure? ==> o == Fail(CheckRange(f, arg).error) && Snapshot() == old(Snapshot())
      ensures inputFile == old(inputFile) && outputFile == old(outputFile) && logFile == old(logFile)
    {
      var r := CheckRange(f, arg);
      if r.Failure? {
        return Fail(r.error);
      }
      o := SetRange(f, r.value);
    }
  }
}
