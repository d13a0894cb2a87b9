# verificarlo: VPREC, function instrumentation, analysis, profiling and instrumentation passes

This project models the decision logic of five components of verificarlo, a tool that replaces
the floating-point operations of a program by calls into run-time backends. It proves in Dafny
what each component promises.

- **The VPREC backend** (`interflop_vprec.c`) emulates reduced precision and exponent range.
  - `RoundValue` is the range check of `_vprec_round_binary32/64`: overflow to a signed infinity, underflow through DAZ/FTZ or denormal rounding, and the relative and absolute error modes.
  - `BinaryOp` is the mode matrix of `_vprec_binary*_binary_op`: ieee/full/ib/ob crossed with the instrumentation mode and the profile lookup.
  - `RoundArg`, `EnterFunction` and `ExitFunction` round arguments in place at function boundaries.
  - `VprecGlobals` holds the global settings. It carries the setters and the option parser.
  - Values are IEEE 754-2008 binary32/binary64 fields (section 3.4 of IEEE 754-2008): sign, biased exponent and trailing significand.
  - The bit-rounding primitives and the hardware operation are parameters (`Primitives`). Every contract therefore holds for any implementation of them.
- **The function-instrumentation runtime** (`funcinstr.c`) keeps a chained hash table of per-function records and a call stack.
  - The table has 100 buckets. Each bucket is a growable array that is stored in an `array` and updated in place.
  - The hash is 31-polynomial with 64-bit wrap-around.
  - `vfc_enter_function` inserts a record or counts a call. `vfc_exit_function` pops the stack.
  - The text format of the table file is modelled with a round trip from printing to loading.
- **The numerical-analysis backend** (`interflop_analysis.c`) does the following:
  - classifies effective additions and subtractions;
  - computes cancellation and absorption amounts from exponents;
  - accumulates min/max/sum/count statistics into the records of the profile, in place.
- **The profiling pass** (`libVFCProfile.cpp`) covers:
  - the string helpers `findAndReplaceAll`/`escape_regex`;
  - the include/exclude function-set files and the `isIncluded` precedence rule;
  - the classification of instructions and of their floating-point arguments;
  - the site identifiers `file/function/n`.

  An LLVM module is a sequence of functions whose bodies are instructions with their loop. The pass object (`ProfilePass`) holds the instruction counter and the profile records.
- **The instrumentation pass** (`libVFCInstrument.cpp`) covers:
  - the white-list/black-list selection of functions;
  - `mustReplace` and the hook names of `replaceWithMCACall`, which are proved to be exactly the arithmetic wrappers of `src/vfcwrapper/vfcwrapper.c`;
  - the in-place rewriting of basic blocks with its `modified` flag (`VfclibInst` over a `Module` object).

A fatal error (`logger_error`, `report_fatal_error`, `assert(0)`, `abort()`) is a `Failure`/`Fail` outcome. Reading files, opening files and regular-expression matching are parameters of the operations that use them.

Where the code and its documentation disagree, the model follows the code. The defects listed under "## Findings" are the exception: each is modelled as written by its own member, and the operations built on top of it use the corrected member instead.
- `VprecGlobals.ParseOpt` uses the corrected numeric checks `CheckPrecision`, `CheckRange` and `ParseInt`.
- The profiling pass (`SiteRecord`, `RecordSite`, `ProfileFunction`, `ProfileFunctions`, `RunOnModule`) builds call records with the corrected `CallInfo`.
- `FuncInstrFile.Init` takes the line reader as a parameter. The source's reader is `ReadLineAsWritten`, and the round trip `ReloadPrintedTable` holds for the corrected `ReadLine`.

Two more places where the code differs from what its documentation suggests:
- `_vfc_pop_function` (`src/vfcwrapper/funcinstr.c:195-204`) returns the entry it removed, read at the decremented index, and not the new top. Only once the stack is empty does it return NULL.
- `_vfc_del_function` (`src/vfcwrapper/funcinstr.c:43-52`) does return the new last entry.

Module layout (one file per module):
- Shared modules: `wrappers.dfy` (Option/Result/Outcome), `arith.dfy` (powers of two, division facts), `floatbits.dfy` (IEEE fields and encodings), `decimal.dfy` (`%d`, `std::to_string`, `strtol`), `interflop.dfy` (the profile record types of `interflop.h`).
- VPREC backend: `vprec_round.dfy`, `vprec_dispatch.dfy`, `vprec_options.dfy`.
- Function-instrumentation runtime: `funcinstr.dfy`, `funcinstr_file.dfy`.
- Analysis backend: `analysis.dfy`.
- Profiling pass: `profile_strings.dfy`, `profile_select.dfy`, `profile.dfy`.
- Instrumentation pass: `instrument.dfy`.

## Model

| member | source | states |
|---|---|---|
| FloatBits.Bias | src/backends/interflop-vprec/interflop_vprec.c:126-139 | The exponent bias of each format is 2^(exponent width - 1) - 1: 127 for 8 bits, 1023 for 11 bits. |
| FloatBits.ExtractExponentOfBits | src/backends/interflop-vprec/interflop_vprec.c:452-453 | Masking the exponent bits of an encoding, shifting them down and subtracting the bias gives the decoded exponent of the value (binary64 twin at 514-515). |
| FloatBits.DecodeEncode | src/backends/interflop-vprec/interflop_vprec.c:452-453 | Decoding the bit pattern of a well-formed value gives back its sign, exponent field and significand. |
| FloatBits.EncodeDecode | src/backends/interflop-vprec/interflop_vprec.c:452-453 | Every bit pattern of the format's width is the encoding of the fields decoded from it. |
| FloatBits.LessThanZero | src/backends/interflop-analysis/interflop_analysis.c:95-96 | `b < 0` holds exactly for negative values other than -0 and NaN. |
| FloatBits.Min | src/backends/interflop-analysis/interflop_analysis.c:94 | The `min` macro yields one of its arguments, and the first when it compares less. |
| FloatBits.SignedPow2 | src/backends/interflop-vprec/interflop_vprec.c:371 | `copysign(exp2(e), a)` carries a's sign and is well formed. It is exactly 2^e when e is in the normal range and infinity above it. |
| Decimal.DigitChar | src/vfcwrapper/funcinstr.c:148 | A digit below ten is written as the character whose digit value it is. |
| Decimal.NatToString | src/libvfcprofile/libVFCProfile.cpp:186 | `std::to_string`/`%d` of a non-negative number is a non-empty string of digits without a leading zero. |
| Decimal.NatToStringValue | src/libvfcprofile/libVFCProfile.cpp:286 | The digits written for n denote n, so the number written into an identifier can be read back. |
| Decimal.IntToString | src/vfcwrapper/funcinstr.c:148 | `%d` of any int is non-empty. A non-negative value is written as digits only. A negative value is written as '-' followed by at least one digit and digits only. |
| Decimal.Strtol | src/backends/interflop-vprec/interflop_vprec.c:926 | `strtol(arg, &end, 10)` yields a value clamped to the long range and consumes no more than its argument. |
| Decimal.StrtolOfIntToString | src/backends/interflop-vprec/interflop_vprec.c:926 | Reading back what `%d` wrote for a long-sized value, after white space and before a non-digit, gives the value with no range error. |
| Decimal.LongToInt | src/backends/interflop-vprec/interflop_vprec.c:921-926 | Storing a long into `int val` keeps every int value and otherwise reduces it modulo 2^32 into the int range. |
| VprecRound.RangeBounds | src/backends/interflop-vprec/interflop_vprec.c:447-450 | emax = 2^(range-1) - 1 and emin = 1 - emax satisfy emin + emax = 1 and emax >= 0. From range 2 on, emax >= 1 and emin <= 0. |
| VprecRound.NativeRange | src/backends/interflop-vprec/interflop_vprec.c:447-450 | With the native exponent width the target emax is the format's bias and emin is 1 - bias. |
| VprecRound.ComputeAbsErr | src/backends/interflop-vprec/interflop_vprec.c:282-317 | The precision of the absolute-error modes for all four cases (binary64 twin at 319-354). Denormal "all" gives the signed threshold exponent when its magnitude is below the precision, else the precision. Denormal "abs" gives the threshold exponent. Normal "all" gives min(expDiff, precision). Normal "abs" gives min(expDiff, 23 or 52). |
| VprecRound.HandleNormalAbsErr | src/backends/interflop-vprec/interflop_vprec.c:356-380 | More than one binade below the threshold gives +0 whatever a's sign. Exactly one binade below gives the signed threshold power of two. Otherwise a is rounded to `KeptBits` bits: every bit down to the threshold, capped by the requested precision in the "all" mode and by the native significand width in the "abs" mode (binary64 twin at 382-406). |
| VprecRound.DenormalPrecision | src/backends/interflop-vprec/interflop_vprec.c:467-477 | The precision handed to the denormal rounding is the given one in relative mode and `compute_absErr(true, ...)` with the absolute error. |
| VprecRound.RoundValue | src/backends/interflop-vprec/interflop_vprec.c:437-494 | Non-finite values pass through. An exponent above emax gives infinity with a's sign. Below emin, DAZ on an input or FTZ on an output gives a zero with a's sign; otherwise an exact zero is kept and anything else goes to the denormal rounding. In range, the value is rounded relatively or by the absolute-error rules (binary64 twin at 497-556). |
| VprecRound.NativeSubnormalUnderflows | src/backends/interflop-vprec/interflop_vprec.c:462 | Every native zero and subnormal lies in the underflow region of any target range no wider than the native one. |
| VprecRound.NativeRangeNeverOverflows | src/backends/interflop-vprec/interflop_vprec.c:456 | With the native range no finite value takes the overflow branch. |
| VprecRound.OverflowBoundary | src/backends/interflop-vprec/interflop_vprec.c:456-459 | Exponent emax + 1 gives the signed infinity, while exponent emax is rounded at the precision. |
| VprecRound.RoundValueSign | src/backends/interflop-vprec/interflop_vprec.c:437-494 | With sign-preserving primitives rounding keeps the sign. The one exception is a normal value more than one binade below the absolute-error threshold, which becomes +0. |
| VprecRound.RangeCheckPrecedesRounding | src/backends/interflop-vprec/interflop_vprec.c:455-490 | The range is checked before rounding: a value at emax whose rounding carries into the next binade leaves the target range as a finite number, and rounding it again gives infinity. |
| VprecRound.AbsoluteErrorBoundary | src/backends/interflop-vprec/interflop_vprec.c:367-372 | With threshold 2^-20, a value of exponent -21 becomes exactly +-2^-20, neither zero nor a rounded value. |
| VprecDispatch.GlobalParams | src/backends/interflop-vprec/interflop_vprec.c:588-590 | Without a profile an operation uses the global precision and range of its format. |
| VprecDispatch.OpParams | src/backends/interflop-vprec/interflop_vprec.c:564-590 | With a profile the site's record gives precision and range, which a loaded record carries. A null id, an unknown id or a record without operation data is the fatal "fops not found". Without a profile the globals are used. |
| VprecDispatch.BinaryOp | src/backends/interflop-vprec/interflop_vprec.c:558-605 | With a profile and instrumentation mode none or arguments, the raw result comes back without lookup. Otherwise the only failure is a missing site, whatever the mode. ieee mode never rounds (binary64 twin at 607-653). |
| VprecDispatch.NoProfileIgnoresInstMode | src/backends/interflop-vprec/interflop_vprec.c:564-590 | Without a profile the instrumentation mode plays no part. |
| VprecDispatch.ModeComposition | src/backends/interflop-vprec/interflop_vprec.c:592-602 | ob rounds only the result (is_input = 0), ib only the operands (is_input = 1), and full is the ib result rounded as an output. |
| VprecDispatch.MissingSiteFatalInEveryMode | src/backends/interflop-vprec/interflop_vprec.c:571-583 | With a profile and instrumented operations, a site missing from the profile is fatal even in ieee mode. |
| VprecDispatch.ProfiledSiteUsesRecord | src/backends/interflop-vprec/interflop_vprec.c:585-586 | A profiled operation is rounded with its record's precision and range. |
| VprecDispatch.RoundedCount | src/backends/interflop-vprec/interflop_vprec.c:692-736 | A scalar slot rounds one element, a pointer rounds `argSize` elements, and a NULL pointer rounds none. The count never exceeds the memory behind the slot. |
| VprecDispatch.RoundAll | src/backends/interflop-vprec/interflop_vprec.c:714-733 | Element-wise rounding: same length, each element rounded with the given parameters. |
| VprecDispatch.RoundedSlot | src/backends/interflop-vprec/interflop_vprec.c:714-733 | After rounding, a slot holds its first n values rounded and the rest untouched. |
| VprecDispatch.RoundArg | src/backends/interflop-vprec/interflop_vprec.c:692-736 | `_vprec_round_arg` rewrites the array behind the argument in place to exactly the rounded slot. |
| VprecDispatch.CallArgInfos | src/backends/interflop-vprec/interflop_vprec.c:759-775 | The argument records of a call site exist exactly when the id is a call record with at least as many argument records as arguments. A missing id or a record that is not a call is "function not found". Too few argument records is a failure of the model, where the source reads out of bounds. |
| VprecDispatch.ArgParams | src/backends/interflop-vprec/interflop_vprec.c:776-787 | Argument i uses its record's precision and range under a profile, otherwise the double or float globals by its type. |
| VprecDispatch.ArgInfosFor | src/backends/interflop-vprec/interflop_vprec.c:757-763 | The lookup preceding any rounding: no profile needs none, and a profile needs the call's argument records. |
| VprecDispatch.FunctionHook | src/backends/interflop-vprec/interflop_vprec.c:740-788 | An inactive hook and a failed lookup change no memory. Otherwise every argument is rounded in place with its own parameters. |
| VprecDispatch.EnterFunction | src/backends/interflop-vprec/interflop_vprec.c:740-788 | Inputs are rounded only in modes full/ib with instrumentation all/arguments. In every other combination nothing changes. |
| VprecDispatch.ExitFunction | src/backends/interflop-vprec/interflop_vprec.c:792-839 | Outputs are rounded only in modes full/ob with instrumentation all/arguments. In every other combination nothing changes. |
| VprecOptions.ToLower | src/backends/interflop-vprec/interflop_vprec.c:1000 | The folding of `strcasecmp` maps upper-case ASCII letters to lower case and leaves every other character alone. |
| VprecOptions.EqualsIgnoreCaseUnique | src/backends/interflop-vprec/interflop_vprec.c:999-1014 | Two lower-case names that both match an argument case-insensitively are equal. |
| VprecOptions.ModeOfString | src/backends/interflop-vprec/interflop_vprec.c:999-1014 | `--mode` yields a mode exactly when the argument spells its name ("ieee", "full", "ib", "ob") in any letter case. |
| VprecOptions.ErrModeFlags | src/backends/interflop-vprec/interflop_vprec.c:1015-1031 | "rel" sets (relErr, absErr) to (true, false), "abs" to (false, true) and "all" to (true, true). |
| VprecOptions.ErrModeOfString | src/backends/interflop-vprec/interflop_vprec.c:1015-1031 | `--error-mode` yields an error mode exactly when the argument spells its name in any case. |
| VprecOptions.InstModeOfString | src/backends/interflop-vprec/interflop_vprec.c:1041-1056 | `--instrument` yields an instrumentation mode exactly when the argument spells its name in any case. |
| VprecOptions.ModeNamesMatchOnce | src/backends/interflop-vprec/interflop_vprec.c:104 | No argument matches two mode names, so the order of the tests does not matter. |
| VprecOptions.ErrModeNamesMatchOnce | src/backends/interflop-vprec/interflop_vprec.c:113 | No argument matches two error-mode names. |
| VprecOptions.InstModeNamesMatchOnce | src/backends/interflop-vprec/interflop_vprec.c:179 | No argument matches two instrumentation-mode names. |
| VprecOptions.KeywordsIgnoreCase | src/backends/interflop-vprec/interflop_vprec.c:999-1056 | Every keyword is accepted under its own name, and a mode name in any letter case. |
| VprecOptions.LowerNames | src/backends/interflop-vprec/interflop_vprec.c:104 | The mode names are written in lower case. |
| VprecOptions.InitContext | src/backends/interflop-vprec/interflop_vprec.c:1073-1079 | The initial context: relative error only, threshold exponent -DOUBLE_EXP_MIN, no DAZ, no FTZ. |
| VprecOptions.ParseInt | src/backends/interflop-vprec/interflop_vprec.c:925-926 | A numeric argument is accepted exactly when `strtol` reports no range error and the number fits an int. It then agrees with the value `parse_opt` stores. |
| VprecOptions.PrecisionWrapsAround | src/backends/interflop-vprec/interflop_vprec.c:921-937 | A precision of k * 2^32 + 23 passes the check as written (as 23), while the check on the number the text denotes refuses it. |
| VprecOptions.CheckPrecision | src/backends/interflop-vprec/interflop_vprec.c:923-954 | Corrected precision check: a precision option is accepted exactly when the number its text denotes is in 1..23 (binary32) or 1..52 (binary64). |
| VprecOptions.CheckRange | src/backends/interflop-vprec/interflop_vprec.c:955-986 | Corrected range check: a range option is accepted exactly when the number its text denotes is in 2..8 (binary32) or 2..11 (binary64). |
| VprecOptions.CheckPrecisionAgreesInIntRange | src/backends/interflop-vprec/interflop_vprec.c:921-937 | On every argument whose number fits an int, the corrected check and the check as written agree. |
| VprecOptions.IntWrapsAround | src/backends/interflop-vprec/interflop_vprec.c:921-926 | A number k * 2^32 + c with c an int, which `strtol` reads without error, is stored in `int val` as c, where the corrected parse refuses it. |
| VprecOptions.CheckRangeAsWritten | src/backends/interflop-vprec/interflop_vprec.c:955-986 | As written, a range option is accepted exactly when errno stays clear and the int-truncated value is in 2..8 or 2..11. That value is the one stored. |
| VprecOptions.RangeWrapsAround | src/backends/interflop-vprec/interflop_vprec.c:955-970 | A binary32 range of k * 2^32 + 8 is accepted as written (as 8), while the corrected check refuses it. |
| VprecOptions.ErrExpAsWritten | src/backends/interflop-vprec/interflop_vprec.c:1032-1039 | As written, the error exponent fails only when `strtol` sets errno. The stored value is an int congruent to the number modulo 2^32. |
| VprecOptions.ErrExpWrapsAround | src/backends/interflop-vprec/interflop_vprec.c:1032-1039 | An error exponent of k * 2^32 is stored as 0 as written, while the corrected parse refuses it. |
| VprecOptions.VprecGlobals.constructor | src/backends/interflop-vprec/interflop_vprec.c:142-149 | The defaults are mode ob, no instrumentation, the native precisions (23, 52) and ranges (8, 11), and no file names. |
| VprecOptions.VprecGlobals.SetMode | src/backends/interflop-vprec/interflop_vprec.c:187-194 | A valid mode code sets the mode and nothing else. An invalid one is fatal and changes nothing. |
| VprecOptions.VprecGlobals.SetInstMode | src/backends/interflop-vprec/interflop_vprec.c:268-275 | A valid instrumentation code sets the instrumentation mode and nothing else. An invalid one is fatal and changes nothing. |
| VprecOptions.VprecGlobals.SetPrecision | src/backends/interflop-vprec/interflop_vprec.c:196-236 | Exactly 1..23 / 1..52 are stored. A precision below 1 or above the native width is fatal and leaves the setting unchanged. The bounds invariant is kept. |
| VprecOptions.VprecGlobals.SetRange | src/backends/interflop-vprec/interflop_vprec.c:210-250 | Exactly 2..8 / 2..11 are stored. Anything else is fatal and leaves the setting unchanged. |
| VprecOptions.VprecGlobals.ParseOpt | src/backends/interflop-vprec/interflop_vprec.c:918-1069 | The effect of each option, with the corrected numeric checks. A numeric setting changes exactly when the corrected check accepts its argument, and everything else is kept. A refused argument is fatal and changes nothing. Keyword options follow the case-insensitive tables, and anything else is fatal. The error mode and the threshold update only the context. DAZ/FTZ set only their flags. Each file key records its own name and keeps the settings and the other names. An unknown key changes nothing. |
| VprecOptions.VprecGlobals.SetPrecisionOption | src/backends/interflop-vprec/interflop_vprec.c:923-954 | The checked precision reaches the setter. A refused one is fatal and changes nothing. |
| VprecOptions.VprecGlobals.SetRangeOption | src/backends/interflop-vprec/interflop_vprec.c:955-986 | The checked range reaches the setter. A refused one is fatal and changes nothing. |
| FuncInstr.NewRecord | src/vfcwrapper/funcinstr.c:229-239 | A first-seen function gets precision/range 52/11/23/8, one call, and the given flags. |
| FuncInstr.HashAcc | src/vfcwrapper/funcinstr.c:73-78 | The accumulator `h = h * 31 + byte` stays below 2^64. |
| FuncInstr.HashAccIsPolyMod | src/vfcwrapper/funcinstr.c:67-81 | The wrap-around accumulator equals the polynomial sum of s[i] * 31^(n-1-i), modulo 2^64. |
| FuncInstr.HashFunction | src/vfcwrapper/funcinstr.c:67-81 | `_vfc_hash_function` returns the polynomial modulo 2^64 modulo 100, always below 100. |
| FuncInstr.Bucket | src/vfcwrapper/funcinstr.c:86 | The bucket of an id is one of the 100. |
| FuncInstr.FindFirst | src/vfcwrapper/funcinstr.c:55-64 | The position found holds the id and no earlier one does; nothing found means no entry holds it. |
| FuncInstr.FindFirstIsFirst | src/vfcwrapper/funcinstr.c:55-64 | A match with no match before it is the one found. |
| FuncInstr.FunctionTable.Lookup | src/vfcwrapper/funcinstr.c:92-97 | A lookup finds a live record with that id in the id's bucket, or none exists there. |
| FuncInstr.FunctionTable.constructor | src/vfcwrapper/funcinstr.c:20-27 | A fresh process has 100 empty buckets and an empty stack. |
| FuncInstr.FunctionTable.AddFunction | src/vfcwrapper/funcinstr.c:30-40 | The record is appended, and the capacity grows by 10 exactly when the array was full. Earlier entries and other buckets are unchanged, and the returned slot is the new last one. |
| FuncInstr.FunctionTable.DelFunction | src/vfcwrapper/funcinstr.c:43-52 | The last entry is dropped if there is one. The result is the new last entry, or nothing once the array is empty. |
| FuncInstr.FunctionTable.GetFunction | src/vfcwrapper/funcinstr.c:55-64 | Returns the first entry with an equal id, or nothing exactly when none has it. |
| FuncInstr.FunctionTable.TableAdd | src/vfcwrapper/funcinstr.c:84-89 | The record goes into the bucket of its id. Afterwards a lookup of that id succeeds, and other buckets are untouched. |
| FuncInstr.FunctionTable.TableGet | src/vfcwrapper/funcinstr.c:92-97 | `_vfc_table_get` searches the same bucket as `_vfc_table_add` and finds the first record with the id. |
| FuncInstr.FunctionTable.Push | src/vfcwrapper/funcinstr.c:182-192 | The entry is pushed, the capacity grows by 10 when full, and the pushed entry is returned. This is the corrected return value. |
| FuncInstr.FunctionTable.PushAsWritten | src/vfcwrapper/funcinstr.c:182-192 | As written the function returns the slot at the new depth, one past the top. |
| FuncInstr.FunctionTable.Pop | src/vfcwrapper/funcinstr.c:195-204 | The top is removed if there is one. The removed entry is returned while entries remain, and nothing once the stack is empty. |
| FuncInstr.FunctionTable.EnterFunction | src/vfcwrapper/funcinstr.c:220-258 | An unknown name gets a new record in its bucket. A known one has its library/intrinsic flags overwritten and its call count incremented, with every other field kept. Either way the record is pushed and other buckets are unchanged. |
| FuncInstr.FunctionTable.ExitFunction | src/vfcwrapper/funcinstr.c:261-277 | Exactly one entry is popped from a non-empty stack. |
| FuncInstr.FunctionTable.Run | src/vfcwrapper/funcinstr.c:220-277 | Over a run of entries and exits, the stack depth follows the count of entries and exits, with exits on an empty stack ignored. |
| FuncInstr.BalancedRestoresDepth | src/vfcwrapper/funcinstr.c:220-277 | A run that never exits more than it entered changes the depth by its net count, so a balanced run restores the depth. |
| FuncInstrFile.FieldsOf | src/vfcwrapper/funcinstr.c:148-157 | A record has nine numeric fields in file order. |
| FuncInstrFile.WithFields | src/vfcwrapper/funcinstr.c:117-127 | A record built from an id and nine values has exactly those. |
| FuncInstrFile.FieldText | src/vfcwrapper/funcinstr.c:148 | Each printed field starts with a tab. |
| FuncInstrFile.Word | src/vfcwrapper/funcinstr.c:117 | `%s` takes a prefix of the visible text. |
| FuncInstrFile.ScanLineNeverZero | src/vfcwrapper/funcinstr.c:117-131 | The `sscanf` count is never 0. It is -1 exactly for a line of white space, which leaves the record variable as it was. |
| FuncInstrFile.ScanLineOfWord | src/vfcwrapper/funcinstr.c:117 | A line that starts with a word followed by white space is scanned as that word, then the fields. |
| FuncInstrFile.ScanIntFieldValue | src/vfcwrapper/funcinstr.c:117 | "\t%d" reads back the number `%d` wrote. |
| FuncInstrFile.ScanCharField | src/vfcwrapper/funcinstr.c:117 | "\t%c" reads the code of the character after the tab. |
| FuncInstrFile.ScanFieldText | src/vfcwrapper/funcinstr.c:148-157 | Reading the printed "\t%d" fields with `%d` directives gives the values back. |
| FuncInstrFile.FlagsDoNotRoundTrip | src/vfcwrapper/funcinstr.c:117-118 | A flag written as 0 is read back by `%c` as 48, so the record read differs from the record written. |
| FuncInstrFile.ReadLineAsWritten | src/vfcwrapper/funcinstr.c:117-131 | As written, a line is accepted exactly when the `sscanf` count is non-zero. |
| FuncInstrFile.AsWrittenAcceptsEverything | src/vfcwrapper/funcinstr.c:117-135 | As written no line is refused, and a blank line re-adds the previous record. |
| FuncInstrFile.ReadLine | src/vfcwrapper/funcinstr.c:117-135 | Corrected reading: every field with `%d`, and a line is accepted exactly when all ten items convert. |
| FuncInstrFile.ScanPrintedLine | src/vfcwrapper/funcinstr.c:148-157 | Scanning a printed line with `%d` directives converts all ten items and yields the record. |
| FuncInstrFile.ReadPrintedLine | src/vfcwrapper/funcinstr.c:148-157 | Reading back a printed line gives the record that was printed. |
| FuncInstrFile.PrintLines | src/vfcwrapper/funcinstr.c:145-159 | One printed line per record. |
| FuncInstrFile.LoadPrinted | src/vfcwrapper/funcinstr.c:112-135 | Loading printed lines gives back the printed records, in order. |
| FuncInstrFile.PrintArray | src/vfcwrapper/funcinstr.c:145-159 | `_vfc_print_array` writes one line per live entry, in order. |
| FuncInstrFile.PrintTable | src/vfcwrapper/funcinstr.c:162-166 | `_vfc_print_table` writes the lines of every bucket in bucket order. |
| FuncInstrFile.InitTable | src/vfcwrapper/funcinstr.c:100-142 | Loading succeeds exactly when every non-comment line can be read. Each bucket then gains the records read that hash to it, in file order. |
| FuncInstrFile.ReadIdIsCString | src/vfcwrapper/funcinstr.c:117 | An id read from a C-string line is a C string. |
| FuncInstrFile.InBucketRecords | src/vfcwrapper/funcinstr.c:162-166 | Splitting the printed records of a hash-consistent table by bucket gives every bucket back. |
| FuncInstrFile.ReloadPrintedTable | src/vfcwrapper/funcinstr.c:305-321 | With the corrected reader `ReadLine`, the file `vfc_quit_func_inst` writes is read back by `vfc_init_func_inst`: every bucket gets its records again, in order. |
| FuncInstrFile.Init | src/vfcwrapper/funcinstr.c:284-303 | A named input file must open and load with the given reader, or the run is fatal. Afterwards "main" is the only entry on the stack. Every other bucket holds exactly the loaded records that hash to it. `main`'s bucket holds its loaded records, with `main` appended when the file did not name it and counted once more when it did. |
| FuncInstrFile.EnterMain | src/vfcwrapper/funcinstr.c:302 | Entering `main` into a table holding a given set of records leaves every other bucket alone. It appends a fresh `main` record, or counts one more call of an existing one. |
| FuncInstrFile.ReadLineAsWrittenKeepsCStrings | src/vfcwrapper/funcinstr.c:117-131 | The as-written reader reads a C-string id from a C-string line, so the source's reader can be given to `Init`. |
| FuncInstrFile.Quit | src/vfcwrapper/funcinstr.c:305-321 | A named output file receives the printed table (failing to create it is fatal). Then exactly one entry is popped and the table is unchanged. |
| Analysis.Classification | src/backends/interflop-analysis/interflop_analysis.c:95-96 | With a negative second operand, add and sub are both an effective addition and an effective subtraction. Otherwise each is only what it says, and mul/div are neither. |
| Analysis.CancellationAmount | src/backends/interflop-analysis/interflop_analysis.c:120-122 | The amount is the larger operand exponent minus the result's, measured against each operand. |
| Analysis.CancellationCounted | src/backends/interflop-analysis/interflop_analysis.c:123 | A cancellation is counted exactly when the result's exponent is below that of an operand. |
| Analysis.AbsorptionAmount | src/backends/interflop-analysis/interflop_analysis.c:137-142 | The absorption is clamped at zero, and it is the unclamped amount when that is positive. |
| Analysis.AbsorptionCounted | src/backends/interflop-analysis/interflop_analysis.c:139-143 | An absorption is counted exactly when the unclamped amount is positive. The amount is at least the smaller operand's lowest-bit shift past the significand. |
| Analysis.Record | src/backends/interflop-analysis/interflop_analysis.c:123-132 | A positive amount is counted: nb + 1, sum + amount, min/max widened to include it. Anything else changes nothing. The invariant nb >= 1 ==> min <= max is kept. |
| Analysis.RecordAllSummary | src/backends/interflop-analysis/interflop_analysis.c:118-153 | After any history, nb grows by the number of positive amounts and sum by their total. min and max bound every counted amount and are each one of them or the start value. The invariant is kept. |
| Analysis.FopsStats.Cancell | src/backends/interflop-analysis/interflop_analysis.c:118-133 | The `cancell` macro updates the cancellation fields in place as `Record` says, leaving absorption alone. |
| Analysis.FopsStats.Absorb | src/backends/interflop-analysis/interflop_analysis.c:135-153 | The `absorb` macro updates the absorption fields in place as `Record` says, leaving cancellation alone. |
| Analysis.GetInstInfo | src/backends/interflop-analysis/interflop_analysis.c:75-91 | The statistics of an operation site are found exactly when the id is non-null, known and an operation. Anything else is fatal. |
| Analysis.Analyse | src/backends/interflop-analysis/interflop_analysis.c:170-184 | A failed lookup changes no cancellation or absorption statistic. Otherwise absorption is recorded for an effective addition and cancellation for an effective subtraction, on the site's record only. mul/div record no cancellation or absorption. |
| Analysis.Hook | src/backends/interflop-analysis/interflop_analysis.c:189-243 | Each hook stores the plain result `a op b` in `*c` before analysing it. |
| Analysis.HookMulDiv | src/backends/interflop-analysis/interflop_analysis.c:217-243 | Products and quotients leave every cancellation and absorption statistic unchanged. Only the lookup can fail. |
| Analysis.Backend.constructor | src/backends/interflop-analysis/interflop_analysis.c:296-299 | Start with no profile and stdout as the output. |
| Analysis.Backend.ParseOpt | src/backends/interflop-analysis/interflop_analysis.c:259-279 | `-o name` makes the output that file when it opens. Otherwise it is fatal and the output is kept. Other keys are unknown and change nothing. |
| Analysis.Backend.Init | src/backends/interflop-analysis/interflop_analysis.c:286-323 | Starting without a profile map is fatal. Otherwise the output is stdout, or the last file named by `-o`. |
| Analysis.Backend.Finalize | src/backends/interflop-analysis/interflop_analysis.c:249-253 | The output is closed exactly when it is not stdout. |
| Analysis.OutputAfterFromSummary | src/backends/interflop-analysis/interflop_analysis.c:259-279 | Without `-o` the output is stdout. When every named file opens, the output is the last one. A file that does not open is fatal. |
| ProfileStrings.Find | src/libvfcprofile/libVFCProfile.cpp:438 | `find` returns npos or a position at or after the start where the text occurs. |
| ProfileStrings.FindFirst | src/libvfcprofile/libVFCProfile.cpp:438 | Nothing occurs between the start and the position found. |
| ProfileStrings.FindAndReplaceAll | src/libvfcprofile/libVFCProfile.cpp:436-447 | The result is the leftmost non-overlapping replacement of every occurrence. Inserted text is never rescanned. |
| ProfileStrings.ReplaceCharIsMap | src/libvfcprofile/libVFCProfile.cpp:436-447 | Replacing a one-character string is a character-by-character map. |
| ProfileStrings.EscapeChar | src/libvfcprofile/libVFCProfile.cpp:449-454 | '.' becomes "\\.", '*' becomes ".*", and any other character stands for itself. |
| ProfileStrings.TwoPassesEscape | src/libvfcprofile/libVFCProfile.cpp:449-454 | The two replacement passes act as one per-character escape. |
| ProfileStrings.EscapeRegex | src/libvfcprofile/libVFCProfile.cpp:449-454 | `escape_regex` escapes every character independently. |
| ProfileStrings.EscapedStars | src/libvfcprofile/libVFCProfile.cpp:452 | Every star of an escaped string follows a dot, so a pattern star always means "any text". |
| ProfileSelect.IndexOf | src/libvfcprofile/libVFCProfile.cpp:488 | The position of the first separator, or -1. |
| ProfileSelect.IndexOfFirst | src/libvfcprofile/libVFCProfile.cpp:488 | No separator occurs before the position found. |
| ProfileSelect.EntrySplitsAtFirstSpace | src/libvfcprofile/libVFCProfile.cpp:488-496 | An entry is the two trimmed halves around the first space, and the second half is not empty before trimming. |
| ProfileSelect.MalformedLines | src/libvfcprofile/libVFCProfile.cpp:488-493 | A non-comment, non-blank line without a space, or whose only space is its last character, is a syntax error. |
| ProfileSelect.LastComponent | src/libvfcprofile/libVFCProfile.cpp:505 | The file name of a path is no longer than the path. |
| ProfileSelect.ModuleSource | src/libvfcprofile/libVFCProfile.cpp:498-507 | A relative module gets the "*/" prefix. A module without an extension gets the ".*" suffix, and only then. |
| ProfileSelect.BarTerminatedJoin | src/libvfcprofile/libVFCProfile.cpp:513-522 | Dropping the last '\|' of the accumulated text gives the patterns joined with '\|', with no trailing bar. |
| ProfileSelect.EntryPattern | src/libvfcprofile/libVFCProfile.cpp:509-514 | An entry contributes its escaped function half exactly when its escaped module pattern matches the module. |
| ProfileSelect.SelectedFromAccepts | src/libvfcprofile/libVFCProfile.cpp:480-516 | A file is accepted exactly when none of its lines is malformed. |
| ProfileSelect.SelectedFromFirstError | src/libvfcprofile/libVFCProfile.cpp:490-493 | A rejected file names its first malformed line, numbered from 1. |
| ProfileSelect.ParseFunctionSetFile | src/libvfcprofile/libVFCProfile.cpp:456-524 | No file name gives the empty pattern. A file that cannot be opened is fatal. Otherwise the result is the matched function patterns joined by '\|', or the first syntax error. |
| ProfileSelect.SelectionPatterns | src/libvfcprofile/libVFCProfile.cpp:719-729 | Both files are parsed, and either can be fatal. `--function f` then overrides them with (f, ".*"). |
| ProfileSelect.IsIncluded | src/libvfcprofile/libVFCProfile.cpp:526-558 | An include match on the callee or the function selects. Otherwise an exclude match rejects. Otherwise an include file without an exclude file rejects. Otherwise the instruction is kept. |
| ProfileSelect.FunctionOptionRule | src/libvfcprofile/libVFCProfile.cpp:726-729 | With `--function f`, exactly the instructions of f and the calls to f are kept, whatever the files say. |
| ProfileSelect.NoSelectionKeepsAll | src/libvfcprofile/libVFCProfile.cpp:552-557 | Without files or option every instruction is kept, whatever the regex engine. |
| ProfileSelect.IncludeFileOnly | src/libvfcprofile/libVFCProfile.cpp:538-555 | With only an include file, exactly the included callees and functions are kept. |
| ProfileSelect.ExcludeFileOnly | src/libvfcprofile/libVFCProfile.cpp:545-557 | With only an exclude file, exactly the excluded callees and functions are dropped. |
| Profile.GetFops | src/libvfcprofile/libVFCProfile.cpp:205-221 | FAdd, FSub, FMul, FDiv and FCmp map to their kinds, each in both directions, and everything else to ignore. |
| Profile.ArgNameIndex | src/libvfcprofile/libVFCProfile.cpp:181-187 | "return_value" for the result and "operand_(i+1)" for operand i. The name gives back the operand, so distinct operands have distinct names. |
| Profile.MustInstrument | src/libvfcprofile/libVFCProfile.cpp:245-267 | An instruction is instrumented exactly when it is a direct non-intrinsic call or a floating-point operation, and its result or some operand is (a pointer to, a vector of) float or double. |
| Profile.ArgMetadata | src/libvfcprofile/libVFCProfile.cpp:301-339 | Float types get 23/8 and double types 52/11. Scalars have size 1 and pointers their traced size. The name comes from `getArgName`. Every instrumented type is described. |
| Profile.ArgLists | src/libvfcprofile/libVFCProfile.cpp:355-386 | The inputs are the instrumented operands in order. The outputs are the float result, then the pointer operands. |
| Profile.PointerArgsAreInputs | src/libvfcprofile/libVFCProfile.cpp:367-377 | The output operands are exactly the inputs of pointer type, in the same order. |
| Profile.OperandArgsInOrder | src/libvfcprofile/libVFCProfile.cpp:364-378 | The inputs name operands in strictly increasing order, so no two inputs share a name. |
| Profile.OperandArgsPresent | src/libvfcprofile/libVFCProfile.cpp:364-378 | Some input is described exactly when some operand is instrumented. |
| Profile.RecordedSiteHasArgs | src/libvfcprofile/libVFCProfile.cpp:256-266 | A recorded instruction describes at least one floating-point value. |
| Profile.HaveFloatingPointArithmetic | src/libvfcprofile/libVFCProfile.cpp:71-87 | `use_float` and `use_double` say whether some operand (vectors by element) is float or double. |
| Profile.IsVectorized | src/libvfcprofile/libVFCProfile.cpp:125-136 | The width of the first vector operand, or 1 when there is none. |
| Profile.FopsRecordFormat | src/libvfcprofile/libVFCProfile.cpp:343-353 | For operands of one scalar type, the record's data type is that type and its kind is the operation's. Precision and range are not written. |
| Profile.CallInfo | src/libvfcprofile/libVFCProfile.cpp:389-433 | Corrected call record: the callee's name, and the callee's library when the lookup knows it. |
| Profile.LibraryOfCallerRecorded | src/libvfcprofile/libVFCProfile.cpp:391-395 | A library call made from a non-library function is recorded as calling no library, while the corrected record names the callee's library. |
| Profile.SiteRecord | src/libvfcprofile/libVFCProfile.cpp:269-299 | The n-th record of a function carries the identifier "file/function/n" and the function's name. |
| Profile.SiteRecordArgs | src/libvfcprofile/libVFCProfile.cpp:380-386 | `nb_input`/`nb_output` are the list lengths. The outputs are the float result followed by the pointer inputs. |
| Profile.FunctionRecordIds | src/libvfcprofile/libVFCProfile.cpp:752-795 | The k-th record of a function is numbered k, because the counter restarts at 0 for each function. |
| Profile.SiteIdInjective | src/libvfcprofile/libVFCProfile.cpp:285-286 | An identifier determines its function and its number. |
| Profile.ModuleIdsDistinct | src/libvfcprofile/libVFCProfile.cpp:735-811 | In a module with distinct function names, no two profile records share an identifier. |
| Profile.ProfilePass.constructor | src/libvfcprofile/libVFCProfile.cpp:710 | The counter starts at 0 with an empty profile. |
| Profile.ProfilePass.NextSiteId | src/libvfcprofile/libVFCProfile.cpp:285-286 | The identifier uses the current counter, which is post-incremented. |
| Profile.ProfilePass.RecordSite | src/libvfcprofile/libVFCProfile.cpp:341-433 | Appends the site's record and advances the counter by one. |
| Profile.ProfilePass.ProfileFunction | src/libvfcprofile/libVFCProfile.cpp:752-796 | The counter restarts at 0. The profile gains exactly the records of the located, instrumentable, included instructions, and the counter ends at their number. |
| Profile.ProfilePass.ProfileFunctions | src/libvfcprofile/libVFCProfile.cpp:735-737 | Declarations are skipped. The profile gains the records of the defined functions in order. |
| Profile.ProfilePass.RunOnModule | src/libvfcprofile/libVFCProfile.cpp:712-818 | Succeeds exactly when both function-set files parse, and otherwise changes nothing. On success the profile gains the module's records under the chosen patterns. |
| Instrument.MustReplace | src/libvfcinstrument/libVFCInstrument.cpp:191-205 | FAdd, FSub, FMul and FDiv map to add/sub/mul/div, in both directions and in agreement with `getFops`. Everything else is ignored. |
| Instrument.HookName | src/libvfcinstrument/libVFCInstrument.cpp:140-188 | A name is built exactly for float or double operands of width 1, 2 or 4. A bad vector width fails first, then a bad element type. |
| Instrument.HookNameShape | src/libvfcinstrument/libVFCInstrument.cpp:175 | The name's length and characters reveal the vector prefix, the element type and the operation. |
| Instrument.HookNamesDistinct | src/libvfcinstrument/libVFCInstrument.cpp:175 | Distinct supported operations get distinct hooks. |
| Instrument.ScalarFloatHooks | src/vfcwrapper/vfcwrapper.c:97-136 | The scalar float hooks are `_floatadd` ... `_floatdiv`. |
| Instrument.ScalarDoubleHooks | src/vfcwrapper/vfcwrapper.c:137-176 | The scalar double hooks are `_doubleadd` ... `_doublediv`. |
| Instrument.TwoLaneFloatHooks | src/vfcwrapper/vfcwrapper.c:273-304 | The 2-lane float hooks are `_2xfloatadd` ... `_2xfloatdiv`. |
| Instrument.TwoLaneDoubleHooks | src/vfcwrapper/vfcwrapper.c:179-218 | The 2-lane double hooks are `_2xdoubleadd` ... `_2xdoublediv`. |
| Instrument.FourLaneFloatHooks | src/vfcwrapper/vfcwrapper.c:315-353 | The 4-lane float hooks are `_4xfloatadd` ... `_4xfloatdiv`. |
| Instrument.FourLaneDoubleHooks | src/vfcwrapper/vfcwrapper.c:221-258 | The 4-lane double hooks are `_4xdoubleadd` ... `_4xdoublediv`. |
| Instrument.HooksAreWrappers | src/libvfcinstrument/libVFCInstrument.cpp:175-181 | Every hook the pass can call is an arithmetic wrapper of the runtime. |
| Instrument.WrappersAreHooks | src/vfcwrapper/vfcwrapper.c:97-353 | Every arithmetic wrapper of the runtime is the hook of some operation. |
| Instrument.SelectionModes | src/libvfcinstrument/libVFCInstrument.cpp:110-115 | An empty set selects every function. Otherwise the set is a white list without `--vfclibblack-list` and a black list with it. |
| Instrument.FunctionOption | src/libvfcinstrument/libVFCInstrument.cpp:95-97 | With only `--vfclibinst-function f`, exactly f is instrumented, or f alone is skipped in black-list mode. |
| Instrument.FunctionFileWins | src/libvfcinstrument/libVFCInstrument.cpp:83-90 | With a function file, the set is exactly its lines, whatever the single-function option says. |
| Instrument.ReplaceWithMcaCall | src/libvfcinstrument/libVFCInstrument.cpp:140-188 | The replacement calls the hook of the operation with the same operand type, or fails as the naming does. |
| Instrument.Rewrite | src/libvfcinstrument/libVFCInstrument.cpp:209-216 | An instruction `mustReplace` ignores is kept. Any other becomes the call to its hook, or fails. |
| Instrument.RewriteBlock | src/libvfcinstrument/libVFCInstrument.cpp:207-219 | A rewritten block keeps its length. |
| Instrument.RewriteBlockPointwise | src/libvfcinstrument/libVFCInstrument.cpp:209-217 | Each instruction of a rewritten block is the rewrite of the instruction at the same place. |
| Instrument.RewriteBlockFirstError | src/libvfcinstrument/libVFCInstrument.cpp:209-217 | A block fails exactly when one of its instructions does, with the error of the first such instruction. |
| Instrument.RewrittenBlock | src/libvfcinstrument/libVFCInstrument.cpp:207-219 | After a rewrite nothing is left to replace, and every replaced operation calls its hook. |
| Instrument.BlockModifiedIffChanged | src/libvfcinstrument/libVFCInstrument.cpp:207-219 | The flag is true exactly when the block changed, which is exactly when it held an operation to replace. Rewriting again changes nothing. |
| Instrument.RewriteFunction | src/libvfcinstrument/libVFCInstrument.cpp:126-138 | A rewritten function keeps its number of blocks. |
| Instrument.RewriteFunctionPointwise | src/libvfcinstrument/libVFCInstrument.cpp:134-136 | Each block of a rewritten function is the rewrite of its block. |
| Instrument.FunctionModifiedIffChanged | src/libvfcinstrument/libVFCInstrument.cpp:126-138 | The function's flag is true exactly when some block changed. |
| Instrument.ChosenIndices | src/libvfcinstrument/libVFCInstrument.cpp:109-115 | The chosen functions are listed in module order, each index valid. |
| Instrument.ChosenIndicesSpec | src/libvfcinstrument/libVFCInstrument.cpp:109-115 | A function is listed exactly when the selection rule picks it, once. |
| Instrument.RewriteListed | src/libvfcinstrument/libVFCInstrument.cpp:117-123 | Rewriting the listed functions keeps the number of functions. |
| Instrument.RewriteListedPointwise | src/libvfcinstrument/libVFCInstrument.cpp:117-123 | Listed functions are rewritten and the others kept. |
| Instrument.ModuleInstrumentation | src/libvfcinstrument/libVFCInstrument.cpp:100-124 | The pass succeeds exactly when every chosen function can be rewritten. Chosen functions are rewritten, the others kept, and the result is true exactly when the module changed. |
| Instrument.BlockFails | src/libvfcinstrument/libVFCInstrument.cpp:160-172 | An unsupported operation makes its block fail with that operation's error. |
| Instrument.FunctionFails | src/libvfcinstrument/libVFCInstrument.cpp:134-136 | A block that fails makes its function fail with its error. |
| Instrument.ListedFails | src/libvfcinstrument/libVFCInstrument.cpp:118-120 | A chosen function that fails makes the pass fail. |
| Instrument.Module.constructor | src/libvfcinstrument/libVFCInstrument.cpp:100 | A module object holds the given functions. |
| Instrument.VfclibInst.constructor | src/libvfcinstrument/libVFCInstrument.cpp:77-80 | A pass object starts with an empty set and the given black-list flag. |
| Instrument.VfclibInst.Create | src/libvfcinstrument/libVFCInstrument.cpp:82-98 | The set is the function file's lines, else the single function, else empty. A named file that cannot be opened is fatal. |
| Instrument.VfclibInst.RunOnBasicBlock | src/libvfcinstrument/libVFCInstrument.cpp:207-219 | The block is rewritten in place as `RewriteBlock` says, and nothing else changes. The result is true exactly when an instruction was replaced. |
| Instrument.VfclibInst.RunOnFunction | src/libvfcinstrument/libVFCInstrument.cpp:126-138 | Every block of the function is rewritten in place as `RewriteFunction` says. The flag is the OR of the blocks' flags. |
| Instrument.VfclibInst.ChooseFunctions | src/libvfcinstrument/libVFCInstrument.cpp:109-115 | The first loop lists exactly the functions the selection rule picks. |
| Instrument.VfclibInst.RunOnModule | src/libvfcinstrument/libVFCInstrument.cpp:100-124 | The module's new functions and the returned flag are those of `InstrumentModule`, and the pass fails exactly when it does. |

## Left out

- The bit-rounding primitives `round_binary*_normal` and `handle_binary*_denormal` and the hardware `+ - * /` are parameters (`Primitives`). Their code is not part of this model, and every contract holds for any implementation of them.
- `DOUBLE_EXP_MIN` and the other `float_const.h` constants: the header is not part of this model.
  - The native widths 23/8 and 52/11 and the biases 127/1023 are written out.
  - `init_context` takes `DOUBLE_EXP_MIN` as a parameter.
- `_vprec_min_max` is inside a comment in the source and has no effect.
- `va_list` argument passing is modelled as a sequence of argument slots. Each slot has a type, a size and the array it points to.
- Logging and `print_information_header`, the log-file `fopen` (a boolean parameter), `getenv`, and the argp machinery beyond the option-to-setting mapping are left out.
- The `interflop_init` function of the VPREC backend is left out. It only wires the option parser and the hook table together.
- In the analysis backend:
  - The `roundoff` macro and its `__float128` arithmetic are not modelled. `FopsStats` has no round-off fields.
  - The `GET_EXP_FLT`/`GET_LSB` probes are parameters (`Probes`).
  - The statistics are unbounded integers, not the `int32_t` fields of the source.
- In funcinstr.c:
  - `realloc` is modelled as growth of a capacity counter. A stack reference into a bucket that was moved is a (bucket, slot) pair, not a dangling pointer.
  - `strncpy(…, 500)` and the 4096-byte `fgets` buffer do not limit ids or lines.
  - The forwarding of `vfc_enter/exit_function` to the backends is left out.
  - Freeing the table and the stack is left out.
- `FuncInstrFile.Init` and `FuncInstrFile.Quit` take the file contents and whether the file can be opened or created as parameters.
- `ProfileStrings.FindAndReplaceAll` requires a non-empty search string. With an empty one the source loop never advances, and both callers pass one character.
- In the profiling pass:
  - `std::regex_match` is a parameter (`Matcher`). The regex engine is not modelled.
  - `getSizeOf` is the element count carried by each value (`Value.sizeOf`).
  - The library lookup of `TargetLibraryInfo` is a parameter.
  - Paths are POSIX paths.
  - The dot-file output, `depends`, `getSourceInstructions`, the ptree/XML writing, `getSourceFileNameAbsPath` and the line/column/depth fields are left out. The setup carries the file name and its absolute path.
  - A function body is its instructions in block order, each with its loop.
  - The second, unused overload of `haveFloatingPointArithmetic` (libVFCProfile.cpp:91-122) is not modelled.
- Profile.ArgMetadata: the type that `add_arg_metadata` leaves unset for an unsupported argument is modelled as no description (`None`), because the source writes uninitialised values there.
- Profile.ModuleIdsDistinct: requires distinct function names. LLVM does not guarantee them, since every unnamed function has the empty name.
- In the instrumentation pass:
  - The verbose output is left out.
  - `BlackListFunctionSet` is never filled by the source and is left out.
  - An instruction is its opcode and the type of its first operand. The new call's operands and its debug location are not modelled.
  - The state after an `assert(0)` is not specified beyond the failure.
  - Function-file lines are taken as `getline` gives them.
- Analysis.FopsStats.constructor: the records the statistics are accumulated into come from the profile loader, which is not part of this model. The constructor only gives a starting state with every counter at zero.
- Interflop.FopsInfo: the precision and range of an operation are `None` in the records the profiling pass writes, since `add_fops_metadata` never writes them. `VprecDispatch.RangesPositive` requires them in a loaded registry.
- VprecDispatch.OpParams, VprecDispatch.BinaryOp, VprecDispatch.FunctionHook, VprecDispatch.EnterFunction, VprecDispatch.ExitFunction: require `RangesPositive` of the profile registry. The source never refuses a recorded range of 0, and `1 << (range - 1)` is then undefined behaviour.
- VprecDispatch.FunctionHook, VprecDispatch.EnterFunction, VprecDispatch.ExitFunction: require `Disjoint(args)`. The source also accepts two arguments that point to the same array, and rounds that array once per argument, in order; the model does not cover that aliasing.
- VprecDispatch.CallArgInfos: the source reads `inputArgs[i]` for every argument without a bound check. A record with fewer argument records than arguments is modelled as the failure `ArgMetadataMissing` instead of an out-of-bounds read.
- VprecOptions.VprecGlobals.ParseOpt: uses the corrected checks. As written, a range or an error exponent whose number does not fit an `int` is truncated and accepted (see `RangeWrapsAround` and `ErrExpWrapsAround`), and a precision is too (`PrecisionWrapsAround`).
- Instrument.VfclibInst.RunOnModule: the hook declarations that `getOrInsertFunction` adds to the module are not modelled. The module's function list keeps its length, and only the listed functions are rewritten.
- `src/vfcwrapper/vfcwrapper.c` (backend loading), `src/common/vprec_utils.c` (XML profile I/O) and `src/libvfcfuncinstrument` (call instrumentation) are not part of this model, except for the wrapper names that the hooks are checked against.

## Findings

| source | as written | input that shows it | evidently intended | confidence | as-written member | corrected member |
|---|---|---|---|---|---|---|
| src/vfcwrapper/funcinstr.c:117-118 | the four flags, written with `%d`, are read back with `%c` | a record with `isLibraryFunction == 0` printed and reloaded reads back 48 ('0') | read every numeric field with `%d` | not executed | FuncInstrFile.FlagsDoNotRoundTrip | FuncInstrFile.ReadPrintedLine |
| src/vfcwrapper/funcinstr.c:117-135 | `if (sscanf(...))` treats any non-zero count as success, but the count is never 0 | a blank line: `sscanf` returns EOF (-1), so the previous record is added again and the fatal branch is dead | accept a line only when all ten items convert | not executed | FuncInstrFile.AsWrittenAcceptsEverything | FuncInstrFile.ReadLine |
| src/vfcwrapper/funcinstr.c:189-191 | `_vfc_push_function` returns `functions[index]` after the increment | pushing onto an empty stack returns slot 1, past the entry pushed into slot 0 | return the pushed entry | not executed | FuncInstr.FunctionTable.PushAsWritten | FuncInstr.FunctionTable.Push |
| src/backends/interflop-vprec/interflop_vprec.c:921-927 | the `long` from `strtol` is stored in `int val` before the range check | `--precision-binary32=4294967319` is accepted as precision 23 | refuse numbers that do not fit an `int` | not executed | VprecOptions.PrecisionWrapsAround | VprecOptions.CheckPrecision |
| src/backends/interflop-vprec/interflop_vprec.c:955-970 | the `long` from `strtol` is stored in `int val` before the range check | `--range-binary32=4294967304` is accepted as range 8 | refuse numbers that do not fit an `int` | not executed | VprecOptions.RangeWrapsAround | VprecOptions.CheckRange |
| src/backends/interflop-vprec/interflop_vprec.c:1032-1039 | the `long` from `strtol` is stored in the `int` field `absErr_exp`, and only errno is checked | `--max-abs-error-exponent=4294967296` sets the threshold to 2^0 | refuse numbers that do not fit an `int` | not executed | VprecOptions.ErrExpWrapsAround | VprecOptions.ParseInt |
| src/libvfcprofile/libVFCProfile.cpp:391-395 | the library of a call is looked up by the name of the calling function `F` | a call to `sin` from `main` is recorded with library "none" | look up the callee's name | not executed | Profile.LibraryOfCallerRecorded | Profile.CallInfo |
