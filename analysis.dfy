/** The numerical-error analysis backend: every operation stores the plain hardware
    result, then records at its site how many bits a cancellation or an absorption cost,
    keeping the smallest, the largest, the total and the count of each phenomenon. */
module Analysis {
  import opened Wrappers
  import opened FloatBits
  import opened Interflop

  // ---------------------------------------------------------------------------
  // Classification of an operation

  /** `isAdd(op, a, b)`: an addition, or a subtraction of a negative value. */
  predicate IsAdd(f: Format, op: Op, a: Fp, b: Fp) {
    op == Add || (op == Sub && Less(f, b, Zero(false)))
  }

  /** `isSub(op, a, b)`: a subtraction, or an addition of a negative value. */
  predicate IsSub(f: Format, op: Op, a: Fp, b: Fp) {
    op == Sub || (op == Add && Less(f, b, Zero(false)))
  }

  /** With a negative second operand an addition or a subtraction is both an effective
      addition and an effective subtraction; otherwise each is only what it says;
      products and quotients are neither. */
  lemma Classification(f: Format, op: Op, a: Fp, b: Fp)
    ensures (op == Mul || op == Div) ==> !IsAdd(f, op, a, b) && !IsSub(f, op, a, b)
    ensures (op == Add || op == Sub) && b.sign && !IsZero(b) && !IsNaN(f, b) ==>
      IsAdd(f, op, a, b) && IsSub(f, op, a, b)
    ensures (op == Add || op == Sub) && !(b.sign && !IsZero(b) && !IsNaN(f, b)) ==>
      (IsAdd(f, op, a, b) <==> op == Add) && (IsSub(f, op, a, b) <==> op == Sub)
  {
    LessThanZero(f, b);
  }

  // ---------------------------------------------------------------------------
  // Amounts

  /** The exponent and least-significant-bit probes `GET_EXP_FLT` and `GET_LSB`, whose
      definitions are not part of this model. */
  datatype Probes = Probes(exponent: (Format, Fp) -> int, lsb: (Format, Fp) -> int)

  /** `max(GET_EXP_FLT(X), GET_EXP_FLT(Y)) - GET_EXP_FLT(*Z)`: how many binades the result
      lost against the larger operand. */
  function CancellationAmount(f: Format, x: Fp, y: Fp, z: Fp, p: Probes): (r: int)
    ensures r >= p.exponent(f, x) - p.exponent(f, z) && r >= p.exponent(f, y) - p.exponent(f, z)
    ensures r == p.exponent(f, x) - p.exponent(f, z) || r == p.exponent(f, y) - p.exponent(f, z)
  {
    var ex := p.exponent(f, x);
    var ey := p.exponent(f, y);
    (if ex > ey then ex else ey) - p.exponent(f, z)
  }

  /** A cancellation is counted exactly when the result's exponent is below that of one
      of the operands. */
  lemma CancellationCounted(f: Format, x: Fp, y: Fp, z: Fp, p: Probes)
    ensures CancellationAmount(f, x, y, z, p) > 0 <==>
      (p.exponent(f, z) < p.exponent(f, x) || p.exponent(f, z) < p.exponent(f, y))
  {
  }

  /** The unclamped absorption: the distance between the smaller operand's exponent and
      the result's, plus the position of the smaller operand's lowest set bit, minus the
      mantissa width of the format. */
  function RawAbsorption(f: Format, x: Fp, y: Fp, z: Fp, p: Probes): int {
    var ex := p.exponent(f, x);
    var ey := p.exponent(f, y);
    var d := (if ex < ey then ex else ey) - p.exponent(f, z);
    (if d < 0 then -d else d) + p.lsb(f, Min(f, x, y)) - PmanSize(f)
  }

  /** The absorption amount, clamped at zero. */
  function AbsorptionAmount(f: Format, x: Fp, y: Fp, z: Fp, p: Probes): (r: int)
    ensures r >= 0 && r >= RawAbsorption(f, x, y, z, p)
    ensures r == 0 || r == RawAbsorption(f, x, y, z, p)
  {
    var a := RawAbsorption(f, x, y, z, p);
    if a > 0 then a else 0
  }

  /** Exponent distance and bit position bound the absorption from both sides: it is
      at least the shift of the smaller operand's lowest bit past the mantissa, and an
      absorption is counted exactly when the unclamped amount is positive. */
  lemma AbsorptionCounted(f: Format, x: Fp, y: Fp, z: Fp, p: Probes)
    ensures AbsorptionAmount(f, x, y, z, p) > 0 <==> RawAbsorption(f, x, y, z, p) > 0
    ensures AbsorptionAmount(f, x, y, z, p) >= p.lsb(f, Min(f, x, y)) - PmanSize(f)
  {
  }

  // ---------------------------------------------------------------------------
  // Statistics of one phenomenon

  /** The smallest, largest and total amount of a phenomenon at one site and how many
      times it was counted. */
  datatype Stat = Stat(min: int, max: int, sum: int, nb: int)

  /** The invariant the updates keep: a non-negative count, and once something has been
      counted the smallest amount does not exceed the largest. */
  predicate Consistent(s: Stat) {
    s.nb >= 0 && (s.nb >= 1 ==> s.min <= s.max)
  }

  /** The update of the `cancell` and `absorb` macros: a positive amount is counted,
      anything else leaves the statistics as they are. */
  function Record(s: Stat, amount: int): (r: Stat)
    ensures amount <= 0 ==> r == s
    ensures amount > 0 ==> r.nb == s.nb + 1 && r.sum == s.sum + amount
    ensures amount > 0 ==> r.min <= amount <= r.max && r.min <= s.min && s.max <= r.max
    ensures amount > 0 ==> (r.min == amount || r.min == s.min) && (r.max == amount || r.max == s.max)
    ensures Consistent(s) ==> Consistent(r)
  {
    if amount > 0 then
      Stat(if amount < s.min then amount else s.min,
           if amount > s.max then amount else s.max,
           s.sum + amount, s.nb + 1)
    else s
  }

  /** The amounts of a history that are counted. */
  function Positives(h: seq<int>): seq<int> {
    if h == [] then []
    else Positives(h[..|h| - 1]) + (if h[|h| - 1] > 0 then [h[|h| - 1]] else [])
  }

  function Total(h: seq<int>): int {
    if h == [] then 0 else Total(h[..|h| - 1]) + h[|h| - 1]
  }

  /** The statistics after a history of amounts, oldest first. */
  function RecordAll(s: Stat, h: seq<int>): Stat {
    if h == [] then s else Record(RecordAll(s, h[..|h| - 1]), h[|h| - 1])
  }

  /** After any history the count grows by the number of positive amounts and the total
      by their sum; the recorded minimum and maximum bound every counted amount and the
      starting values, and each is one of them; the invariant is kept. */
  lemma {:induction false} RecordAllSummary(s: Stat, h: seq<int>)
    ensures var r := RecordAll(s, h);
      && r.nb == s.nb + |Positives(h)|
      && r.sum == s.sum + Total(Positives(h))
      && r.min <= s.min && s.max <= r.max
      && (forall i :: 0 <= i < |Positives(h)| ==> r.min <= Positives(h)[i] <= r.max)
      && (r.min == s.min || r.min in Positives(h))
      && (r.max == s.max || r.max in Positives(h))
      && (Consistent(s) ==> Consistent(r))
  {
    if h != [] {
      var init := h[..|h| - 1];
      var a := h[|h| - 1];
      RecordAllSummary(s, init);
      var q := RecordAll(s, init);
      var P := Positives(init);
      if a > 0 {
        assert Positives(h) == P + [a];
        assert Total(P + [a]) == Total(P) + a by { assert (P + [a])[..|P|] == P; }
        forall i | 0 <= i < |Positives(h)|
          ensures RecordAll(s, h).min <= Positives(h)[i] <= RecordAll(s, h).max
        {
          if i < |P| {
            assert Positives(h)[i] == P[i];
          }
        }
      } else {
        assert Positives(h) == P + [];
        assert P + [] == P;
      }
    }
  }

  // ---------------------------------------------------------------------------
  // The per-site record

  /** The analysis fields of an operation's record, updated in place. The round-off
      fields are not part of this model. */
  class FopsStats {
    var minCancellation: int
    var maxCancellation: int
    var sumCancellation: int
    var nbCancellation: int
    var minAbsorption: int
    var maxAbsorption: int
    var sumAbsorption: int
    var nbAbsorption: int

    /** A record whose counters all start at zero. */
    constructor ()
      ensures Cancellation() == Stat(0, 0, 0, 0) && Absorption() == Stat(0, 0, 0, 0)
    {
      minCancellation, maxCancellation, sumCancellation, nbCancellation := 0, 0, 0, 0;
      minAbsorption, maxAbsorption, sumAbsorption, nbAbsorption := 0, 0, 0, 0;
    }

    function Cancellation(): Stat
      reads this
    {
      Stat(minCancellation, maxCancellation, sumCancellation, nbCancellation)
    }

    function Absorption(): Stat
      reads this
    {
      Stat(minAbsorption, maxAbsorption, sumAbsorption, nbAbsorption)
    }

    /** The `cancell` macro. */
    method Cancell(amount: int)
      modifies this
      ensures Cancellation() == Record(old(Cancellation()), amount)
      ensures Absorption() == old(Absorption())
    {
      if amount > 0 {
        minCancellation := if amount < minCancellation then amount else minCancellation;
        maxCancellation := if amount > maxCancellation then amount else maxCancellation;
        sumCancellation := sumCancellation + amount;
        nbCancellation := nbCancellation + 1;
      }
    }

    /** The `absorb` macro, after the clamp at zero. */
    method Absorb(amount: int)
      modifies this
      ensures Absorption() == Record(old(Absorption()), amount)
      ensures Cancellation() == old(Cancellation())
    {
      if amount > 0 {
        minAbsorption := if amount < minAbsorption then amount else minAbsorption;
        maxAbsorption := if amount > maxAbsorption then amount else maxAbsorption;
        sumAbsorption := sumAbsorption + amount;
        nbAbsorption := nbAbsorption + 1;
      }
    }
  }

  // ---------------------------------------------------------------------------
  // Lookup and hooks

  /** A profile record: an operation with its statistics, or a call site. */
  datatype Entry = Operation(stats: FopsStats) | Call

  type StatsMap = map<string, Entry>

  datatype AnalysisError =
    | FopsNotFound(site: Option<string>)
    | NoProfile
    | OutputNotOpened(name: string)

  /** Every statistics record the map refers to. */
  function Footprint(m: StatsMap): set<FopsStats> {
    set id | id in m && m[id].Operation? :: m[id].stats
  }

  /** `get_inst_info(id)`: the statistics of an operation site; a null id, an unknown id
      or a record without operation data is fatal. */
  function GetInstInfo(id: Option<string>, m: StatsMap): (r: Result<FopsStats, AnalysisError>)
    ensures r.Success? <==> id.Some? && id.value in m && m[id.value].Operation?
    ensures r.Success? ==> r.value == m[id.value].stats && r.value in Footprint(m)
    ensures r.Failure? ==> r.error == FopsNotFound(id)
  {
    if id.Some? && id.value in m && m[id.value].Operation? then Success(m[id.value].stats)
    else Failure(FopsNotFound(id))
  }

  /** `analyse`: absorption for an effective addition, cancellation for an effective
      subtraction, on the record of the site. */
  method Analyse(f: Format, op: Op, x: Fp, y: Fp, z: Fp, id: Option<string>, m: StatsMap, p: Probes)
    returns (outcome: Outcome<AnalysisError>)
    modifies Footprint(m)
    ensures GetInstInfo(id, m).Failure? ==> outcome == Fail(FopsNotFound(id)) && unchanged(Footprint(m))
    ensures GetInstInfo(id, m).Success? ==>
      var s := GetInstInfo(id, m).value;
      && outcome == Pass
      && s.Absorption() ==
           (if IsAdd(f, op, x, y) then Record(old(s.Absorption()), AbsorptionAmount(f, x, y, z, p))
            else old(s.Absorption()))
      && s.Cancellation() ==
           (if IsSub(f, op, x, y) then Record(old(s.Cancellation()), CancellationAmount(f, x, y, z, p))
            else old(s.Cancellation()))
      && unchanged(Footprint(m) - {s})
    // neither an effective addition nor an effective subtraction: nothing is recorded
    ensures !IsAdd(f, op, x, y) && !IsSub(f, op, x, y) ==> unchanged(Footprint(m))
  {
    var info := GetInstInfo(id, m);
    if info.Failure? {
      return Fail(info.error);
    }
    var s := info.value;
    if IsAdd(f, op, x, y) {
      s.Absorb(AbsorptionAmount(f, x, y, z, p));
    }
    if IsSub(f, op, x, y) {
      s.Cancell(CancellationAmount(f, x, y, z, p));
    }
    return Pass;
  }

  /** The eight `_interflop_{add,sub,mul,div}_{float,double}` hooks: `*c = a op b`
      with the hardware operation, then `analyse` of a, b and the stored result. */
  method Hook(f: Format, op: Op, a: Fp, b: Fp, id: Option<string>, m: StatsMap, p: Probes,
              perform: (Format, Op, Fp, Fp) -> Fp)
    returns (c: Fp, outcome: Outcome<AnalysisError>)
    modifies Footprint(m)
    ensures c == perform(f, op, a, b)
    ensures GetInstInfo(id, m).Failure? ==> outcome == Fail(FopsNotFound(id)) && unchanged(Footprint(m))
    ensures GetInstInfo(id, m).Success? ==>
      var s := GetInstInfo(id, m).value;
      && outcome == Pass
      && s.Absorption() ==
           (if IsAdd(f, op, a, b) then Record(old(s.Absorption()), AbsorptionAmount(f, a, b, c, p))
            else old(s.Absorption()))
      && s.Cancellation() ==
           (if IsSub(f, op, a, b) then Record(old(s.Cancellation()), CancellationAmount(f, a, b, c, p))
            else old(s.Cancellation()))
      && unchanged(Footprint(m) - {s})
    ensures !IsAdd(f, op, a, b) && !IsSub(f, op, a, b) ==> unchanged(Footprint(m))
  {
    c := perform(f, op, a, b);
    outcome := Analyse(f, op, a, b, c, id, m, p);
  }

  /** Products and quotients leave every statistic unchanged; only the lookup can fail. */
  method HookMulDiv(f: Format, op: Op, a: Fp, b: Fp, id: Option<string>, m: StatsMap, p: Probes,
                    perform: (Format, Op, Fp, Fp) -> Fp)
    returns (c: Fp, outcome: Outcome<AnalysisError>)
    requires op == Mul || op == Div
    modifies Footprint(m)
    ensures c == perform(f, op, a, b)
    ensures outcome.Pass? <==> GetInstInfo(id, m).Success?
    ensures unchanged(Footprint(m))
  {
    Classification(f, op, a, b);
    c, outcome := Hook(f, op, a, b, id, m, p, perform);
  }

  // ---------------------------------------------------------------------------
  // Initialisation

  /** Where the results are written. */
  datatype OutputFile = Stdout | File(name: string)

  /** What `parse_opt` returns to the argument parser. */
  datatype ArgStatus = Parsed | ErrUnknown

  /** The backend's global state: the profile map and the output file. */
  class Backend {
    var instMap: StatsMap
    var output: OutputFile

    constructor ()
      ensures instMap == map[] && output == Stdout
    {
      instMap := map[];
      output := Stdout;
    }

    /** `parse_opt(key, arg)`: `-o name` opens the output file, a file that cannot be
        opened is fatal, and any other key is left to the argument parser. */
    method ParseOpt(key: char, arg: string, opens: string -> bool) returns (r: Result<ArgStatus, AnalysisError>)
      modifies this
      ensures key == 'o' && opens(arg) ==> r == Success(Parsed) && output == File(arg)
      ensures key == 'o' && !opens(arg) ==> r == Failure(OutputNotOpened(arg)) && output == old(output)
      ensures key != 'o' ==> r == Success(ErrUnknown) && output == old(output)
      ensures instMap == old(instMap)
    {
      if key != 'o' {
        return Success(ErrUnknown);
      }
      if opens(arg) {
        output := File(arg);
        return Success(Parsed);
      }
      return Failure(OutputNotOpened(arg));
    }

    /** `interflop_init`: the profile map is required; the output is stdout unless `-o`
        options name files, each of which is opened in turn. */
    method Init(m: Option<StatsMap>, outputs: seq<string>, opens: string -> bool) returns (outcome: Outcome<AnalysisError>)
      modifies this
      ensures m.None? ==> outcome == Fail(NoProfile)
      ensures m.Some? ==> match OutputAfter(outputs, opens)
        case Success(o) => outcome == Pass && instMap == m.value && output == o
        case Failure(e) => outcome == Fail(e)
    {
      if m.None? {
        return Fail(NoProfile);
      }
      instMap := m.value;
      output := Stdout;
      var i := 0;
      while i < |outputs|
        invariant 0 <= i <= |outputs|
        invariant instMap == m.value
        invariant OutputAfter(outputs, opens) == OutputAfterFrom(output, outputs[i..], opens)
      {
        assert outputs[i..] == [outputs[i]] + outputs[i + 1..];
        var r := ParseOpt('o', outputs[i], opens);
        if r.Failure? {
          return Fail(r.error);
        }
        i := i + 1;
      }
      assert outputs[i..] == [];
      return Pass;
    }

    /** `_interflop_finalize`: the output file is closed unless it is stdout. */
    method Finalize() returns (closes: bool)
      ensures closes <==> output.File?
    {
      closes := output != Stdout;
    }
  }

  /** The output file after the `-o` options, starting from `o`: the last named file, or
      the first one that cannot be opened. */
  function OutputAfterFrom(o: OutputFile, outputs: seq<string>, opens: string -> bool): Result<OutputFile, AnalysisError>
    decreases |outputs|
  {
    if outputs == [] then Success(o)
    else if !opens(outputs[0]) then Failure(OutputNotOpened(outputs[0]))
    else OutputAfterFrom(File(outputs[0]), outputs[1..], opens)
  }

  function OutputAfter(outputs: seq<string>, opens: string -> bool): Result<OutputFile, AnalysisError> {
    OutputAfterFrom(Stdout, outputs, opens)
  }

  /** Without `-o` the output is stdout; when every named file opens, the output is the
      last one; the first file that cannot be opened is the error. */
  lemma {:induction false} OutputAfterFromSummary(o: OutputFile, outputs: seq<string>, opens: string -> bool)
    ensures outputs == [] ==> OutputAfterFrom(o, outputs, opens) == Success(o)
    ensures (forall i :: 0 <= i < |outputs| ==> opens(outputs[i])) && outputs != [] ==>
      OutputAfterFrom(o, outputs, opens) == Success(File(outputs[|outputs| - 1]))
    ensures OutputAfterFrom(o, outputs, opens).Failure? <==> exists i :: 0 <= i < |outputs| && !opens(outputs[i])
    ensures OutputAfterFrom(o, outputs, opens).Failure? ==>
      exists i :: 0 <= i < |outputs| && !opens(outputs[i]) &&
        (forall j :: 0 <= j < i ==> opens(outputs[j])) &&
        OutputAfterFrom(o, outputs, opens) == Failure(OutputNotOpened(outputs[i]))
    decreases |outputs|
  {
    if outputs != [] {
      var t := outputs[1..];
      OutputAfterFromSummary(File(outputs[0]), t, opens);
      if opens(outputs[0]) {
        if OutputAfterFrom(o, outputs, opens).Failure? {
          var k :| 0 <= k < |t| && !opens(t[k]) && (forall j :: 0 <= j < k ==> opens(t[j])) &&
            OutputAfterFrom(File(outputs[0]), t, opens) == Failure(OutputNotOpened(t[k]));
          assert outputs[k + 1] == t[k];
          assert forall j :: 0 <= j < k + 1 ==> opens(outputs[j]) by {
            forall j | 0 <= j < k + 1 ensures opens(outputs[j]) {
              if j > 0 { assert outputs[j] == t[j - 1]; }
            }
          }
        } else {
          forall i | 0 <= i < |outputs| ensures opens(outputs[i]) {
            if i > 0 { assert outputs[i] == t[i - 1]; }
          }
        }
        if t != [] && forall i :: 0 <= i < |outputs| ==> opens(outputs[i]) {
          assert forall i :: 0 <= i < |t| ==> opens(t[i]) by {
            forall i | 0 <= i < |t| ensures opens(t[i]) { assert t[i] == outputs[i + 1]; }
          }
        }
      }
    }
  }
}
