/** The text format of the function table (`_vfc_print_array` / `_vfc_print_table`
    write it, `_vfc_init_table` reads it back), and the start and end of a run
    (`vfc_init_func_inst`, `vfc_quit_func_inst`). One line per record: the id, then the
    nine numeric fields, each after a tab, then a newline. */
module FuncInstrFile {
  import opened Wrappers
  import opened Decimal
  import opened FuncInstr

  /** The nine numeric fields of a record, in file order. */
  function FieldsOf(r: FunctionRecord): (vs: seq<int>)
    ensures |vs| == 9
  {
    [r.isLibraryFunction, r.isIntrinsicFunction, r.haveFloat, r.haveDouble,
     r.binary64Precision, r.binary64Range, r.binary32Precision, r.binary32Range, r.nCalls]
  }

  /** A record with the given id and numeric fields. */
  function WithFields(id: string, vs: seq<int>): (r: FunctionRecord)
    requires |vs| == 9
    ensures r.id == id && FieldsOf(r) == vs
  {
    FunctionRecord(id, vs[0], vs[1], vs[2], vs[3], vs[4], vs[5], vs[6], vs[7], vs[8])
  }

  /** "\t%d" for each value. */
  function FieldText(vs: seq<int>): (t: seq<char>)
    ensures vs != [] ==> t != [] && t[0] == '\t'
    ensures vs == [] ==> t == []
  {
    if vs == [] then [] else "\t" + IntToString(vs[0]) + FieldText(vs[1..])
  }

  /** The line `_vfc_print_array` writes for a record:
      "%s\t%d\t%d\t%d\t%d\t%d\t%d\t%d\t%d\t%d\n". */
  function PrintLine(r: FunctionRecord): seq<char> {
    r.id + FieldText(FieldsOf(r)) + "\n"
  }

  // ---------------------------------------------------------------------------
  // Reading with sscanf

  predicate NoSpace(s: seq<char>) { forall i :: 0 <= i < |s| ==> !IsSpace(s[i]) }

  /** The length of the leading run of characters that are not white space. */
  function WordRun(s: seq<char>): (n: nat)
    ensures n <= |s|
  {
    if s == [] || IsSpace(s[0]) then 0 else 1 + WordRun(s[1..])
  }

  /** The conversion a numeric field is read with: `%c` takes the next character's
      code, `%d` a decimal number. */
  datatype FieldKind = CharField | IntField

  /** The directives of `_vfc_init_table`'s format after `%s`: four `%c`, five `%d`. */
  const AsWrittenKinds: seq<FieldKind> := [CharField, CharField, CharField, CharField, IntField, IntField, IntField, IntField, IntField]

  /** Every field read as it was written, with `%d`. */
  const IntKinds: seq<FieldKind> := [IntField, IntField, IntField, IntField, IntField, IntField, IntField, IntField, IntField]

  /** One directive "\t%c" or "\t%d": skip white space, then convert; nothing when the
      conversion fails. */
  function ScanField(s: seq<char>, k: FieldKind): (r: Option<(int, seq<char>)>)
    ensures r.Some? ==> |r.value.1| < |s|
  {
    var t := s[SpaceRun(s)..];
    match k
    case CharField => if t == [] then None else Some((t[0] as int, t[1..]))
    case IntField =>
      var l := Strtol(t);
      if l.consumed == 0 then None else Some((l.value, t[l.consumed..]))
  }

  /** The values the directives convert, up to the first that fails. */
  function ScanFields(s: seq<char>, kinds: seq<FieldKind>): (vs: seq<int>)
    ensures |vs| <= |kinds|
  {
    if kinds == [] then []
    else match ScanField(s, kinds[0])
      case None => []
      case Some((v, rest)) => [v] + ScanFields(rest, kinds[1..])
  }

  /** The text after the leading white space of a line. */
  function Visible(line: seq<char>): seq<char> {
    if line == [] || !IsSpace(line[0]) then line else Visible(line[1..])
  }

  /** What `%s` takes from the visible text: the characters up to the next white space. */
  function Word(t: seq<char>): (w: seq<char>)
    ensures |w| <= |t| && w == t[..|w|]
  {
    t[..WordRun(t)]
  }

  /** `sscanf(line, format, &function...)` over the record variable, which keeps its
      previous contents in the fields not converted: the count of conversions, -1 (EOF)
      when the line holds only white space, and the updated record. */
  function ScanLine(line: seq<char>, prev: FunctionRecord, kinds: seq<FieldKind>): (r: (int, FunctionRecord))
    requires |kinds| == 9
  {
    var t := Visible(line);
    if t == [] then (-1, prev)
    else
      var vs := ScanFields(t[WordRun(t)..], kinds);
      (1 + |vs|, WithFields(Word(t), vs + FieldsOf(prev)[|vs|..]))
  }

  /** `_vfc_init_table` treats any non-zero count as success, but the count is never
      zero: a line with a visible character converts at least the id, and a blank line
      gives EOF (-1). The fatal branch cannot be taken, and a blank line adds the
      previous record again. */
  lemma ScanLineNeverZero(line: seq<char>, prev: FunctionRecord, kinds: seq<FieldKind>)
    requires |kinds| == 9
    ensures ScanLine(line, prev, kinds).0 != 0
    ensures ScanLine(line, prev, kinds).0 == -1 <==> forall i :: 0 <= i < |line| ==> IsSpace(line[i])
    ensures ScanLine(line, prev, kinds).0 == -1 ==> ScanLine(line, prev, kinds).1 == prev
  {
    VisibleEmpty(line);
  }

  lemma VisibleSuffix(line: seq<char>)
    ensures |Visible(line)| <= |line| && Visible(line) == line[|line| - |Visible(line)|..]
  {
    if line != [] && IsSpace(line[0]) {
      VisibleSuffix(line[1..]);
    }
  }

  lemma VisibleEmpty(line: seq<char>)
    ensures Visible(line) == [] <==> forall i :: 0 <= i < |line| ==> IsSpace(line[i])
  {
    if line != [] && IsSpace(line[0]) {
      VisibleEmpty(line[1..]);
      assert forall i :: 1 <= i < |line| ==> line[i] == line[1..][i - 1];
    }
  }

  /** A line that starts with a word and continues with white space is scanned as that
      word followed by the fields. */
  lemma ScanLineOfWord(id: seq<char>, tail: seq<char>, prev: FunctionRecord, kinds: seq<FieldKind>)
    requires id != [] && NoSpace(id) && tail != [] && IsSpace(tail[0]) && |kinds| == 9
    ensures var vs := ScanFields(tail, kinds);
      ScanLine(id + tail, prev, kinds) == (1 + |vs|, WithFields(id, vs + FieldsOf(prev)[|vs|..]))
  {
    var line := id + tail;
    WordThenTail(id, tail);
    var vs := ScanFields(tail, kinds);
    assert ScanFields(Visible(line)[WordRun(Visible(line))..], kinds) == vs;
    assert Word(Visible(line)) == id;
  }

  lemma WordThenTail(id: seq<char>, tail: seq<char>)
    requires id != [] && NoSpace(id) && tail != [] && IsSpace(tail[0])
    ensures Visible(id + tail) == id + tail
    ensures Word(id + tail) == id && (id + tail)[WordRun(id + tail)..] == tail
  {
    var line := id + tail;
    assert line[0] == id[0];
    WordRunPrefix(id, tail);
    assert line[..|id|] == id;
  }

  /** "\t%d" reads back a number `%d` wrote. */
  lemma ScanIntFieldValue(i: int, tail: seq<char>)
    requires LongMin <= i <= LongMax && (tail == [] || !IsDigit(tail[0]))
    ensures ScanField("\t" + IntToString(i) + tail, IntField) == Some((i, tail))
  {
    var d := IntToString(i);
    var s := "\t" + d + tail;
    assert s == "\t" + (d + tail);
    SpaceRunPrefix("\t", d + tail);
    assert s[SpaceRun(s)..] == d + tail;
    StrtolOfIntToString([], i, tail);
    assert [] + d + tail == d + tail;
    assert (d + tail)[|d|..] == tail;
  }

  /** One successful directive contributes its value ahead of the rest. */
  lemma ScanFieldsStep(s: seq<char>, kinds: seq<FieldKind>, v: int, tail: seq<char>)
    requires kinds != [] && ScanField(s, kinds[0]) == Some((v, tail))
    ensures ScanFields(s, kinds) == [v] + ScanFields(tail, kinds[1..])
  {
  }

  lemma ScanIntField(i: int, tail: seq<char>, kinds: seq<FieldKind>)
    requires LongMin <= i <= LongMax && (tail == [] || !IsDigit(tail[0]))
    requires kinds != [] && kinds[0] == IntField
    ensures ScanFields("\t" + IntToString(i) + tail, kinds) == [i] + ScanFields(tail, kinds[1..])
  {
    ScanIntFieldValue(i, tail);
    ScanFieldsStep("\t" + IntToString(i) + tail, kinds, i, tail);
  }

  /** "\t%c" reads the code of the character that follows the tab. */
  lemma ScanCharField(c: char, tail: seq<char>)
    requires !IsSpace(c)
    ensures ScanField("\t" + [c] + tail, CharField) == Some((c as int, tail))
  {
    var s := "\t" + [c] + tail;
    assert s == "\t" + ([c] + tail);
    SpaceRunPrefix("\t", [c] + tail);
    assert s[SpaceRun(s)..] == [c] + tail;
  }

  /** An id the format can carry: visible characters only, not starting with '#'. */
  predicate PrintableId(id: string) {
    id != [] && NoSpace(id) && id[0] != '#' && IsCString(id)
  }

  /** Every numeric field fits a `long`. */
  predicate FieldsInRange(r: FunctionRecord) {
    forall j :: 0 <= j < 9 ==> IntMin <= FieldsOf(r)[j] <= IntMax
  }

  /** Reading "\t%d..." with `%d` directives gives back the values written. */
  lemma {:induction false} ScanFieldText(vs: seq<int>, kinds: seq<FieldKind>, rest: seq<char>)
    requires |kinds| == |vs| && forall j :: 0 <= j < |kinds| ==> kinds[j] == IntField
    requires forall j :: 0 <= j < |vs| ==> LongMin <= vs[j] <= LongMax
    requires rest == [] || !IsDigit(rest[0])
    ensures ScanFields(FieldText(vs) + rest, kinds) == vs
  {
    if vs != [] {
      var tail := FieldText(vs[1..]) + rest;
      FieldTextCons(vs, rest);
      ScanIntField(vs[0], tail, kinds);
      ScanFieldText(vs[1..], kinds[1..], rest);
      assert [vs[0]] + vs[1..] == vs;
    }
  }

  lemma FieldTextCons(vs: seq<int>, rest: seq<char>)
    requires vs != [] && (rest == [] || !IsDigit(rest[0]))
    ensures var tail := FieldText(vs[1..]) + rest;
      && FieldText(vs) + rest == "\t" + IntToString(vs[0]) + tail
      && (tail == [] || !IsDigit(tail[0]))
  {
    var tail := FieldText(vs[1..]) + rest;
    assert vs[1..] != [] ==> tail[0] == '\t';
  }

  /** Read with `%c`, a flag written as 0 comes back as the code of the character '0'
      (48), so the record read differs from the record written. */
  lemma FlagsDoNotRoundTrip(r: FunctionRecord, prev: FunctionRecord)
    requires PrintableId(r.id) && r.isLibraryFunction == 0
    ensures ScanLine(PrintLine(r), prev, AsWrittenKinds).1.isLibraryFunction == '0' as int
    ensures ScanLine(PrintLine(r), prev, AsWrittenKinds).1 != r
  {
    var fs := FieldsOf(r);
    var rest := FieldText(fs[1..]) + "\n";
    var tail := FieldText(fs) + "\n";
    assert IntToString(0) == "0";
    assert tail == "\t" + ['0'] + rest;
    assert PrintLine(r) == r.id + tail;
    ScanLineOfWord(r.id, tail, prev, AsWrittenKinds);
    ScanCharField('0', rest);
    var vs := ScanFields(tail, AsWrittenKinds);
    assert vs[0] == '0' as int;
  }

  lemma WordRunPrefix(w: seq<char>, tail: seq<char>)
    requires NoSpace(w) && tail != [] && IsSpace(tail[0])
    ensures WordRun(w + tail) == |w|
  {
    if w != [] {
      assert (w + tail)[1..] == w[1..] + tail;
      WordRunPrefix(w[1..], tail);
    }
  }

  /** How one line of the table file is turned into a record, given the record variable's
      previous contents. */
  type LineReader = (seq<char>, FunctionRecord) -> Result<FunctionRecord, string>

  /** A reader whose ids, read from C strings, are C strings. */
  ghost predicate KeepsCStrings(read: LineReader) {
    forall line: seq<char>, prev: FunctionRecord | IsCString(line) && IsCString(prev.id) && read(line, prev).Success? ::
      IsCString(read(line, prev).value.id)
  }

  /** A line of the table file as `_vfc_init_table` reads it: the format's `%c` flags, and
      any non-zero count taken as success. */
  function ReadLineAsWritten(line: seq<char>, prev: FunctionRecord): (r: Result<FunctionRecord, string>)
    ensures r.Success? <==> ScanLine(line, prev, AsWrittenKinds).0 != 0
    ensures r.Success? ==> r.value == ScanLine(line, prev, AsWrittenKinds).1
  {
    var (count, rec) := ScanLine(line, prev, AsWrittenKinds);
    if count != 0 then Success(rec) else Failure(line)
  }

  /** As written, no line is refused: a blank line yields the previous record again,
      and a printed line yields a record whose flags are character codes. */
  lemma AsWrittenAcceptsEverything(line: seq<char>, prev: FunctionRecord)
    ensures ReadLineAsWritten(line, prev).Success?
    ensures (forall i :: 0 <= i < |line| ==> IsSpace(line[i])) ==> ReadLineAsWritten(line, prev) == Success(prev)
  {
    ScanLineNeverZero(line, prev, AsWrittenKinds);
  }

  /** A line of the table file as it is evidently meant to be read: every field with
      `%d`, and only a complete line of ten conversions accepted. */
  function ReadLine(line: seq<char>, prev: FunctionRecord): (r: Result<FunctionRecord, string>)
    ensures r.Success? <==> ScanLine(line, prev, IntKinds).0 == 10
    ensures r.Success? ==> r.value == ScanLine(line, prev, IntKinds).1
  {
    var (count, rec) := ScanLine(line, prev, IntKinds);
    if count == 10 then Success(rec) else Failure(line)
  }

  /** Scanning a printed line with `%d` directives converts all ten items and gives
      the record. */
  lemma ScanPrintedLine(r: FunctionRecord, prev: FunctionRecord)
    requires PrintableId(r.id) && FieldsInRange(r)
    ensures ScanLine(PrintLine(r), prev, IntKinds) == (10, r)
  {
    var vs := FieldsOf(r);
    var tail := FieldText(vs) + "\n";
    assert PrintLine(r) == r.id + tail;
    assert forall j :: 0 <= j < |IntKinds| ==> IntKinds[j] == IntField;
    assert forall j :: 0 <= j < |vs| ==> LongMin <= vs[j] <= LongMax;
    assert tail != [] && IsSpace(tail[0]);
    ScanLineOfWord(r.id, tail, prev, IntKinds);
    ScanFieldText(vs, IntKinds, "\n");
    assert ScanFields(tail, IntKinds) == vs;
    assert FieldsOf(prev)[9..] == [];
    assert vs + [] == vs;
    assert ScanLine(r.id + tail, prev, IntKinds) == (10, WithFields(r.id, vs));
  }

  /** Reading back a printed line gives the record. */
  lemma ReadPrintedLine(r: FunctionRecord, prev: FunctionRecord)
    requires PrintableId(r.id) && FieldsInRange(r)
    ensures ReadLine(PrintLine(r), prev) == Success(r)
  {
    ScanPrintedLine(r, prev);
  }

  predicate IsComment(line: seq<char>) { |line| > 0 && line[0] == '#' }

  /** The records a table file holds, read line by line into one record variable that
      keeps the previous line's values; comment lines are skipped. */
  function Loaded(lines: seq<seq<char>>, prev: FunctionRecord, read: LineReader): (r: Result<seq<FunctionRecord>, string>)
    decreases |lines|
  {
    if lines == [] then Success([])
    else if IsComment(lines[0]) then Loaded(lines[1..], prev, read)
    else match read(lines[0], prev)
      case Failure(e) => Failure(e)
      case Success(rec) =>
        match Loaded(lines[1..], rec, read)
        case Failure(e) => Failure(e)
        case Success(rs) => Success([rec] + rs)
  }

  /** The printed lines of a sequence of records. */
  function PrintLines(rs: seq<FunctionRecord>): (lines: seq<seq<char>>)
    ensures |lines| == |rs|
  {
    if rs == [] then [] else [PrintLine(rs[0])] + PrintLines(rs[1..])
  }

  predicate Printable(rs: seq<FunctionRecord>) {
    forall i :: 0 <= i < |rs| ==> PrintableId(rs[i].id) && FieldsInRange(rs[i])
  }

  /** What is printed is loaded back, record for record. */
  lemma {:induction false} LoadPrinted(rs: seq<FunctionRecord>, prev: FunctionRecord)
    requires Printable(rs)
    ensures Loaded(PrintLines(rs), prev, ReadLine) == Success(rs)
    decreases |rs|
  {
    if rs != [] {
      var lines := PrintLines(rs);
      PrintLinesCons(rs);
      PrintableCons(rs);
      PrintLineHead(rs[0]);
      ReadPrintedLine(rs[0], prev);
      LoadPrinted(rs[1..], rs[0]);
      LoadCons(lines, prev, ReadLine, rs);
    }
  }

  lemma PrintLinesCons(rs: seq<FunctionRecord>)
    requires rs != []
    ensures PrintLines(rs)[0] == PrintLine(rs[0]) && PrintLines(rs)[1..] == PrintLines(rs[1..])
  {
  }

  lemma PrintableCons(rs: seq<FunctionRecord>)
    requires rs != [] && Printable(rs)
    ensures PrintableId(rs[0].id) && FieldsInRange(rs[0]) && Printable(rs[1..])
  {
    forall i | 0 <= i < |rs| - 1
      ensures PrintableId(rs[1..][i].id) && FieldsInRange(rs[1..][i])
    {
      assert rs[1..][i] == rs[i + 1];
    }
  }

  /** A line read into the first record, followed by lines loading the rest. */
  lemma LoadCons(lines: seq<seq<char>>, prev: FunctionRecord, read: LineReader, rs: seq<FunctionRecord>)
    requires lines != [] && rs != [] && !IsComment(lines[0])
    requires read(lines[0], prev) == Success(rs[0])
    requires Loaded(lines[1..], rs[0], read) == Success(rs[1..])
    ensures Loaded(lines, prev, read) == Success(rs)
  {
    assert [rs[0]] + rs[1..] == rs;
  }

  lemma PrintLineHead(r: FunctionRecord)
    requires r.id != [] && r.id[0] != '#'
    ensures !IsComment(PrintLine(r))
  {
    assert PrintLine(r)[0] == r.id[0];
  }

  /** The records of buckets 0 .. n-1, bucket by bucket. */
  function Records(buckets: seq<FunctionArray>): seq<FunctionRecord> {
    if buckets == [] then [] else Records(buckets[..|buckets| - 1]) + buckets[|buckets| - 1].functions
  }

  /** `_vfc_print_array(f, a)`: one line per live entry, in order. */
  method PrintArray(a: FunctionArray) returns (lines: seq<seq<char>>)
    ensures lines == PrintLines(a.functions)
  {
    var fs := a.functions;
    lines := [];
    var j := 0;
    while j < |fs|
      invariant 0 <= j <= |fs|
      invariant lines == PrintLines(fs[..j])
    {
      PrintLinesSnoc(fs[..j], fs[j]);
      assert fs[..j + 1] == fs[..j] + [fs[j]];
      lines := lines + [PrintLine(fs[j])];
      j := j + 1;
    }
    assert fs[..j] == fs;
  }

  /** `_vfc_print_table(f)`: every bucket in order. */
  method PrintTable(t: FunctionTable) returns (lines: seq<seq<char>>)
    requires t.Valid()
    ensures lines == PrintLines(Records(t.table[..]))
  {
    var buckets := t.table[..];
    lines := [];
    var b := 0;
    while b < TableSize
      invariant 0 <= b <= TableSize
      invariant lines == PrintLines(Records(buckets[..b]))
    {
      var more := PrintArray(buckets[b]);
      PrintLinesAppend(Records(buckets[..b]), buckets[b].functions);
      assert buckets[..b + 1][..b] == buckets[..b];
      lines := lines + more;
      b := b + 1;
    }
    assert buckets[..b] == buckets;
  }

  lemma PrintLinesSnoc(a: seq<FunctionRecord>, r: FunctionRecord)
    ensures PrintLines(a + [r]) == PrintLines(a) + [PrintLine(r)]
  {
    PrintLinesAppend(a, [r]);
    assert PrintLines([r]) == [PrintLine(r)];
  }

  lemma {:induction false} PrintLinesAppend(a: seq<FunctionRecord>, b: seq<FunctionRecord>)
    ensures PrintLines(a + b) == PrintLines(a) + PrintLines(b)
    decreases |a|
  {
    if a != [] {
      assert (a + b)[0] == a[0] && (a + b)[1..] == a[1..] + b;
      PrintLinesAppend(a[1..], b);
    } else {
      assert a + b == b;
    }
  }

  /** `_vfc_init_table()` on the lines of the input file: every line that is not a
      comment is read with `read` and added to the table; a line that cannot be read is
      fatal. */
  method InitTable(t: FunctionTable, lines: seq<seq<char>>, read: LineReader) returns (outcome: Outcome<string>)
    requires t.Valid() && KeepsCStrings(read) && forall l | l in lines :: IsCString(l)
    modifies t.table
    ensures t.Valid()
    ensures outcome == Pass <==> Loaded(lines, InitialRecord, read).Success?
    ensures outcome == Pass ==> forall b :: 0 <= b < TableSize ==>
      t.table[b].functions == old(t.table[b].functions) + InBucket(Loaded(lines, InitialRecord, read).value, b)
  {
    var prev := InitialRecord;
    ghost var added: seq<FunctionRecord> := [];
    ghost var start := t.table[..];
    var i := 0;
    assert lines[i..] == lines;
    while i < |lines|
      invariant 0 <= i <= |lines| && t.Valid() && IsCString(prev.id)
      invariant Loaded(lines, InitialRecord, read) == Prepend(added, Loaded(lines[i..], prev, read))
      invariant forall b :: 0 <= b < TableSize ==> t.table[b].functions == start[b].functions + InBucket(added, b)
    {
      var line := lines[i];
      ghost var rest := lines[i..];
      assert rest[0] == line && rest[1..] == lines[i + 1..];
      if IsComment(line) {
        LoadedComment(rest, prev, read);
      } else {
        var r := read(line, prev);
        if r.Failure? {
          LoadedFailure(rest, prev, read);
          return Fail(r.error);
        }
        var rec := r.value;
        LoadedRecord(rest, prev, read, rec);
        assert line in lines;
        ReadKeepsCString(read, line, prev);
        AddLoaded(t, rec, start, added);
        PrependPrepend(added, [rec], Loaded(lines[i + 1..], rec, read));
        added := added + [rec];
        prev := rec;
      }
      i := i + 1;
    }
    assert lines[i..] == [];
    assert added + [] == added;
    return Pass;
  }

  /** One record of the file added to the table (`_vfc_table_add`): every bucket stays
      its start plus the records loaded so far that hash to it. */
  method AddLoaded(t: FunctionTable, rec: FunctionRecord, ghost start: seq<FunctionArray>, ghost added: seq<FunctionRecord>)
    requires t.Valid() && IsCString(rec.id) && |start| == TableSize
    requires forall b :: 0 <= b < TableSize ==> t.table[b].functions == start[b].functions + InBucket(added, b)
    modifies t.table
    ensures t.Valid()
    ensures forall b :: 0 <= b < TableSize ==> t.table[b].functions == start[b].functions + InBucket(added + [rec], b)
  {
    ghost var before := t.table[..];
    var ref := t.TableAdd(rec);
    assert t.table[..][Bucket(rec.id)].functions == before[Bucket(rec.id)].functions + [rec];
    assert forall c :: 0 <= c < TableSize && c != Bucket(rec.id) ==> t.table[..][c] == before[c];
    BucketsAfterAdd(start, before, t.table[..], added, rec);
  }

  /** A loading result with the records already read in front. */
  function Prepend(added: seq<FunctionRecord>, res: Result<seq<FunctionRecord>, string>): (r: Result<seq<FunctionRecord>, string>)
    ensures added == [] ==> r == res
    ensures r.Success? <==> res.Success?
  {
    match res
    case Failure(e) => res
    case Success(rs) =>
      assert added == [] ==> added + rs == rs;
      Success(added + rs)
  }

  lemma PrependPrepend(a: seq<FunctionRecord>, b: seq<FunctionRecord>, res: Result<seq<FunctionRecord>, string>)
    ensures Prepend(a, Prepend(b, res)) == Prepend(a + b, res)
  {
    if res.Success? {
      assert a + (b + res.value) == (a + b) + res.value;
    }
  }

  /** One line of the loading, as `Loaded` takes it: a comment is skipped, a line that
      cannot be read fails the load, a line read puts its record in front. */
  lemma LoadedComment(lines: seq<seq<char>>, prev: FunctionRecord, read: LineReader)
    requires lines != [] && IsComment(lines[0])
    ensures Loaded(lines, prev, read) == Loaded(lines[1..], prev, read)
  {
  }

  lemma LoadedFailure(lines: seq<seq<char>>, prev: FunctionRecord, read: LineReader)
    requires lines != [] && !IsComment(lines[0]) && read(lines[0], prev).Failure?
    ensures Loaded(lines, prev, read).Failure?
  {
  }

  lemma LoadedRecord(lines: seq<seq<char>>, prev: FunctionRecord, read: LineReader, rec: FunctionRecord)
    requires lines != [] && !IsComment(lines[0]) && read(lines[0], prev) == Success(rec)
    ensures Loaded(lines, prev, read) == Prepend([rec], Loaded(lines[1..], rec, read))
  {
  }

  /** Adding a record to its bucket keeps every bucket equal to its start plus the
      records added so far that hash to it. */
  lemma BucketsAfterAdd(start: seq<FunctionArray>, before: seq<FunctionArray>, after: seq<FunctionArray>,
                        added: seq<FunctionRecord>, rec: FunctionRecord)
    requires |start| == |before| == |after| == TableSize
    requires forall b :: 0 <= b < TableSize ==> before[b].functions == start[b].functions + InBucket(added, b)
    requires after[Bucket(rec.id)].functions == before[Bucket(rec.id)].functions + [rec]
    requires forall c :: 0 <= c < TableSize && c != Bucket(rec.id) ==> after[c] == before[c]
    ensures forall b :: 0 <= b < TableSize ==> after[b].functions == start[b].functions + InBucket(added + [rec], b)
  {
    forall b | 0 <= b < TableSize
      ensures after[b].functions == start[b].functions + InBucket(added + [rec], b)
    {
      InBucketSnoc(added, rec, b);
    }
  }

  lemma InBucketSnoc(a: seq<FunctionRecord>, r: FunctionRecord, b: nat)
    ensures InBucket(a + [r], b) == InBucket(a, b) + (if Bucket(r.id) == b then [r] else [])
  {
    InBucketAppend(a, [r], b);
    assert InBucket([r], b) == (if Bucket(r.id) == b then [r] else []) + InBucket([], b);
  }

  lemma ReadLineKeepsCStrings()
    ensures KeepsCStrings(ReadLine)
  {
    forall line: seq<char>, prev: FunctionRecord | IsCString(line) && IsCString(prev.id) && ReadLine(line, prev).Success?
      ensures IsCString(ReadLine(line, prev).value.id)
    {
      ReadIdIsCString(line, prev);
    }
  }

  lemma ReadKeepsCString(read: LineReader, line: seq<char>, prev: FunctionRecord)
    requires KeepsCStrings(read) && IsCString(line) && IsCString(prev.id) && read(line, prev).Success?
    ensures IsCString(read(line, prev).value.id)
  {
  }

  lemma ReadLineAsWrittenKeepsCStrings()
    ensures KeepsCStrings(ReadLineAsWritten)
  {
    forall line: seq<char>, prev: FunctionRecord | IsCString(line) && IsCString(prev.id) && ReadLineAsWritten(line, prev).Success?
      ensures IsCString(ReadLineAsWritten(line, prev).value.id)
    {
      if Visible(line) != [] {
        WordIsCString(line);
      }
    }
  }

  /** The id read from a C-string line is a C string. */
  lemma ReadIdIsCString(line: seq<char>, prev: FunctionRecord)
    requires IsCString(line) && ReadLine(line, prev).Success?
    ensures IsCString(ReadLine(line, prev).value.id)
  {
    var t := Visible(line);
    assert t != [];
    WordIsCString(line);
  }

  lemma WordIsCString(line: seq<char>)
    requires IsCString(line)
    ensures IsCString(Word(Visible(line)))
  {
    VisibleSuffix(line);
    var t := Visible(line);
    var w := Word(t);
    forall i | 0 <= i < |w|
      ensures 0 < w[i] as int < 256
    {
      assert w[i] == t[i] == line[|line| - |t| + i];
    }
  }


  /** The record variable's contents before the first line: flags cleared, the rest
      unset (modelled as zero and an empty id). */
  const InitialRecord: FunctionRecord := FunctionRecord("", 0, 0, 0, 0, 0, 0, 0, 0, 0)

  /** The records among rs that hash to bucket b, in order. */
  function InBucket(rs: seq<FunctionRecord>, b: nat): seq<FunctionRecord> {
    if rs == [] then []
    else (if Bucket(rs[0].id) == b then [rs[0]] else []) + InBucket(rs[1..], b)
  }

  lemma {:induction false} InBucketAppend(a: seq<FunctionRecord>, c: seq<FunctionRecord>, b: nat)
    ensures InBucket(a + c, b) == InBucket(a, b) + InBucket(c, b)
    decreases |a|
  {
    if a != [] {
      assert (a + c)[0] == a[0] && (a + c)[1..] == a[1..] + c;
      InBucketAppend(a[1..], c, b);
    } else {
      assert a + c == c;
    }
  }
  /** Every record of a hash-consistent table lies in its own bucket, so the records of
      all buckets, split by bucket again, give each bucket back. */
  lemma {:induction false} InBucketRecords(buckets: seq<FunctionArray>, b: nat)
    requires forall c, r | 0 <= c < |buckets| && r in buckets[c].functions :: Bucket(r.id) == c
    ensures InBucket(Records(buckets), b) == if b < |buckets| then buckets[b].functions else []
    decreases |buckets|
  {
    if buckets != [] {
      var n := |buckets| - 1;
      var init := buckets[..n];
      InBucketRecords(init, b);
      InBucketAppend(Records(init), buckets[n].functions, b);
      InBucketOne(buckets[n].functions, n, b);
    }
  }

  lemma {:induction false} InBucketOne(fs: seq<FunctionRecord>, c: nat, b: nat)
    requires forall r | r in fs :: Bucket(r.id) == c
    ensures InBucket(fs, b) == if b == c then fs else []
    decreases |fs|
  {
    if fs != [] {
      SameBucketTail(fs, c);
      InBucketOne(fs[1..], c, b);
    }
  }

  lemma SameBucketTail(fs: seq<FunctionRecord>, c: nat)
    requires fs != [] && forall r | r in fs :: Bucket(r.id) == c
    ensures Bucket(fs[0].id) == c && forall r | r in fs[1..] :: Bucket(r.id) == c
  {
    assert fs[0] in fs;
    assert forall r | r in fs[1..] :: r in fs;
  }

  /** The file `vfc_quit_func_inst` writes is one `vfc_init_func_inst` reads back: loading
      the printed table into empty buckets gives every bucket its records again, in order. */
  lemma ReloadPrintedTable(buckets: seq<FunctionArray>)
    requires |buckets| == TableSize
    requires forall c, r | 0 <= c < |buckets| && r in buckets[c].functions :: Bucket(r.id) == c
    requires Printable(Records(buckets))
    ensures Loaded(PrintLines(Records(buckets)), InitialRecord, ReadLine) == Success(Records(buckets))
    ensures forall b :: 0 <= b < TableSize ==> InBucket(Records(buckets), b) == buckets[b].functions
  {
    LoadPrinted(Records(buckets), InitialRecord);
    forall b | 0 <= b < TableSize
      ensures InBucket(Records(buckets), b) == buckets[b].functions
    {
      InBucketRecords(buckets, b);
    }
  }

  /** The records an initialisation loads: those of the input file when one is named and
      loads, none otherwise. */
  function Preloaded(inputUsed: bool, input: Option<seq<seq<char>>>, read: LineReader): seq<FunctionRecord> {
    if inputUsed && input.Some? && Loaded(input.value, InitialRecord, read).Success? then
      Loaded(input.value, InitialRecord, read).value
    else []
  }

  /** `vfc_init_func_inst()` on a fresh table and stack: when an input file is named
      (`VFC_PREC_INPUT`), it must open (`input` is its lines, or nothing when it cannot
      be opened) and load with `read`; then `main` is entered. Afterwards every bucket
      holds the loaded records that hash to it, and `main`'s bucket also holds `main`:
      appended when the file did not name it, its loaded entry counted once more
      otherwise. */
  method Init(t: FunctionTable, inputUsed: bool, input: Option<seq<seq<char>>>, read: LineReader)
    returns (outcome: Outcome<string>)
    requires t.Valid() && t.stack == [] && forall b :: 0 <= b < TableSize ==> t.table[b].functions == []
    requires input.Some? ==> forall l | l in input.value :: IsCString(l)
    requires KeepsCStrings(read)
    modifies t, t.table
    ensures t.Valid() && t.StackLive() && t.table == old(t.table)
    ensures outcome.Fail? <==> inputUsed && (input.None? || Loaded(input.value, InitialRecord, read).Failure?)
    ensures outcome == Pass ==> |t.stack| == 1 && t.Entry(t.stack[0]).id == "main"
    ensures outcome == Pass ==> forall b :: 0 <= b < TableSize && b != Bucket("main") ==>
      t.table[b].functions == InBucket(Preloaded(inputUsed, input, read), b)
    ensures outcome == Pass ==>
      var m := InBucket(Preloaded(inputUsed, input, read), Bucket("main"));
      t.table[Bucket("main")].functions ==
        match FindFirst(m, "main")
        case None => m + [NewRecord("main", 0, 0, 1, 1)]
        case Some(k) => m[k := m[k].(isLibraryFunction := 0, isIntrinsicFunction := 0, nCalls := m[k].nCalls + 1)]
  {
    if inputUsed {
      if input.None? {
        return Fail("Precision input file can't be found");
      }
      outcome := InitTable(t, input.value, read);
      if outcome.Fail? {
        return;
      }
    }
    EnterMain(t, Preloaded(inputUsed, input, read));
    return Pass;
  }

  /** `main` entered into a table holding the records `pre`, bucket by bucket. */
  method EnterMain(t: FunctionTable, ghost pre: seq<FunctionRecord>)
    requires t.Valid() && t.stack == []
    requires forall b :: 0 <= b < TableSize ==> t.table[b].functions == InBucket(pre, b)
    modifies t, t.table
    ensures t.Valid() && t.StackLive() && t.table == old(t.table)
    ensures |t.stack| == 1 && t.Entry(t.stack[0]).id == "main"
    ensures forall b :: 0 <= b < TableSize && b != Bucket("main") ==> t.table[b].functions == InBucket(pre, b)
    ensures var m := InBucket(pre, Bucket("main"));
      t.table[Bucket("main")].functions ==
        match FindFirst(m, "main")
        case None => m + [NewRecord("main", 0, 0, 1, 1)]
        case Some(k) => m[k := m[k].(isLibraryFunction := 0, isIntrinsicFunction := 0, nCalls := m[k].nCalls + 1)]
  {
    assert IsCString("main");
    var _ := t.EnterFunction("main", 0, 0, 1, 1);
  }

  /** `vfc_quit_func_inst()`: when an output file is named (`VFC_PREC_OUTPUT`) the table
      is printed to it (`canCreate` says whether it can be created; the lines written are
      returned), then `main` is exited. */
  method Quit(t: FunctionTable, outputUsed: bool, canCreate: bool) returns (written: seq<seq<char>>, outcome: Outcome<string>)
    requires t.Valid() && t.StackLive()
    modifies t
    ensures t.Valid() && t.table == old(t.table)
    ensures outcome.Fail? <==> outputUsed && !canCreate
    ensures outcome == Pass && outputUsed ==> written == PrintLines(Records(old(t.table[..])))
    ensures outcome == Pass ==> |t.stack| == (if old(|t.stack|) == 0 then 0 else old(|t.stack|) - 1) && t.stack == old(t.stack)[..|t.stack|]
  {
    written := [];
    if outputUsed {
      if !canCreate {
        return [], Fail("Cannot create the output file");
      }
      written := PrintTable(t);
    }
    t.ExitFunction();
    return written, Pass;
  }
}
