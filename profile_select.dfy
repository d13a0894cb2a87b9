/** Which instructions the profiling pass records: the include and exclude function-set
    files (`parseFunctionSetFile`), the `--function` override and the precedence rule of
    `isIncluded`. Regular expressions are patterns given as text; matching a subject
    against a pattern (`std::regex_match`) is a parameter of the model. */
module ProfileSelect {
  import opened Wrappers
  import opened Decimal
  import opened ProfileStrings

  /** `std::regex_match(subject, std::regex(pattern))`. */
  type Matcher = (string, string) -> bool

  datatype ProfileError =
    | CannotOpen(fileName: string)
    | SyntaxError(fileName: string, lineno: nat)

  // ---------------------------------------------------------------------------
  // Lines of a function-set file

  /** `StringRef::trim()`: white space removed at both ends. */
  function TrimLeft(s: string): (r: string)
    ensures |r| <= |s|
  {
    if s != [] && IsSpace(s[0]) then TrimLeft(s[1..]) else s
  }

  function TrimRight(s: string): (r: string)
    ensures |r| <= |s|
  {
    if s != [] && IsSpace(s[|s| - 1]) then TrimRight(s[..|s| - 1]) else s
  }

  function Trim(s: string): string {
    TrimRight(TrimLeft(s))
  }

  /** The position of the first c in s, or -1. */
  function IndexOf(s: string, c: char): (r: int)
    ensures r == -1 || (0 <= r < |s| && s[r] == c)
  {
    if s == [] then -1
    else if s[0] == c then 0
    else var k := IndexOf(s[1..], c); if k == -1 then -1 else k + 1
  }

  lemma {:induction false} IndexOfFirst(s: string, c: char, j: int)
    requires 0 <= j < (if IndexOf(s, c) == -1 then |s| else IndexOf(s, c))
    ensures s[j] != c
  {
    if j > 0 {
      IndexOfFirst(s[1..], c, j - 1);
    }
  }

  /** What one line of a function-set file says. */
  datatype LineKind =
    | Ignored                                   // a comment or a blank line
    | Malformed                                 // nothing after the first space
    | Entry(modulePart: string, functionPart: string)   // both halves, trimmed

  /** A line is split at its first space; the part after it must not be empty. */
  function ParseLine(l: string): LineKind {
    if (l != [] && l[0] == '#') || Trim(l) == [] then Ignored
    else
      var i := IndexOf(l, ' ');
      if i == -1 || l[i + 1..] == [] then Malformed
      else Entry(Trim(l[..i]), Trim(l[i + 1..]))
  }

  /** An entry is the two trimmed halves around the first space of the line, and the
      second half is not empty before trimming. */
  lemma EntrySplitsAtFirstSpace(l: string)
    requires ParseLine(l).Entry?
    ensures exists i ::
      && 0 <= i < |l| - 1 && l[i] == ' ' && ' ' !in l[..i]
      && ParseLine(l) == Entry(Trim(l[..i]), Trim(l[i + 1..]))
  {
    var i := IndexOf(l, ' ');
    assert ' ' !in l[..i] by {
      forall j | 0 <= j < i ensures l[..i][j] != ' ' {
        IndexOfFirst(l, ' ', j);
      }
    }
  }

  /** A line that is neither a comment nor blank is malformed when it holds no space, or
      when its only space is its last character. */
  lemma MalformedLines(l: string)
    requires l != [] && l[0] != '#' && Trim(l) != []
    ensures ' ' !in l ==> ParseLine(l) == Malformed
    ensures l[|l| - 1] == ' ' && ' ' !in l[..|l| - 1] ==> ParseLine(l) == Malformed
  {
    var k := IndexOf(l, ' ');
    if l[|l| - 1] == ' ' && ' ' !in l[..|l| - 1] {
      if k == -1 {
        IndexOfFirst(l, ' ', |l| - 1);
      }
    }
  }

  // ---------------------------------------------------------------------------
  // Module patterns

  /** `sys::path::is_relative` for POSIX paths. */
  predicate IsRelative(p: string) { p == [] || p[0] != '/' }

  /** The last component of a path: what follows its last separator (empty when the path
      ends with one). */
  function LastComponent(p: string): (c: string)
    ensures |c| <= |p|
  {
    if p == [] || p[|p| - 1] == '/' then [] else LastComponent(p[..|p| - 1]) + [p[|p| - 1]]
  }

  /** `sys::path::has_extension`: the file name holds a dot and is neither "." nor "..". */
  predicate HasExtension(p: string) {
    var c := LastComponent(p);
    c != ['.'] && c != ['.', '.'] && '.' in c
  }

  /** The module half of an entry before escaping: relative paths match in any
      directory, and a name without extension matches any extension. */
  function ModuleSource(m: string): (r: string)
    ensures |r| >= |m| + (if IsRelative(m) then 2 else 0)
    ensures IsRelative(m) ==> r[..|m| + 2] == ['*', '/'] + m
    ensures !IsRelative(m) ==> r[..|m|] == m
    ensures HasExtension(if IsRelative(m) then ['*', '/'] + m else m) <==> |r| == |m| + (if IsRelative(m) then 2 else 0)
  {
    var a := if IsRelative(m) then ['*', '/'] + m else m;
    var b := if HasExtension(a) then a else a + ['.', '*'];
    assert b[..|a|] == a;
    b
  }

  // ---------------------------------------------------------------------------
  // A whole file

  function Prepend(fs: seq<string>, r: Result<seq<string>, ProfileError>): (p: Result<seq<string>, ProfileError>)
    ensures p.Success? <==> r.Success?
  {
    match r
    case Success(v) => Success(fs + v)
    case Failure(e) => Failure(e)
  }

  /** The regular expressions of an entry, as the loop builds them: the module half
      made a source pattern, and both halves escaped. Other lines are kept as they are. */
  function Patterns(k: LineKind): (p: LineKind)
    ensures p.Entry? == k.Entry? && p.Malformed? == k.Malformed?
  {
    match k
    case Entry(m, f) => Entry(Escaped(ModuleSource(m)), Escaped(f))
    case _ => k
  }

  /** The classification of every line of a file, with the patterns of its entries. */
  function Kinds(lines: seq<string>): (ks: seq<LineKind>)
    ensures |ks| == |lines|
  {
    if lines == [] then [] else [Patterns(ParseLine(lines[0]))] + Kinds(lines[1..])
  }

  /** Line j of a file is classified on its own. */
  lemma {:induction false} KindAt(lines: seq<string>, j: nat)
    requires j < |lines|
    ensures Kinds(lines)[j] == Patterns(ParseLine(lines[j]))
  {
    if j > 0 {
      KindAt(lines[1..], j - 1);
    }
  }

  /** The function patterns of the entries from line i on whose module pattern matches
      the module, or the first syntax error (lines are numbered from 1). */
  function SelectedFrom(kinds: seq<LineKind>, i: nat, fileName: string, moduleName: string, matches: Matcher): Result<seq<string>, ProfileError>
    requires i <= |kinds|
    decreases |kinds| - i
  {
    if i == |kinds| then Success([])
    else match kinds[i]
      case Ignored => SelectedFrom(kinds, i + 1, fileName, moduleName, matches)
      case Malformed => Failure(SyntaxError(fileName, i + 1))
      case Entry(mp, fp) =>
        var rest := SelectedFrom(kinds, i + 1, fileName, moduleName, matches);
        if matches(moduleName, mp) then Prepend([fp], rest) else rest
  }

  /** The patterns joined with '|'. */
  function JoinBar(fs: seq<string>): string {
    if fs == [] then []
    else if |fs| == 1 then fs[0]
    else JoinBar(fs[..|fs| - 1]) + ['|'] + fs[|fs| - 1]
  }

  /** Each pattern followed by '|': what the loop accumulates. */
  function BarTerminated(fs: seq<string>): string {
    if fs == [] then [] else BarTerminated(fs[..|fs| - 1]) + fs[|fs| - 1] + ['|']
  }

  /** Removing the last character of the accumulated text gives the patterns joined
      with '|' and no trailing bar. */
  lemma {:induction false} BarTerminatedJoin(fs: seq<string>)
    ensures fs == [] <==> BarTerminated(fs) == []
    ensures fs != [] ==> BarTerminated(fs) == JoinBar(fs) + ['|']
  {
    if fs != [] {
      var init := fs[..|fs| - 1];
      BarTerminatedJoin(init);
      if init == [] {
        assert |fs| == 1;
        assert BarTerminated(fs) == [] + fs[0] + ['|'];
      }
    }
  }

  function JoinResult(r: Result<seq<string>, ProfileError>): Result<string, ProfileError> {
    match r
    case Success(fs) => Success(JoinBar(fs))
    case Failure(e) => Failure(e)
  }

  lemma PrependPrepend(a: seq<string>, b: seq<string>, r: Result<seq<string>, ProfileError>)
    ensures Prepend(a, Prepend(b, r)) == Prepend(a + b, r)
  {
    if r.Success? {
      assert a + (b + r.value) == (a + b) + r.value;
    }
  }

  /** The escaped function half of an entry whose escaped module half matches the
      module, if any. */
  method EntryPattern(kind: LineKind, moduleName: string, matches: Matcher) returns (fun: Option<string>)
    ensures fun.Some? <==> kind.Entry? && matches(moduleName, Patterns(kind).modulePart)
    ensures fun.Some? ==> fun.value == Patterns(kind).functionPart
  {
    fun := None;
    if kind.Entry? {
      var mod := EscapeRegex(ModuleSource(kind.modulePart));
      var f := EscapeRegex(kind.functionPart);
      if matches(moduleName, mod) {
        fun := Some(f);
      }
    }
  }

  lemma PrependNothing(r: Result<seq<string>, ProfileError>)
    ensures Prepend([], r) == r
  {
    if r.Success? {
      assert [] + r.value == r.value;
    }
  }

  lemma BarTerminatedSnoc(fs: seq<string>, f: string)
    ensures BarTerminated(fs + [f]) == BarTerminated(fs) + f + ['|']
  {
    assert (fs + [f])[..|fs|] == fs;
  }

  /** What one well-formed line adds to the patterns selected so far, and to the
      alternation built from them. */
  lemma ParseLoopStep(kinds: seq<LineKind>, i: nat, fileName: string, moduleName: string, matches: Matcher,
                      acc: seq<string>, selected: Option<string>, added: seq<string>, whole: Result<seq<string>, ProfileError>)
    requires i < |kinds| && !kinds[i].Malformed?
    requires selected.Some? <==> kinds[i].Entry? && matches(moduleName, kinds[i].modulePart)
    requires selected.Some? ==> selected.value == kinds[i].functionPart
    requires added == (if selected.Some? then [selected.value] else [])
    requires whole == Prepend(acc, SelectedFrom(kinds, i, fileName, moduleName, matches))
    ensures whole == Prepend(acc + added, SelectedFrom(kinds, i + 1, fileName, moduleName, matches))
    ensures BarTerminated(acc + added) ==
      if selected.Some? then BarTerminated(acc) + selected.value + ['|'] else BarTerminated(acc)
  {
    var next := SelectedFrom(kinds, i + 1, fileName, moduleName, matches);
    if added == [] {
      assert acc + added == acc;
    } else {
      PrependPrepend(acc, added, next);
      BarTerminatedSnoc(acc, selected.value);
    }
  }

  lemma SelectedFromStep(kinds: seq<LineKind>, i: nat, fileName: string, moduleName: string, matches: Matcher)
    requires i < |kinds|
    ensures kinds[i].Malformed? ==>
      SelectedFrom(kinds, i, fileName, moduleName, matches) == Failure(SyntaxError(fileName, i + 1))
    ensures !kinds[i].Malformed? ==>
      var here := SelectedFrom(kinds, i, fileName, moduleName, matches);
      var next := SelectedFrom(kinds, i + 1, fileName, moduleName, matches);
      (here.Success? <==> next.Success?) && (here.Failure? ==> here.error == next.error)
  {
  }

  /** A file is accepted exactly when none of its lines is malformed. */
  lemma {:induction false} SelectedFromAccepts(kinds: seq<LineKind>, i: nat, fileName: string, moduleName: string, matches: Matcher)
    requires i <= |kinds|
    ensures SelectedFrom(kinds, i, fileName, moduleName, matches).Success? <==>
      forall j :: i <= j < |kinds| ==> !kinds[j].Malformed?
    decreases |kinds| - i
  {
    if i < |kinds| {
      SelectedFromAccepts(kinds, i + 1, fileName, moduleName, matches);
      SelectedFromStep(kinds, i, fileName, moduleName, matches);
      AcceptStep(kinds, i, SelectedFrom(kinds, i, fileName, moduleName, matches).Success?,
                 SelectedFrom(kinds, i + 1, fileName, moduleName, matches).Success?);
    }
  }

  lemma AcceptStep(kinds: seq<LineKind>, i: nat, here: bool, next: bool)
    requires i < |kinds|
    requires kinds[i].Malformed? ==> !here
    requires !kinds[i].Malformed? ==> (here <==> next)
    requires next <==> forall j :: i + 1 <= j < |kinds| ==> !kinds[j].Malformed?
    ensures here <==> forall j :: i <= j < |kinds| ==> !kinds[j].Malformed?
  {
  }

  /** A rejected file names its first malformed line, numbered from 1. */
  lemma {:induction false} SelectedFromFirstError(kinds: seq<LineKind>, i: nat, fileName: string, moduleName: string, matches: Matcher)
    requires i <= |kinds|
    requires SelectedFrom(kinds, i, fileName, moduleName, matches).Failure?
    ensures exists j ::
      && i <= j < |kinds| && kinds[j].Malformed?
      && (forall k :: i <= k < j ==> !kinds[k].Malformed?)
      && SelectedFrom(kinds, i, fileName, moduleName, matches).error == SyntaxError(fileName, j + 1)
    decreases |kinds| - i
  {
    SelectedFromStep(kinds, i, fileName, moduleName, matches);
    if !kinds[i].Malformed? {
      SelectedFromFirstError(kinds, i + 1, fileName, moduleName, matches);
      var j :| i + 1 <= j < |kinds| && kinds[j].Malformed? &&
        (forall k :: i + 1 <= k < j ==> !kinds[k].Malformed?) &&
        SelectedFrom(kinds, i + 1, fileName, moduleName, matches).error == SyntaxError(fileName, j + 1);
      assert forall k :: i <= k < j ==> !kinds[k].Malformed?;
    }
  }

  /** `parseFunctionSetFile(M, fileName)`: no file gives the empty pattern; a file that
      cannot be opened and a malformed line are fatal; otherwise the function patterns of
      the entries whose module pattern matches the module, joined with '|'. */
  method ParseFunctionSetFile(fileName: string, file: Option<seq<string>>, moduleName: string, matches: Matcher)
    returns (r: Result<string, ProfileError>)
    ensures fileName == [] ==> r == Success([])
    ensures fileName != [] && file.None? ==> r == Failure(CannotOpen(fileName))
    ensures fileName != [] && file.Some? ==> r == JoinResult(SelectedFrom(Kinds(file.value), 0, fileName, moduleName, matches))
  {
    if fileName == [] {
      return Success([]);
    }
    if file.None? {
      return Failure(CannotOpen(fileName));
    }
    var lines := file.value;
    ghost var kinds := Kinds(lines);
    var lineno := 0;
    var moduleRegex: string := [];
    ghost var acc: seq<string> := [];
    ghost var whole := SelectedFrom(kinds, 0, fileName, moduleName, matches);
    PrependNothing(whole);
    while lineno < |lines|
      invariant lineno <= |lines|
      invariant moduleRegex == BarTerminated(acc)
      invariant whole == Prepend(acc, SelectedFrom(kinds, lineno, fileName, moduleName, matches))
    {
      var kind := ParseLine(lines[lineno]);
      KindAt(lines, lineno);
      if kind.Malformed? {
        SelectedFromStep(kinds, lineno, fileName, moduleName, matches);
        return Failure(SyntaxError(fileName, lineno + 1));
      }
      var selected := EntryPattern(kind, moduleName, matches);
      ghost var added: seq<string> := if selected.Some? then [selected.value] else [];
      ParseLoopStep(kinds, lineno, fileName, moduleName, matches, acc, selected, added, whole);
      if selected.Some? {
        moduleRegex := moduleRegex + selected.value + ['|'];
      }
      acc := acc + added;
      lineno := lineno + 1;
    }
    BarTerminatedJoin(acc);
    assert acc + [] == acc;
    if moduleRegex != [] {
      moduleRegex := moduleRegex[..|moduleRegex| - 1];
    }
    return Success(moduleRegex);
  }

  // ---------------------------------------------------------------------------
  // Selection

  /** The include and exclude patterns of `runOnModule`: from the two files, unless the
      `--function` option names a function, which is then the only one included. */
  method SelectionPatterns(includeFile: string, includeLines: Option<seq<string>>,
                           excludeFile: string, excludeLines: Option<seq<string>>,
                           single: string, moduleName: string, matches: Matcher)
    returns (r: Result<(string, string), ProfileError>)
    ensures r.Failure? <==>
      (includeFile != [] && (includeLines.None? || SelectedFrom(Kinds(includeLines.value), 0, includeFile, moduleName, matches).Failure?)) ||
      (excludeFile != [] && (excludeLines.None? || SelectedFrom(Kinds(excludeLines.value), 0, excludeFile, moduleName, matches).Failure?))
    ensures r.Success? && single != [] ==> r.value == (single, ['.', '*'])
    ensures r.Success? && single == [] ==>
      && (includeFile == [] ==> r.value.0 == [])
      && (includeFile != [] ==> Success(r.value.0) == JoinResult(SelectedFrom(Kinds(includeLines.value), 0, includeFile, moduleName, matches)))
      && (excludeFile == [] ==> r.value.1 == [])
      && (excludeFile != [] ==> Success(r.value.1) == JoinResult(SelectedFrom(Kinds(excludeLines.value), 0, excludeFile, moduleName, matches)))
  {
    var inc := ParseFunctionSetFile(includeFile, includeLines, moduleName, matches);
    if inc.Failure? {
      return Failure(inc.error);
    }
    var exc := ParseFunctionSetFile(excludeFile, excludeLines, moduleName, matches);
    if exc.Failure? {
      return Failure(exc.error);
    }
    if single != [] {
      return Success((single, ['.', '*']));
    }
    return Success((inc.value, exc.value));
  }

  /** `isIncluded(I, include, exclude)`: an include match on the callee (for a call) or the
      enclosing function selects; otherwise an excludeRgx match rejects; otherwise an
      includeRgx file without an excludeRgx file rejects; otherwise the instruction is kept.
      `called` is empty for an instruction that is not a call. */
  function IsIncluded(called: string, func: string, includeRgx: string, excludeRgx: string,
                      includeFile: string, excludeFile: string, matches: Matcher): (b: bool)
    ensures Hits(called, func, includeRgx, matches) ==> b
    ensures !Hits(called, func, includeRgx, matches) && Hits(called, func, excludeRgx, matches) ==> !b
    ensures !Hits(called, func, includeRgx, matches) && !Hits(called, func, excludeRgx, matches) ==>
      (b <==> !(excludeFile == [] && includeFile != []))
  {
    if Hits(called, func, includeRgx, matches) then true
    else if Hits(called, func, excludeRgx, matches) then false
    else if excludeFile == [] && includeFile != [] then false
    else true
  }

  /** The pattern matches the callee of a call or the enclosing function. */
  predicate Hits(called: string, func: string, rgx: string, matches: Matcher) {
    (called != [] && matches(called, rgx)) || matches(func, rgx)
  }

  /** The empty pattern matches only the empty text, and ".*" matches everything. */
  ghost predicate RegexBasics(matches: Matcher) {
    && (forall s :: matches(s, []) ==> s == [])
    && (forall s :: matches(s, ['.', '*']))
  }

  /** With `--function f`, exactly the instructions of f and the calls to f are kept,
      whatever the files say. */
  lemma FunctionOptionRule(called: string, func: string, f: string, includeFile: string, excludeFile: string, matches: Matcher)
    requires RegexBasics(matches)
    ensures IsIncluded(called, func, f, ['.', '*'], includeFile, excludeFile, matches) <==>
      ((called != [] && matches(called, f)) || matches(func, f))
  {
    assert matches(func, ['.', '*']);
  }

  /** Without any file or option every instruction is kept, whatever the matcher. */
  lemma NoSelectionKeepsAll(called: string, func: string, matches: Matcher)
    ensures IsIncluded(called, func, [], [], [], [], matches)
  {
  }

  /** With only an include file, exactly the included callees and functions are kept. */
  lemma IncludeFileOnly(called: string, func: string, includeRgx: string, includeFile: string, matches: Matcher)
    requires RegexBasics(matches) && func != [] && includeFile != []
    ensures IsIncluded(called, func, includeRgx, [], includeFile, [], matches) <==>
      ((called != [] && matches(called, includeRgx)) || matches(func, includeRgx))
  {
    assert !matches(func, []);
    assert called != [] ==> !matches(called, []);
  }

  /** With only an exclude file, exactly the excluded callees and functions are dropped. */
  lemma ExcludeFileOnly(called: string, func: string, excludeRgx: string, excludeFile: string, matches: Matcher)
    requires RegexBasics(matches) && func != [] && excludeFile != []
    ensures IsIncluded(called, func, [], excludeRgx, [], excludeFile, matches) <==>
      !((called != [] && matches(called, excludeRgx)) || matches(func, excludeRgx))
  {
    assert !matches(func, []);
    assert called != [] ==> !matches(called, []);
  }
}
