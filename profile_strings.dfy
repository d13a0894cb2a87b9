/** The string helpers of the profiling pass: `findAndReplaceAll` and `escape_regex`,
    which turn the shell-like patterns of the include/exclude files into regular
    expressions. */
module ProfileStrings {

  /** t occurs in s at position i. */
  predicate OccursAt(s: string, t: string, i: int) {
    0 <= i && i + |t| <= |s| && s[i..i + |t|] == t
  }

  /** `s.find(t, from)`: the first position at or after `from` where t occurs, or -1 for
      `npos`. */
  function Find(s: string, t: string, from: nat): (r: int)
    ensures r == -1 || (from <= r && OccursAt(s, t, r))
    decreases |s| - from
  {
    if from + |t| > |s| then -1
    else if s[from..from + |t|] == t then from
    else Find(s, t, from + 1)
  }

  /** Nothing occurs between `from` and what `Find` returns (the end of s for -1). */
  lemma {:induction false} FindFirst(s: string, t: string, from: nat, i: int)
    requires from <= i < (if Find(s, t, from) == -1 then |s| + 1 else Find(s, t, from))
    ensures !OccursAt(s, t, i)
    decreases |s| - from
  {
    if from + |t| <= |s| && s[from..from + |t|] != t && i > from {
      FindFirst(s, t, from + 1, i);
    }
  }

  /** Every non-overlapping occurrence of t in s, leftmost first, replaced by r; the text
      that follows a replacement is scanned from the end of the occurrence. */
  function ReplaceAll(s: string, t: string, r: string): string
    requires t != []
    decreases |s|
  {
    if |s| < |t| then s
    else if s[..|t|] == t then r + ReplaceAll(s[|t|..], t, r)
    else [s[0]] + ReplaceAll(s[1..], t, r)
  }

  /** A prefix of s in which t does not start is kept as it is. */
  lemma {:induction false} ReplaceAllSkip(s: string, t: string, r: string, q: nat)
    requires t != [] && q <= |s|
    requires forall i :: 0 <= i < q ==> !OccursAt(s, t, i)
    ensures ReplaceAll(s, t, r) == s[..q] + ReplaceAll(s[q..], t, r)
    decreases q
  {
    if q > 0 {
      assert !OccursAt(s, t, 0);
      if |s| < |t| {
        assert forall i :: q <= i < |s| ==> !OccursAt(s, t, i);
        ReplaceAllShort(s[q..], t, r);
        assert s[..q] + s[q..] == s;
      } else {
        assert s[..|t|] != t;
        var u := s[1..];
        forall i | 0 <= i < q - 1 ensures !OccursAt(u, t, i) {
          assert !OccursAt(s, t, i + 1);
          if i + |t| <= |u| {
            assert u[i..i + |t|] == s[i + 1..i + 1 + |t|];
          }
        }
        ReplaceAllSkip(u, t, r, q - 1);
        assert s[..q] == [s[0]] + u[..q - 1];
        assert s[q..] == u[q - 1..];
      }
    }
  }

  lemma ReplaceAllShort(s: string, t: string, r: string)
    requires t != [] && |s| < |t|
    ensures ReplaceAll(s, t, r) == s
  {
  }

  /** The replacement of a text whose first occurrence of t is at q. */
  lemma ReplaceFirst(u: string, t: string, r: string, q: nat)
    requires t != [] && OccursAt(u, t, q)
    requires forall i :: 0 <= i < q ==> !OccursAt(u, t, i)
    ensures ReplaceAll(u, t, r) == u[..q] + r + ReplaceAll(u[q + |t|..], t, r)
  {
    ReplaceAllSkip(u, t, r, q);
    var w := u[q..];
    assert w[|t|..] == u[q + |t|..];
    ReplaceAtStart(w, t, r);
  }

  lemma ReplaceAtStart(w: string, t: string, r: string)
    requires t != [] && OccursAt(w, t, 0)
    ensures ReplaceAll(w, t, r) == r + ReplaceAll(w[|t|..], t, r)
  {
  }

  /** What `Find` from a position says about the text from that position on. */
  lemma FindInSuffix(s: string, t: string, start: nat, pos: nat)
    requires start <= |s| && pos == Find(s, t, start)
    ensures OccursAt(s[start..], t, pos - start)
    ensures forall i :: 0 <= i < pos - start ==> !OccursAt(s[start..], t, i)
  {
    var u := s[start..];
    assert start <= pos && OccursAt(s, t, pos);
    SuffixSlice(s, start, pos - start, pos - start + |t|);
    forall i | 0 <= i < pos - start ensures !OccursAt(u, t, i) {
      FindFirst(s, t, start, start + i);
      if i + |t| <= |u| {
        SuffixSlice(s, start, i, i + |t|);
      }
    }
  }

  lemma SuffixSlice(s: string, start: nat, a: nat, b: nat)
    requires start <= |s| && a <= b <= |s| - start
    ensures s[start..][a..b] == s[start + a..start + b]
  {
  }

  /** From a scanning position, the text up to the occurrence `Find` reports is kept
      and that occurrence is replaced. */
  lemma ReplaceFromFind(s: string, t: string, r: string, start: nat, pos: nat)
    requires t != [] && start <= |s|
    requires pos == Find(s, t, start)
    ensures start <= pos && pos + |t| <= |s|
    ensures ReplaceAll(s[start..], t, r) == s[start..pos] + r + ReplaceAll(s[pos + |t|..], t, r)
  {
    var u := s[start..];
    var q := pos - start;
    FindInSuffix(s, t, start, pos);
    ReplaceFirst(u, t, r, q);
    assert u[q + |t|..] == s[pos + |t|..];
    assert u[..q] == s[start..pos];
  }

  /** The loop body keeps the replaced text so far followed by the replacement of the
      rest equal to the full replacement. */
  lemma ReplaceLoopStep(s: string, t: string, r: string, start: nat, pos: nat, next: string)
    requires t != [] && start <= |s|
    requires pos == Find(s, t, start)
    requires next == s[..pos] + r + s[pos + |t|..]
    ensures pos + |r| <= |next|
    ensures s[..start] + ReplaceAll(s[start..], t, r) == next[..pos + |r|] + ReplaceAll(next[pos + |r|..], t, r)
  {
    ReplaceFromFind(s, t, r, start, pos);
    var x := ReplaceAll(s[pos + |t|..], t, r);
    assert next[pos + |r|..] == s[pos + |t|..];
    assert next[..pos + |r|] == s[..pos] + r;
    ConcatSplit(s, start, pos, r, x);
  }

  lemma ConcatSplit(s: string, start: nat, pos: nat, r: string, x: string)
    requires start <= pos <= |s|
    ensures s[..start] + (s[start..pos] + r + x) == s[..pos] + r + x
  {
    assert s[..start] + s[start..pos] == s[..pos];
  }

  /** Once nothing is found after the scanning position, the rest is kept. */
  lemma ReplaceLoopEnd(s: string, t: string, r: string, start: nat)
    requires t != [] && start <= |s|
    requires Find(s, t, start) == -1
    ensures s[..start] + ReplaceAll(s[start..], t, r) == s
  {
    var u := s[start..];
    forall i | 0 <= i < |u| ensures !OccursAt(u, t, i) {
      FindFirst(s, t, start, start + i);
      if i + |t| <= |u| {
        assert u[i..i + |t|] == s[start + i..start + i + |t|];
      }
    }
    ReplaceAllSkip(u, t, r, |u|);
    assert u[|u|..] == [];
    assert s[..start] + u == s;
  }

  /** `findAndReplaceAll(data, toSearch, replaceStr)`, on a copy of `data`. An empty
      search string never advances the scan, so it is excluded. */
  method FindAndReplaceAll(data: string, toSearch: string, replaceStr: string) returns (res: string)
    requires toSearch != []
    ensures res == ReplaceAll(data, toSearch, replaceStr)
  {
    res := data;
    var pos := Find(res, toSearch, 0);
    var start: nat := 0;
    assert res[..start] + ReplaceAll(res[start..], toSearch, replaceStr) == ReplaceAll(data, toSearch, replaceStr) by {
      assert res[..0] == [] && res[0..] == res;
    }
    while pos != -1
      invariant start <= |res|
      invariant ReplaceAll(data, toSearch, replaceStr) == res[..start] + ReplaceAll(res[start..], toSearch, replaceStr)
      invariant pos == Find(res, toSearch, start)
      decreases |res| - start
    {
      var next := res[..pos] + replaceStr + res[pos + |toSearch|..];
      ReplaceLoopStep(res, toSearch, replaceStr, start, pos, next);
      res := next;
      start := pos + |replaceStr|;
      pos := Find(res, toSearch, start);
    }
    ReplaceLoopEnd(res, toSearch, replaceStr, start);
  }

  /** Each occurrence of the character c replaced by r, character by character. */
  function MapChar(s: string, c: char, r: string): string {
    if s == [] then [] else (if s[0] == c then r else [s[0]]) + MapChar(s[1..], c, r)
  }

  /** Replacing a one-character string is a character-by-character map. */
  lemma {:induction false} ReplaceCharIsMap(s: string, c: char, r: string)
    ensures ReplaceAll(s, [c], r) == MapChar(s, c, r)
  {
    if s != [] {
      ReplaceCharIsMap(s[1..], c, r);
      if s[0] == c {
        assert s[..1] == [c];
      } else {
        assert s[..1] != [c];
      }
    }
  }

  lemma {:induction false} MapCharAppend(a: string, b: string, c: char, r: string)
    ensures MapChar(a + b, c, r) == MapChar(a, c, r) + MapChar(b, c, r)
  {
    if a == [] {
      assert a + b == b;
    } else {
      assert (a + b)[1..] == a[1..] + b;
      MapCharAppend(a[1..], b, c, r);
    }
  }

  /** The escape of one character: a dot becomes a literal dot and a star matches any
      text; everything else stands for itself. */
  function EscapeChar(c: char): (e: string)
    ensures c != '.' && c != '*' ==> e == [c]
    ensures c == '.' ==> e == ['\\', '.']
    ensures c == '*' ==> e == ['.', '*']
  {
    if c == '.' then ['\\', '.'] else if c == '*' then ['.', '*'] else [c]
  }

  function Escaped(s: string): string {
    if s == [] then [] else EscapeChar(s[0]) + Escaped(s[1..])
  }

  /** The two replacement passes act as one per-character escape: the dot that the second
      pass inserts is not rescanned, and the first pass inserts no star. */
  lemma {:induction false} TwoPassesEscape(s: string)
    ensures MapChar(MapChar(s, '.', ['\\', '.']), '*', ['.', '*']) == Escaped(s)
  {
    if s != [] {
      var head := if s[0] == '.' then ['\\', '.'] else [s[0]];
      assert MapChar(s, '.', ['\\', '.']) == head + MapChar(s[1..], '.', ['\\', '.']);
      MapCharAppend(head, MapChar(s[1..], '.', ['\\', '.']), '*', ['.', '*']);
      TwoPassesEscape(s[1..]);
      if s[0] == '.' {
        assert MapChar(head, '*', ['.', '*']) == ['\\', '.'] by {
          assert head[1..][1..] == [];
        }
      } else {
        assert MapChar(head, '*', ['.', '*']) == EscapeChar(s[0]) by {
          assert head[1..] == [];
        }
      }
    }
  }

  /** `escape_regex(str)`, on a copy of `str`. */
  method EscapeRegex(str: string) returns (res: string)
    ensures res == Escaped(str)
  {
    var dots := FindAndReplaceAll(str, ['.'], ['\\', '.']);
    res := FindAndReplaceAll(dots, ['*'], ['.', '*']);
    ReplaceCharIsMap(str, '.', ['\\', '.']);
    ReplaceCharIsMap(dots, '*', ['.', '*']);
    TwoPassesEscape(str);
  }

  /** In an escaped string every star follows a dot: a star of the pattern always
      means "any text", never a repetition of the previous character. */
  lemma {:induction false} EscapedStars(s: string, i: int)
    requires 0 <= i < |Escaped(s)| && Escaped(s)[i] == '*'
    ensures i > 0 && Escaped(s)[i - 1] == '.'
  {
    var e := EscapeChar(s[0]);
    var rest := Escaped(s[1..]);
    assert Escaped(s) == e + rest;
    if i >= |e| {
      assert Escaped(s)[i] == rest[i - |e|];
      EscapedStars(s[1..], i - |e|);
      assert Escaped(s)[i - 1] == rest[i - |e| - 1];
    }
  }
}
