/** Per-function bookkeeping of the function instrumentation runtime (funcinstr.c): a
    chained hash table of function records, 100 buckets each a growable array, and a
    growable call stack of references into that table, updated on every instrumented
    function entry and exit. */
module FuncInstr {
  import opened Arith
  import opened Wrappers

  /** `table_size`. */
  const TableSize: nat := 100

  /** `HASH_MULTIPLIER`. */
  const HashMultiplier: nat := 31

  /** The hash accumulator is an `unsigned long long`. */
  const Word: nat := 0x1_0000_0000_0000_0000

  /** A C string: bytes 1..255, the terminating NUL not included. */
  predicate IsCString(s: seq<char>) {
    forall i :: 0 <= i < |s| ==> 0 < s[i] as int < 256
  }

  /** The per-function record of funcinstr.c; the four flags are C `char`s. */
  datatype FunctionRecord = FunctionRecord(
    id: string,
    isLibraryFunction: int, isIntrinsicFunction: int, haveFloat: int, haveDouble: int,
    binary64Precision: int, binary64Range: int, binary32Precision: int, binary32Range: int,
    nCalls: int)

  /** The record `vfc_enter_function` creates for a function seen for the first time. */
  function NewRecord(id: string, isLib: int, isIntr: int, haveFloat: int, haveDouble: int): (r: FunctionRecord)
    ensures r.id == id && r.nCalls == 1
    ensures r.binary64Precision == 52 && r.binary64Range == 11
    ensures r.binary32Precision == 23 && r.binary32Range == 8
    ensures r.isLibraryFunction == isLib && r.isIntrinsicFunction == isIntr
    ensures r.haveFloat == haveFloat && r.haveDouble == haveDouble
  {
    FunctionRecord(id, isLib, isIntr, haveFloat, haveDouble, 52, 11, 23, 8, 1)
  }

  // ---------------------------------------------------------------------------
  // Hash

  /** The accumulator after reading s: `h = h * 31 + byte` in 64-bit arithmetic. */
  function HashAcc(s: seq<char>): (h: nat)
    ensures h < Word
  {
    if s == [] then 0 else (HashAcc(s[..|s| - 1]) * HashMultiplier + s[|s| - 1] as int) % Word
  }

  /** The polynomial the hash is the remainder of: sum of s[i] * 31^(|s|-1-i). */
  function Poly(s: seq<char>): nat {
    if s == [] then 0 else Poly(s[..|s| - 1]) * HashMultiplier + s[|s| - 1] as int
  }

  /** The wrap-around accumulator is the polynomial modulo 2^64. */
  lemma {:induction false} HashAccIsPolyMod(s: seq<char>)
    ensures HashAcc(s) == Poly(s) % Word
  {
    if s != [] {
      var p := s[..|s| - 1];
      HashAccIsPolyMod(p);
      ModMulAdd(Poly(p), HashMultiplier, s[|s| - 1] as int, Word);
    }
  }

  /** `_vfc_hash_function(id)`. */
  method HashFunction(id: seq<char>) returns (h: nat)
    requires IsCString(id)
    ensures h == HashAcc(id) % TableSize
    ensures h == Poly(id) % Word % TableSize
    ensures h < TableSize
  {
    var index: nat := 0;
    var i := 0;
    while i < |id|
      invariant 0 <= i <= |id|
      invariant index == HashAcc(id[..i])
    {
      assert id[..i + 1][..i] == id[..i];
      index := (index * HashMultiplier + id[i] as int) % Word;
      i := i + 1;
    }
    assert id[..i] == id;
    HashAccIsPolyMod(id);
    h := index % TableSize;
  }

  /** The bucket of an id. */
  function Bucket(id: seq<char>): (b: nat)
    ensures b < TableSize
  {
    HashAcc(id) % TableSize
  }

  // ---------------------------------------------------------------------------
  // Growable arrays

  /** `interflop_function_array_t`: the live entries `functions[0 .. index)` and the
      allocated capacity `size`. */
  datatype FunctionArray = FunctionArray(functions: seq<FunctionRecord>, size: nat)

  predicate ArrayOk(a: FunctionArray) { |a.functions| <= a.size }

  /** The first live entry with the given id. */
  function FindFirst(fs: seq<FunctionRecord>, id: string): (r: Option<nat>)
    ensures r.Some? ==> r.value < |fs| && fs[r.value].id == id
    ensures r.Some? ==> forall j :: 0 <= j < r.value ==> fs[j].id != id
    ensures r.None? ==> forall j :: 0 <= j < |fs| ==> fs[j].id != id
  {
    if fs == [] then None
    else if fs[0].id == id then Some(0)
    else match FindFirst(fs[1..], id)
      case None => None
      case Some(k) => Some(k + 1)
  }

  /** A reference `&function_table[bucket].functions[slot]`. */
  datatype Ref = Ref(bucket: nat, slot: nat)

  /** The function table and the call stack of funcinstr.c. */
  class FunctionTable {
    /** `function_table`. */
    var table: array<FunctionArray>
    /** The live part of `call_stack.functions` and its capacity `call_stack.size`. */
    var stack: seq<Ref>
    var stackSize: nat

    /** Every bucket is a well-formed array holding only records that hash to it. */
    predicate Valid()
      reads this, table
    {
      && table.Length == TableSize
      && |stack| <= stackSize
      && forall b :: 0 <= b < TableSize ==> ArrayOk(table[b]) && forall r | r in table[b].functions :: Bucket(r.id) == b
    }

    predicate LiveRef(r: Ref)
      reads this, table
    {
      r.bucket < table.Length && r.slot < |table[r.bucket].functions|
    }

    /** Every call-stack entry refers to a live record. */
    predicate StackLive()
      reads this, table
    {
      forall r | r in stack :: LiveRef(r)
    }

    function Entry(r: Ref): FunctionRecord
      reads this, table
      requires LiveRef(r)
    {
      table[r.bucket].functions[r.slot]
    }

    /** The record `_vfc_table_get(id)` finds. */
    function Lookup(id: string): (r: Option<Ref>)
      reads this, table
      requires Valid()
      ensures r.Some? ==> r.value.bucket == Bucket(id) && LiveRef(r.value) && Entry(r.value).id == id
      ensures r.None? ==> forall x | x in table[Bucket(id)].functions :: x.id != id
    {
      match FindFirst(table[Bucket(id)].functions, id)
      case None => None
      case Some(k) => Some(Ref(Bucket(id), k))
    }

    /** The empty table and stack of a fresh process. */
    constructor ()
      ensures Valid() && fresh(table)
      ensures forall b :: 0 <= b < TableSize ==> table[b] == FunctionArray([], 0)
      ensures stack == [] && stackSize == 0
    {
      table := new FunctionArray[TableSize](_ => FunctionArray([], 0));
      stack := [];
      stackSize := 0;
    }

    /** `_vfc_add_function(&function_table[b], function)`: appends at `index`, growing
        `size` by 10 when full, and returns the new last slot. */
    method AddFunction(b: nat, fn: FunctionRecord) returns (r: Ref)
      requires Valid() && b < TableSize && Bucket(fn.id) == b
      modifies table
      ensures Valid()
      ensures table[b].functions == old(table[b].functions) + [fn]
      ensures table[b].size == if old(|table[b].functions| >= table[b].size) then old(table[b].size) + 10 else old(table[b].size)
      ensures forall c :: 0 <= c < TableSize && c != b ==> table[c] == old(table[c])
      ensures r == Ref(b, old(|table[b].functions|)) && LiveRef(r) && Entry(r) == fn
    {
      var a := table[b];
      var size := if |a.functions| >= a.size then a.size + 10 else a.size;
      table[b] := FunctionArray(a.functions + [fn], size);
      r := Ref(b, |a.functions|);
    }

    /** `_vfc_del_function(&function_table[b])`: drops the last entry if there is one and
        returns the new last entry, or nothing once the array is empty. */
    method DelFunction(b: nat) returns (r: Option<Ref>)
      requires Valid() && b < TableSize
      modifies table
      ensures Valid()
      ensures old(table[b].functions) == [] ==> table[b] == old(table[b])
      ensures old(table[b].functions) != [] ==>
        table[b] == old(table[b]).(functions := old(table[b].functions)[..old(|table[b].functions|) - 1])
      ensures forall c :: 0 <= c < TableSize && c != b ==> table[c] == old(table[c])
      ensures r.Some? <==> |table[b].functions| > 0
      ensures r.Some? ==> r.value == Ref(b, |table[b].functions| - 1) && LiveRef(r.value)
    {
      var a := table[b];
      if |a.functions| != 0 {
        table[b] := a.(functions := a.functions[..|a.functions| - 1]);
      }
      if |table[b].functions| != 0 {
        return Some(Ref(b, |table[b].functions| - 1));
      }
      return None;
    }

    /** `_vfc_get_function(&function_table[b], id)`: the first entry with that id. */
    method GetFunction(b: nat, id: string) returns (r: Option<Ref>)
      requires Valid() && b < TableSize
      ensures r.Some? ==> r.value.bucket == b && LiveRef(r.value) && Entry(r.value).id == id
      ensures r.Some? ==> forall j :: 0 <= j < r.value.slot ==> table[b].functions[j].id != id
      ensures r.None? <==> forall x | x in table[b].functions :: x.id != id
    {
      var fs := table[b].functions;
      var i := 0;
      while i < |fs|
        invariant 0 <= i <= |fs|
        invariant forall j :: 0 <= j < i ==> fs[j].id != id
      {
        if fs[i].id == id {
          return Some(Ref(b, i));
        }
        i := i + 1;
      }
      return None;
    }

    /** `_vfc_table_add(function)`: adds to the bucket of the record's id. */
    method TableAdd(fn: FunctionRecord) returns (r: Ref)
      requires Valid() && IsCString(fn.id)
      modifies table
      ensures Valid()
      ensures r.bucket == Bucket(fn.id) && LiveRef(r) && Entry(r) == fn
      ensures table[r.bucket].functions == old(table[r.bucket].functions) + [fn]
      ensures Lookup(fn.id).Some?
      ensures forall c :: 0 <= c < TableSize && c != r.bucket ==> table[c] == old(table[c])
    {
      var b := HashFunction(fn.id);
      r := AddFunction(b, fn);
    }

    /** `_vfc_table_get(id)`: looks in the bucket of the id. */
    method TableGet(id: string) returns (r: Option<Ref>)
      requires Valid() && IsCString(id)
      ensures r == Lookup(id)
    {
      var b := HashFunction(id);
      r := GetFunction(b, id);
      if r.Some? {
        FindFirstIsFirst(table[b].functions, id, r.value.slot);
      }
    }

    /** `_vfc_push_function(function)`, returning the pushed entry. */
    method Push(fn: Ref) returns (r: Ref)
      requires Valid()
      modifies this
      ensures Valid() && table == old(table)
      ensures stack == old(stack) + [fn]
      ensures stackSize == if old(|stack| >= stackSize) then old(stackSize) + 10 else old(stackSize)
      ensures r == fn && r == stack[|stack| - 1]
    {
      if |stack| >= stackSize {
        stackSize := stackSize + 10;
      }
      stack := stack + [fn];
      r := fn;
    }

    /** `_vfc_push_function(function)` as written: it returns `functions[index]` after the
        increment, the slot at the new depth. */
    method PushAsWritten(fn: Ref) returns (slot: nat)
      requires Valid()
      modifies this
      ensures Valid() && table == old(table)
      ensures stack == old(stack) + [fn]
      ensures slot == |stack|
    {
      if |stack| >= stackSize {
        stackSize := stackSize + 10;
      }
      stack := stack + [fn];
      slot := |stack|;
    }

    /** `_vfc_pop_function()`: removes the top if there is one; returns the removed entry
        (read at the decremented `index`) while the stack is not empty afterwards, and
        nothing once it is. */
    method Pop() returns (r: Option<Ref>)
      requires Valid()
      modifies this
      ensures Valid() && table == old(table) && stackSize == old(stackSize)
      ensures old(stack) == [] ==> stack == []
      ensures old(stack) != [] ==> stack == old(stack)[..|old(stack)| - 1]
      ensures r.Some? <==> |old(stack)| >= 2
      ensures r.Some? ==> r.value == old(stack)[|old(stack)| - 1]
    {
      if |stack| != 0 {
        r := Some(stack[|stack| - 1]);
        stack := stack[..|stack| - 1];
      }
      if |stack| == 0 {
        r := None;
      }
    }

    /** `vfc_enter_function(name, ...)`: counts a call of a known function (its two
        kind flags refreshed), or records a new one, and pushes it on the call stack. */
    method EnterFunction(name: string, isLib: int, isIntr: int, haveFloat: int, haveDouble: int) returns (r: Ref)
      requires Valid() && StackLive() && IsCString(name)
      modifies this, table
      ensures Valid() && StackLive() && table == old(table)
      ensures stack == old(stack) + [r] && LiveRef(r) && Entry(r).id == name
      ensures old(Lookup(name)).None? ==>
        && r.bucket == Bucket(name)
        && table[r.bucket].functions == old(table[r.bucket].functions) + [NewRecord(name, isLib, isIntr, haveFloat, haveDouble)]
      ensures old(Lookup(name)).Some? ==>
        && r == old(Lookup(name)).value
        && table[r.bucket].functions == old(table[r.bucket].functions)[r.slot := old(Entry(r)).(
             isLibraryFunction := isLib, isIntrinsicFunction := isIntr, nCalls := old(Entry(r)).nCalls + 1)]
      ensures forall c :: 0 <= c < TableSize && c != r.bucket ==> table[c] == old(table[c])
    {
      var found := TableGet(name);
      if found.None? {
        r := TableAdd(NewRecord(name, isLib, isIntr, haveFloat, haveDouble));
      } else {
        r := found.value;
        var a := table[r.bucket];
        var e := a.functions[r.slot];
        var e' := e.(isLibraryFunction := isLib, isIntrinsicFunction := isIntr, nCalls := e.nCalls + 1);
        table[r.bucket] := a.(functions := a.functions[r.slot := e']);
      }
      var _ := Push(r);
    }

    /** `vfc_exit_function(...)`: pops exactly one entry. */
    method ExitFunction()
      requires Valid() && StackLive()
      modifies this
      ensures Valid() && StackLive() && table == old(table)
      ensures |stack| == if old(|stack|) == 0 then 0 else old(|stack|) - 1
      ensures stack == old(stack)[..|stack|]
    {
      var _ := Pop();
    }

    /** A run of instrumented calls and returns: the stack depth follows `DepthAfter`. */
    method Run(events: seq<Event>)
      requires Valid() && StackLive()
      requires forall e | e in events :: e.EnterEvent? ==> IsCString(e.name)
      modifies this, table
      ensures Valid() && StackLive() && table == old(table)
      ensures |stack| == DepthAfter(old(|stack|), events)
    {
      var i := 0;
      while i < |events|
        invariant 0 <= i <= |events|
        invariant Valid() && StackLive() && table == old(table)
        invariant |stack| == DepthAfter(old(|stack|), events[..i])
      {
        DepthAfterSnoc(old(|stack|), events[..i], events[i]);
        assert events[..i + 1] == events[..i] + [events[i]];
        var e := events[i];
        if e.EnterEvent? {
          var _ := EnterFunction(e.name, e.isLib, e.isIntr, e.haveFloat, e.haveDouble);
        } else {
          ExitFunction();
        }
        i := i + 1;
      }
      assert events[..i] == events;
    }
  }

  /** FindFirst is the first match: a match at k with none before is FindFirst. */
  lemma FindFirstIsFirst(fs: seq<FunctionRecord>, id: string, k: nat)
    requires k < |fs| && fs[k].id == id && forall j :: 0 <= j < k ==> fs[j].id != id
    ensures FindFirst(fs, id) == Some(k)
  {
    if k > 0 {
      FindFirstIsFirst(fs[1..], id, k - 1);
    }
  }

  /** An instrumented function entry (with the arguments of `vfc_enter_function`) or exit. */
  datatype Event =
    | EnterEvent(name: string, isLib: int, isIntr: int, haveFloat: int, haveDouble: int)
    | ExitEvent

  /** The stack depth after a run of events: one more per entry, one less per exit on a
      non-empty stack. */
  function DepthAfter(d: nat, events: seq<Event>): nat {
    if events == [] then d
    else
      var d' := DepthAfter(d, events[..|events| - 1]);
      if events[|events| - 1].EnterEvent? then d' + 1 else if d' == 0 then 0 else d' - 1
  }

  lemma DepthAfterSnoc(d: nat, events: seq<Event>, e: Event)
    ensures DepthAfter(d, events + [e]) ==
      var d' := DepthAfter(d, events); if e.EnterEvent? then d' + 1 else if d' == 0 then 0 else d' - 1
  {
    assert (events + [e])[..|events|] == events;
  }

  /** The net change of depth of a run, counted without clamping. */
  function Net(events: seq<Event>): int {
    if events == [] then 0
    else Net(events[..|events| - 1]) + (if events[|events| - 1].EnterEvent? then 1 else -1)
  }

  /** Every prefix of the run has at least as many entries as exits. */
  predicate NeverUnderflows(events: seq<Event>) {
    forall k :: 0 <= k <= |events| ==> Net(events[..k]) >= 0
  }

  /** Without an exit on an empty stack the depth changes by the net count, so a
      balanced run (as many exits as entries) restores the depth it started from. */
  lemma {:induction false} BalancedRestoresDepth(d: nat, events: seq<Event>)
    requires NeverUnderflows(events)
    ensures DepthAfter(d, events) == d + Net(events)
    ensures Net(events) == 0 ==> DepthAfter(d, events) == d
  {
    if events != [] {
      var p := events[..|events| - 1];
      assert NeverUnderflows(p) by {
        forall k | 0 <= k <= |p| ensures Net(p[..k]) >= 0 {
          assert p[..k] == events[..k];
        }
      }
      BalancedRestoresDepth(d, p);
      assert events[..|events|] == events;
    }
  }
}
