/** Streamed tool calls: fragments keyed by index are put together into calls
    (core/llm/providers/openai_compat.py). */
module ToolDeltas {
  import opened Common
  import opened Turns

  /** One fragment of the stream; a field that is absent is the empty string. */
  datatype Fragment = Fragment(index: nat, id: string, name: string, arguments: string)

  datatype Slot = Slot(id: string, name: string, arguments: string)

  type Pending = map<nat, Slot>

  function Added(slot: Slot, f: Fragment): Slot {
    Slot(if f.id != "" then f.id else slot.id,
         if f.name != "" then f.name else slot.name,
         slot.arguments + f.arguments)
  }

  /** The dictionary after a stream of fragments. */
  function Slots(fs: seq<Fragment>): Pending {
    if fs == [] then map[]
    else
      var before, f := Slots(fs[..|fs| - 1]), fs[|fs| - 1];
      before[f.index := Added(if f.index in before then before[f.index] else Slot("", "", ""), f)]
  }

  /** The fragments of one index, in the order they came. */
  function Project(fs: seq<Fragment>, index: nat): seq<Fragment> {
    if fs == [] then []
    else Project(fs[..|fs| - 1], index) + (if fs[|fs| - 1].index == index then [fs[|fs| - 1]] else [])
  }

  // ---- What one slot holds ------------------------------------------------------------

  function Concatenated(fs: seq<Fragment>): string {
    if fs == [] then "" else Concatenated(fs[..|fs| - 1]) + fs[|fs| - 1].arguments
  }

  function LastId(fs: seq<Fragment>): string {
    if fs == [] then "" else if fs[|fs| - 1].id != "" then fs[|fs| - 1].id else LastId(fs[..|fs| - 1])
  }

  function LastName(fs: seq<Fragment>): string {
    if fs == [] then "" else if fs[|fs| - 1].name != "" then fs[|fs| - 1].name else LastName(fs[..|fs| - 1])
  }

  lemma OneMoreFragment(p: seq<Fragment>, f: Fragment)
    ensures Slot(LastId(p + [f]), LastName(p + [f]), Concatenated(p + [f])) ==
            Added(Slot(LastId(p), LastName(p), Concatenated(p)), f)
  {
    assert (p + [f])[..|p|] == p;
  }

  /** A slot exists for exactly the indices that came; its arguments are the fragments of its own
      index in order, its id and name the last that were not empty. */
  lemma {:induction false} SlotIsItsProjection(fs: seq<Fragment>, index: nat)
    ensures var p := Project(fs, index);
            && (index in Slots(fs) <==> p != [])
            && (p != [] ==> Slots(fs)[index] == Slot(LastId(p), LastName(p), Concatenated(p)))
  {
    if fs != [] {
      var front, f := fs[..|fs| - 1], fs[|fs| - 1];
      SlotIsItsProjection(front, index);
      var before, p := Slots(front), Project(front, index);
      if f.index == index {
        var slot := if index in before then before[index] else Slot("", "", "");
        assert slot == Slot(LastId(p), LastName(p), Concatenated(p));
        OneMoreFragment(p, f);
        assert Slots(fs)[index] == Added(slot, f);
        assert Project(fs, index) == p + [f];
      } else {
        assert Project(fs, index) == p + [];
        assert p + [] == p;
      }
    }
  }

  // ---- The calls handed on ------------------------------------------------------------

  /** `keys` in ascending order. */
  ghost predicate Sorts(keys: seq<nat>, s: set<nat>) {
    && (forall i, j :: 0 <= i < j < |keys| ==> keys[i] < keys[j])
    && (forall k :: k in keys <==> k in s)
  }

  lemma {:induction false} LargestExists(s: set<nat>)
    requires s != {}
    ensures exists m :: m in s && forall k :: k in s ==> k <= m
  {
    var x :| x in s;
    var rest := s - {x};
    if rest != {} {
      LargestExists(rest);
      var m :| m in rest && forall k :: k in rest ==> k <= m;
      assert forall k :: k in s ==> k in rest || k == x;
      assert if x <= m then m in s else x in s;
      assert forall k :: k in s ==> k <= if x <= m then m else x;
    } else {
      assert s == {x};
    }
  }

  /** The indices in ascending order. */
  ghost function Ascending(s: set<nat>): (keys: seq<nat>)
    ensures Sorts(keys, s)
  {
    if s == {} then []
    else
      LargestExists(s);
      var m :| m in s && forall k :: k in s ==> k <= m;
      Ascending(s - {m}) + [m]
  }

  /** The calls of a stream. */
  ghost function ToolCalls(fs: seq<Fragment>): seq<ToolCall> {
    Calls(Ascending(Slots(fs).Keys), Slots(fs))
  }

  /** Slots that never got a name are dropped; a missing id is made up from the index. */
  function Calls(keys: seq<nat>, pending: Pending): seq<ToolCall>
    requires forall k :: k in keys ==> k in pending
  {
    if keys == [] then []
    else
      var k := keys[|keys| - 1];
      assert k in keys && forall i :: i in keys[..|keys| - 1] ==> i in keys;
      Calls(keys[..|keys| - 1], pending) +
      (if pending[k].name != "" then [CallFor(k, pending[k])] else [])
  }

  function CallFor(index: nat, slot: Slot): ToolCall {
    ToolCall(if slot.id != "" then slot.id else "call_" + Decimal(index), slot.name, slot.arguments)
  }

  lemma {:induction false} SortingIsUnique(a: seq<nat>, b: seq<nat>, s: set<nat>)
    requires Sorts(a, s) && Sorts(b, s)
    ensures a == b
  {
    EmptySorting(a, s);
    EmptySorting(b, s);
    if a != [] {
      var n, m := |a| - 1, |b| - 1;
      assert a[n] in s && a[n] in b;
      assert b[m] in a;
      LastIsLargest(a);
      LastIsLargest(b);
      SortedFront(a, s);
      SortedFront(b, s);
      SortingIsUnique(a[..n], b[..m], s - {a[n]});
    }
  }

  lemma EmptySorting(a: seq<nat>, s: set<nat>)
    requires Sorts(a, s)
    ensures a == [] <==> s == {}
  {
    if a != [] {
      assert a[0] in s;
    } else {
      assert s == {};
    }
  }

  lemma LastIsLargest(a: seq<nat>)
    requires a != [] && forall i, j :: 0 <= i < j < |a| ==> a[i] < a[j]
    ensures forall k :: k in a ==> k <= a[|a| - 1]
  {}

  lemma SortedFront(a: seq<nat>, s: set<nat>)
    requires a != [] && Sorts(a, s)
    ensures Sorts(a[..|a| - 1], s - {a[|a| - 1]})
  {
    var n := |a| - 1;
    forall k
      ensures k in a[..n] <==> k in s - {a[n]}
    {
      if k in a && k != a[n] {
        var i :| 0 <= i < |a| && a[i] == k;
        assert a[..n][i] == k;
      }
      if k in a[..n] {
        var i :| 0 <= i < n && a[..n][i] == k;
        assert a[i] < a[n];
      }
    }
  }

  /** The loop over the stream, and the list made of what it gathered. */
  method Assemble(fs: seq<Fragment>) returns (calls: seq<ToolCall>)
    ensures calls == ToolCalls(fs)
  {
    var pending: Pending := map[];
    for i := 0 to |fs|
      invariant pending == Slots(fs[..i])
    {
      var f := fs[i];
      assert fs[..i + 1][..i] == fs[..i];
      if f.index !in pending {
        pending := pending[f.index := Slot("", "", "")];
      }
      pending := pending[f.index := Added(pending[f.index], f)];
    }
    assert fs[..|fs|] == fs;
    var sorted := SortedKeys(pending);
    calls := [];
    for i := 0 to |sorted|
      invariant calls == Calls(sorted[..i], pending)
    {
      assert sorted[..i + 1][..i] == sorted[..i];
      var slot := pending[sorted[i]];
      if slot.name != "" {
        calls := calls + [CallFor(sorted[i], slot)];
      }
    }
    assert sorted[..|sorted|] == sorted;
    SortingIsUnique(sorted, Ascending(pending.Keys), pending.Keys);
  }

  /** The keys in ascending order. */
  method SortedKeys(pending: Pending) returns (keys: seq<nat>)
    ensures Sorts(keys, pending.Keys)
  {
    keys := [];
    var rest := pending.Keys;
    while rest != {}
      invariant rest <= pending.Keys && Sorts(keys, pending.Keys - rest)
      invariant forall i, k :: 0 <= i < |keys| && k in rest ==> keys[i] < k
      decreases |rest|
    {
      var least := Least(rest);
      ghost var before := keys;
      keys := keys + [least];
      rest := rest - {least};
      forall k
        ensures k in keys <==> k in pending.Keys - rest
      {
        assert k in keys <==> k in before || k == least;
      }
    }
  }

  method Least(s: set<nat>) returns (m: nat)
    requires s != {}
    ensures m in s && forall k :: k in s ==> m <= k
  {
    m :| m in s;
    var rest := s - {m};
    while rest != {}
      invariant m in s && rest <= s && forall k :: k in s - rest ==> m <= k
      decreases |rest|
    {
      var k :| k in rest;
      if k < m {
        m := k;
      }
      assert forall e :: e in s - (rest - {k}) ==> e in s - rest || e == k;
      rest := rest - {k};
    }
    assert s - rest == s;
  }

  // ---- Interleavings ------------------------------------------------------------------

  lemma SameSlots(a: seq<Fragment>, b: seq<Fragment>)
    requires forall index :: Project(a, index) == Project(b, index)
    ensures Slots(a) == Slots(b)
  {
    forall index: nat
      ensures index in Slots(a) <==> index in Slots(b)
      ensures index in Slots(a) ==> Slots(a)[index] == Slots(b)[index]
    {
      SlotIsItsProjection(a, index);
      SlotIsItsProjection(b, index);
      assert Project(a, index) == Project(b, index);
    }
  }

  /** However the fragments of different indices are interleaved: streams that keep the order
      within each index come out as the same calls. */
  lemma InterleavingDoesNotMatter(a: seq<Fragment>, b: seq<Fragment>)
    requires forall index :: Project(a, index) == Project(b, index)
    ensures ToolCalls(a) == ToolCalls(b)
  {
    SameSlots(a, b);
  }

  /** The indices whose slot got a name. */
  function Named(keys: seq<nat>, pending: Pending): seq<nat> {
    if keys == [] then []
    else
      var k := keys[|keys| - 1];
      Named(keys[..|keys| - 1], pending) + if k in pending && pending[k].name != "" then [k] else []
  }

  /** One call for every named slot, in the order of the indices. */
  lemma {:induction false} CallsFollowTheIndices(keys: seq<nat>, pending: Pending)
    requires forall k :: k in keys ==> k in pending
    ensures var calls, named := Calls(keys, pending), Named(keys, pending);
            |calls| == |named| &&
            forall i :: 0 <= i < |named| ==> named[i] in pending && calls[i] == CallFor(named[i], pending[named[i]])
  {
    if keys != [] {
      var n := |keys| - 1;
      assert forall k :: k in keys[..n] ==> k in keys;
      CallsFollowTheIndices(keys[..n], pending);
    }
  }

  /** The arguments of two parts of a stream, one after the other. */
  lemma {:induction false} ArgumentsJoin(a: seq<Fragment>, b: seq<Fragment>)
    ensures Concatenated(a + b) == Concatenated(a) + Concatenated(b)
    ensures |b| == 1 ==> Concatenated(b) == b[0].arguments
  {
    if b == [] {
      assert a + b == a;
    } else {
      ArgumentsJoin(a, b[..|b| - 1]);
      assert (a + b)[..|a + b| - 1] == a + b[..|b| - 1];
      assert Concatenated(a) + (Concatenated(b[..|b| - 1]) + b[|b| - 1].arguments) ==
             Concatenated(a) + Concatenated(b[..|b| - 1]) + b[|b| - 1].arguments;
    }
  }

  /** The last name that was given stands, and the last id. */
  lemma {:induction false} LastStands(fs: seq<Fragment>, i: nat)
    requires i < |fs|
    ensures fs[i].name != "" && (forall j :: i < j < |fs| ==> fs[j].name == "") ==> LastName(fs) == fs[i].name
    ensures fs[i].id != "" && (forall j :: i < j < |fs| ==> fs[j].id == "") ==> LastId(fs) == fs[i].id
  {
    if i < |fs| - 1 {
      LastStands(fs[..|fs| - 1], i);
    }
  }

  lemma {:induction false} NamedInOrder(keys: seq<nat>, pending: Pending)
    requires forall i, j :: 0 <= i < j < |keys| ==> keys[i] < keys[j]
    requires forall k :: k in keys ==> k in pending
    ensures var named := Named(keys, pending);
            && (forall i, j :: 0 <= i < j < |named| ==> named[i] < named[j])
            && forall k :: k in named <==> k in keys && pending[k].name != ""
  {
    if keys != [] {
      var n := |keys| - 1;
      assert keys == keys[..n] + [keys[n]];
      NamedInOrder(keys[..n], pending);
      var before := Named(keys[..n], pending);
      forall i | 0 <= i < |before|
        ensures before[i] < keys[n]
      {
        assert before[i] in keys[..n];
      }
    }
  }

  /** A call made of the fragments of one index: the last name and id that were given, the arguments
      put together in the order they came. */
  ghost predicate IsCallOf(call: ToolCall, index: nat, own: seq<Fragment>) {
    && call.name == LastName(own) && call.arguments == Concatenated(own)
    && call.id == if LastId(own) == "" then "call_" + Decimal(index) else LastId(own)
  }

  /** What the calls of any stream are: one for every index that was given a name, by ascending
      index, made of the fragments of that index. */
  lemma CallsSayTheirFragments(fs: seq<Fragment>) returns (named: seq<nat>)
    ensures forall i, j :: 0 <= i < j < |named| ==> named[i] < named[j]
    ensures forall k :: k in named <==> LastName(Project(fs, k)) != ""
    ensures |ToolCalls(fs)| == |named|
    ensures forall i :: 0 <= i < |named| ==> IsCallOf(ToolCalls(fs)[i], named[i], Project(fs, named[i]))
  {
    var pending := Slots(fs);
    var keys := Ascending(pending.Keys);
    named := Named(keys, pending);
    NamedInOrder(keys, pending);
    CallsFollowTheIndices(keys, pending);
    forall k
      ensures k in named <==> LastName(Project(fs, k)) != ""
    {
      SlotIsItsProjection(fs, k);
    }
    forall i | 0 <= i < |named|
      ensures IsCallOf(ToolCalls(fs)[i], named[i], Project(fs, named[i]))
    {
      SlotIsItsProjection(fs, named[i]);
    }
  }

  // ---- Ids ----------------------------------------------------------------------------

  lemma DecimalIsInjective(m: nat, n: nat)
    requires Decimal(m) == Decimal(n)
    ensures m == n
  {
    DecimalReads(m);
    DecimalReads(n);
  }

  /** Two calls have the same id exactly when the model gave them the same, when both came without
      one under the same index, or when one was given just what is made up for the other. Made-up
      ids begin anew with every reply, so two replies of a turn without ids clash. */
  lemma SameIdIff(m: nat, a: Slot, n: nat, b: Slot)
    ensures CallFor(m, a).id == CallFor(n, b).id <==>
              || (a.id != "" && a.id == b.id)
              || (a.id == "" && b.id == "" && m == n)
              || (a.id == "" && b.id == "call_" + Decimal(m))
              || (b.id == "" && a.id == "call_" + Decimal(n))
  {
    if a.id == "" && b.id == "" && CallFor(m, a).id == CallFor(n, b).id {
      assert ("call_" + Decimal(m))[5..] == Decimal(m) && ("call_" + Decimal(n))[5..] == Decimal(n);
      DecimalIsInjective(m, n);
    }
  }
}
