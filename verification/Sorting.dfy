/** The two sort.Slice calls of the authority, and why the order they give is the one the specification names. */
module Sorting {
  import opened Wrappers
  import opened Json
  import opened Order
  import opened EventLog
  import opened Transition
  import opened ProjectionTheory
  import opened Checkpoints

  // ----- Nodes by (entity, node) -----

  ghost predicate DistinctKeys(nodes: seq<NodeState>) {
    forall i, j :: 0 <= i < j < |nodes| ==> !SameKey(nodes[i], nodes[j])
  }

  lemma {:induction false} OrderedDistinct(nodes: seq<NodeState>)
    requires Ordered(nodes)
    ensures DistinctKeys(nodes)
  {
    forall i, j | 0 <= i < j < |nodes| ensures !SameKey(nodes[i], nodes[j]) {
      KeyLessTotal(nodes[i], nodes[j]);
    }
  }

  /** With distinct keys, looking up is membership. */
  lemma {:induction false} LookupIsMember(nodes: seq<NodeState>, e: string, k: string, d: Value)
    requires DistinctKeys(nodes)
    ensures Lookup(nodes, e, k) == Some(d) <==> NodeState(e, k, d) in nodes
  {
    if nodes != [] {
      assert nodes == [nodes[0]] + nodes[1..];
      assert forall i :: 0 <= i < |nodes[1..]| ==> nodes[1..][i] == nodes[i + 1];
      LookupIsMember(nodes[1..], e, k, d);
    }
  }

  lemma {:induction false} SameElementsSameMap(a: seq<NodeState>, b: seq<NodeState>)
    requires DistinctKeys(a) && DistinctKeys(b) && forall x :: x in a <==> x in b
    ensures SameMap(a, b)
  {
    hide Lookup;
    forall e, k ensures Lookup(a, e, k) == Lookup(b, e, k) {
      if Lookup(a, e, k).Some? {
        LookupIsMember(a, e, k, Lookup(a, e, k).value);
        LookupIsMember(b, e, k, Lookup(a, e, k).value);
      } else if Lookup(b, e, k).Some? {
        LookupIsMember(a, e, k, Lookup(b, e, k).value);
        LookupIsMember(b, e, k, Lookup(b, e, k).value);
      }
    }
  }

  /** Insertion of a node with a new key. */
  method InsertNode(nodes: seq<NodeState>, x: NodeState) returns (r: seq<NodeState>)
    requires Ordered(nodes) && forall i :: 0 <= i < |nodes| ==> !SameKey(nodes[i], x)
    ensures Ordered(r) && multiset(r) == multiset(nodes) + multiset{x}
  {
    hide KeyLess, SameKey, Ordered;
    var i := 0;
    while i < |nodes| && KeyLess(nodes[i], x)
      invariant 0 <= i <= |nodes|
      invariant forall j :: 0 <= j < i ==> KeyLess(nodes[j], x)
    {
      i := i + 1;
    }
    r := nodes[..i] + [x] + nodes[i..];
    assert nodes == nodes[..i] + nodes[i..];
    InsertedOrdered(nodes, x, i);
  }

  lemma {:induction false} InsertedOrdered(nodes: seq<NodeState>, x: NodeState, i: nat)
    requires Ordered(nodes) && i <= |nodes| && (forall j :: 0 <= j < |nodes| ==> !SameKey(nodes[j], x))
    requires (forall j :: 0 <= j < i ==> KeyLess(nodes[j], x)) && (i < |nodes| ==> !KeyLess(nodes[i], x))
    ensures Ordered(nodes[..i] + [x] + nodes[i..])
  {
    hide KeyLess, SameKey;
    var r := nodes[..i] + [x] + nodes[i..];
    forall j | i <= j < |nodes| ensures KeyLess(x, nodes[j]) {
      KeyLessTotal(nodes[i], x);
      if j > i { KeyLessTransitive(x, nodes[i], nodes[j]); }
    }
    forall j, k | 0 <= j < k < |r| ensures KeyLess(r[j], r[k]) {
      var a, b := if j < i then j else j - 1, if k < i then k else k - 1;
      assert j != i ==> r[j] == nodes[a];
      assert k != i ==> r[k] == nodes[b];
    }
  }

  /** sort.Slice by (entity, node): the nodes rearranged into strict order. */
  method SortNodes(nodes: seq<NodeState>) returns (r: seq<NodeState>)
    requires DistinctKeys(nodes)
    ensures Ordered(r) && multiset(r) == multiset(nodes)
  {
    r := [];
    var i := 0;
    while i < |nodes|
      invariant 0 <= i <= |nodes|
      invariant Ordered(r) && multiset(r) == multiset(nodes[..i])
    {
      forall j | 0 <= j < |r| ensures !SameKey(r[j], nodes[i]) {
        assert r[j] in multiset(r);
        assert r[j] in nodes[..i];
      }
      r := InsertNode(r, nodes[i]);
      assert nodes[..i + 1] == nodes[..i] + [nodes[i]];
      i := i + 1;
    }
    assert nodes[..i] == nodes;
  }

  /** The nodes after the edit and the sort are the specification's Put. */
  lemma {:induction false} EditedIsPut(before: seq<NodeState>, edited: seq<NodeState>, x: NodeState, sorted: seq<NodeState>)
    requires Ordered(before) && Ordered(sorted) && DistinctKeys(edited) && multiset(sorted) == multiset(edited)
    requires forall y :: y in edited <==> y == x || (y in before && !SameKey(y, x))
    ensures sorted == Put(before, x)
  {
    hide Lookup, Put;
    PutOrdered(before, x);
    OrderedDistinct(before);
    OrderedDistinct(sorted);
    OrderedDistinct(Put(before, x));
    assert forall y :: y in sorted <==> y in multiset(sorted);
    assert forall y :: y in edited <==> y in multiset(edited);
    SameElementsSameMap(sorted, edited);
    forall e, k ensures Lookup(edited, e, k) == Lookup(Put(before, x), e, k) {
      PutLookup(before, x, e, k);
      EditedLookup(before, edited, x, e, k);
    }
    OrderedUnique(sorted, Put(before, x));
  }

  lemma {:induction false} EditedLookup(before: seq<NodeState>, edited: seq<NodeState>, x: NodeState, e: string, k: string)
    requires DistinctKeys(before) && DistinctKeys(edited)
    requires forall y :: y in edited <==> y == x || (y in before && !SameKey(y, x))
    ensures Lookup(edited, e, k) == if e == x.entity && k == x.node then Some(x.data) else Lookup(before, e, k)
  {
    hide Lookup;
    if e == x.entity && k == x.node {
      LookupIsMember(edited, e, k, x.data);
    } else {
      if Lookup(before, e, k).Some? {
        LookupIsMember(before, e, k, Lookup(before, e, k).value);
        LookupIsMember(edited, e, k, Lookup(before, e, k).value);
      } else if Lookup(edited, e, k).Some? {
        LookupIsMember(before, e, k, Lookup(edited, e, k).value);
        LookupIsMember(edited, e, k, Lookup(edited, e, k).value);
      }
    }
  }

  // ----- Checkpoint entries by id -----

  function IdOf(e: Entry): string {
    e.proposal.transitionID
  }

  ghost predicate DistinctEntries(entries: seq<Entry>) {
    forall i, j :: 0 <= i < j < |entries| ==> IdOf(entries[i]) != IdOf(entries[j])
  }

  /** Not decreasing by id. */
  ghost predicate Rising(entries: seq<Entry>) {
    forall i, j :: 0 <= i < j < |entries| ==> !Less(IdOf(entries[j]), IdOf(entries[i]))
  }

  lemma {:induction false} NotLessTransitive(a: string, b: string, c: string)
    requires !Less(b, a) && !Less(c, b)
    ensures !Less(c, a)
  {
    LessTotal(b, c);
    if Less(c, a) && Less(b, c) {
      LessTransitive(b, c, a);
    }
  }

  method InsertEntry(entries: seq<Entry>, x: Entry) returns (r: seq<Entry>)
    requires Rising(entries)
    ensures Rising(r) && multiset(r) == multiset(entries) + multiset{x}
    ensures DistinctEntries(r) <==> DistinctEntries(entries) && forall i :: 0 <= i < |entries| ==> IdOf(entries[i]) != IdOf(x)
  {
    hide Less;
    var i := |entries|;
    while i > 0 && Less(IdOf(x), IdOf(entries[i - 1]))
      invariant 0 <= i <= |entries|
      invariant forall j :: i <= j < |entries| ==> Less(IdOf(x), IdOf(entries[j]))
    {
      i := i - 1;
    }
    r := entries[..i] + [x] + entries[i..];
    assert entries == entries[..i] + entries[i..];
    InsertedRising(entries, x, i);
    InsertedDistinct(entries, x, i);
  }

  lemma {:induction false} InsertedRising(entries: seq<Entry>, x: Entry, i: nat)
    requires Rising(entries) && i <= |entries| && (i > 0 ==> !Less(IdOf(x), IdOf(entries[i - 1])))
    requires forall j :: i <= j < |entries| ==> Less(IdOf(x), IdOf(entries[j]))
    ensures Rising(entries[..i] + [x] + entries[i..])
  {
    hide Less;
    var r := entries[..i] + [x] + entries[i..];
    forall j | 0 <= j < i ensures !Less(IdOf(x), IdOf(entries[j])) {
      if j < i - 1 { NotLessTransitive(IdOf(entries[j]), IdOf(entries[i - 1]), IdOf(x)); }
    }
    forall j | i <= j < |entries| ensures !Less(IdOf(entries[j]), IdOf(x)) {
      LessAsymmetric(IdOf(x), IdOf(entries[j]));
    }
    forall j, k | 0 <= j < k < |r| ensures !Less(IdOf(r[k]), IdOf(r[j])) {
      var a, b := if j < i then j else j - 1, if k < i then k else k - 1;
      assert j != i ==> r[j] == entries[a];
      assert k != i ==> r[k] == entries[b];
    }
  }

  lemma {:induction false} InsertedDistinct(entries: seq<Entry>, x: Entry, i: nat)
    requires i <= |entries|
    ensures DistinctEntries(entries[..i] + [x] + entries[i..]) <==>
            DistinctEntries(entries) && forall j :: 0 <= j < |entries| ==> IdOf(entries[j]) != IdOf(x)
  {
    var r := entries[..i] + [x] + entries[i..];
    assert r[i] == x;
    assert forall j :: 0 <= j < i ==> r[j] == entries[j];
    assert forall j :: i <= j < |entries| ==> r[j + 1] == entries[j];
    if DistinctEntries(r) {
      forall j, k | 0 <= j < k < |entries| ensures IdOf(entries[j]) != IdOf(entries[k]) {
        var a, b := if j < i then j else j + 1, if k < i then k else k + 1;
        assert r[a] == entries[j] && r[b] == entries[k];
      }
    }
  }

  /** sort.Slice by transition id, whether or not ids repeat. */
  method SortEntries(entries: seq<Entry>) returns (r: seq<Entry>)
    ensures Rising(r) && multiset(r) == multiset(entries)
    ensures DistinctEntries(r) <==> DistinctEntries(entries)
  {
    hide Rising, IdOf, DistinctEntries;
    r := [];
    NoneRising();
    var i := 0;
    while i < |entries|
      invariant 0 <= i <= |entries|
      invariant Rising(r) && multiset(r) == multiset(entries[..i])
      invariant DistinctEntries(r) <==> DistinctEntries(entries[..i])
    {
      var x := entries[i];
      assert entries[..i + 1] == entries[..i] + [x];
      SameIds(r, entries[..i], IdOf(x));
      OneMoreDistinct(entries[..i], x);
      r := InsertEntry(r, x);
      i := i + 1;
    }
    assert entries[..i] == entries;
  }

  lemma {:induction false} NoneRising()
    ensures Rising([]) && DistinctEntries([])
  {
  }

  lemma {:induction false} OneMoreDistinct(entries: seq<Entry>, x: Entry)
    ensures DistinctEntries(entries + [x]) <==> DistinctEntries(entries) && forall i :: 0 <= i < |entries| ==> IdOf(entries[i]) != IdOf(x)
  {
    InsertedDistinct(entries, x, |entries|);
    assert entries[..|entries|] + [x] + entries[|entries|..] == entries + [x];
  }

  lemma {:induction false} SameIds(a: seq<Entry>, b: seq<Entry>, id: string)
    requires multiset(a) == multiset(b)
    ensures (forall i :: 0 <= i < |a| ==> IdOf(a[i]) != id) <==> (forall i :: 0 <= i < |b| ==> IdOf(b[i]) != id)
  {
    forall i | 0 <= i < |a| ensures a[i] in b {
      assert a[i] in multiset(b);
    }
    forall i | 0 <= i < |b| ensures b[i] in a {
      assert b[i] in multiset(a);
    }
  }
}
