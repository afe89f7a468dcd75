/** The projection is a key map in disguise: what apply changes, that updates commute, and what its hash covers. */
module ProjectionTheory {
  import opened Wrappers
  import opened Json
  import opened JsonRoundTrip
  import opened Decimal
  import opened Members
  import opened Order
  import opened EventLog
  import opened Transition

  // ----- The key order -----

  lemma {:induction false} KeyLessTransitive(a: NodeState, b: NodeState, c: NodeState)
    requires KeyLess(a, b) && KeyLess(b, c)
    ensures KeyLess(a, c)
  {
    if a.entity == b.entity && b.entity == c.entity {
      LessTransitive(a.node, b.node, c.node);
    } else if a.entity != b.entity && b.entity != c.entity {
      LessTransitive(a.entity, b.entity, c.entity);
      if a.entity == c.entity { LessIrreflexive(a.entity); }
    }
  }

  lemma {:induction false} KeyLessTotal(a: NodeState, b: NodeState)
    ensures KeyLess(a, b) || SameKey(a, b) || KeyLess(b, a)
    ensures KeyLess(a, b) ==> !SameKey(a, b) && !KeyLess(b, a)
  {
    LessTotal(a.entity, b.entity);
    LessTotal(a.node, b.node);
    LessIrreflexive(a.entity);
    LessIrreflexive(a.node);
    if KeyLess(a, b) && KeyLess(b, a) {
      if a.entity == b.entity { LessAsymmetric(a.node, b.node); } else { LessAsymmetric(a.entity, b.entity); }
    }
  }

  // ----- The map a node list stands for -----

  /** The value a key has in the list, if any. */
  function Lookup(nodes: seq<NodeState>, entity: string, node: string): Option<Value> {
    if nodes == [] then None
    else if nodes[0].entity == entity && nodes[0].node == node then Some(nodes[0].data)
    else Lookup(nodes[1..], entity, node)
  }

  lemma {:induction false} OrderedTail(nodes: seq<NodeState>)
    requires nodes != [] && Ordered(nodes)
    ensures Ordered(nodes[1..])
    ensures forall i :: 0 <= i < |nodes[1..]| ==> KeyLess(nodes[0], nodes[1..][i])
  {
  }

  /** Below the first key there is nothing. */
  lemma {:induction false} LookupBelow(nodes: seq<NodeState>, x: NodeState)
    requires forall i :: 0 <= i < |nodes| ==> KeyLess(x, nodes[i])
    ensures Lookup(nodes, x.entity, x.node) == None
  {
    if nodes != [] {
      KeyLessTotal(x, nodes[0]);
      assert forall i :: 0 <= i < |nodes[1..]| ==> nodes[1..][i] == nodes[i + 1];
      LookupBelow(nodes[1..], x);
    }
  }

  /** Put changes exactly the one key. */
  lemma {:induction false} PutLookup(nodes: seq<NodeState>, x: NodeState, entity: string, node: string)
    requires Ordered(nodes)
    ensures Lookup(Put(nodes, x), entity, node) ==
            if entity == x.entity && node == x.node then Some(x.data) else Lookup(nodes, entity, node)
  {
    if nodes != [] {
      OrderedTail(nodes);
      if !SameKey(nodes[0], x) && !KeyLess(x, nodes[0]) {
        PutLookup(nodes[1..], x, entity, node);
        assert ([nodes[0]] + Put(nodes[1..], x))[1..] == Put(nodes[1..], x);
      } else if KeyLess(x, nodes[0]) {
        assert ([x] + nodes)[1..] == nodes;
      } else {
        assert ([x] + nodes[1..])[1..] == nodes[1..];
      }
    } else {
      assert [x][1..] == [];
    }
  }

  lemma {:induction false} PutElements(nodes: seq<NodeState>, x: NodeState)
    ensures forall y :: y in Put(nodes, x) ==> y in nodes || y == x
  {
    if nodes != [] && !SameKey(nodes[0], x) && !KeyLess(x, nodes[0]) {
      PutElements(nodes[1..], x);
    }
  }

  lemma {:induction false} PutOrdered(nodes: seq<NodeState>, x: NodeState)
    requires Ordered(nodes)
    ensures Ordered(Put(nodes, x)) && Put(nodes, x) != []
  {
    if nodes != [] {
      OrderedTail(nodes);
      KeyLessTotal(nodes[0], x);
      if KeyLess(x, nodes[0]) {
        forall i | 0 <= i < |nodes| ensures KeyLess(x, nodes[i]) {
          if i > 0 { KeyLessTransitive(x, nodes[0], nodes[i]); }
        }
      } else if SameKey(nodes[0], x) {
        assert forall i :: 0 < i < |nodes| ==> KeyLess(x, nodes[i]);
      } else {
        var rest := Put(nodes[1..], x);
        PutOrdered(nodes[1..], x);
        PutElements(nodes[1..], x);
        forall i | 0 <= i < |rest| ensures KeyLess(nodes[0], rest[i]) {
          assert rest[i] in rest;
        }
      }
    }
  }

  lemma {:induction false} LookupAt(nodes: seq<NodeState>, i: nat)
    requires Ordered(nodes) && i < |nodes|
    ensures Lookup(nodes, nodes[i].entity, nodes[i].node) == Some(nodes[i].data)
  {
    if i > 0 {
      OrderedTail(nodes);
      KeyLessTotal(nodes[0], nodes[i]);
      LookupAt(nodes[1..], i - 1);
    }
  }

  /** Same keys, same values. */
  ghost predicate SameMap(a: seq<NodeState>, b: seq<NodeState>) {
    forall e, n :: Lookup(a, e, n) == Lookup(b, e, n)
  }

  lemma {:induction false} FirstKeys(a: seq<NodeState>, b: seq<NodeState>)
    requires a != [] && b != [] && Ordered(a) && Ordered(b) && SameMap(a, b)
    ensures a[0] == b[0]
  {
    KeyLessTotal(a[0], b[0]);
    KeyLessTotal(b[0], a[0]);
    LookupAt(a, 0);
    LookupAt(b, 0);
    assert Lookup(b, a[0].entity, a[0].node) == Some(a[0].data);
    assert Lookup(a, b[0].entity, b[0].node) == Some(b[0].data);
    if KeyLess(a[0], b[0]) {
      AllAbove(b, a[0]);
      LookupBelow(b, a[0]);
    } else if KeyLess(b[0], a[0]) {
      AllAbove(a, b[0]);
      LookupBelow(a, b[0]);
    }
  }

  lemma {:induction false} AllAbove(nodes: seq<NodeState>, x: NodeState)
    requires nodes != [] && Ordered(nodes) && KeyLess(x, nodes[0])
    ensures forall i :: 0 <= i < |nodes| ==> KeyLess(x, nodes[i])
  {
    forall i | 0 <= i < |nodes| ensures KeyLess(x, nodes[i]) {
      if i > 0 { KeyLessTransitive(x, nodes[0], nodes[i]); }
    }
  }

  /** There is one ordered list for a given key map. */
  lemma {:induction false} OrderedUnique(a: seq<NodeState>, b: seq<NodeState>)
    requires Ordered(a) && Ordered(b) && SameMap(a, b)
    ensures a == b
  {
    if a != [] {
      LookupAt(a, 0);
      assert Lookup(b, a[0].entity, a[0].node) == Lookup(a, a[0].entity, a[0].node);
    }
    if b != [] {
      LookupAt(b, 0);
      assert Lookup(a, b[0].entity, b[0].node) == Lookup(b, b[0].entity, b[0].node);
    }
    if a != [] && b != [] {
      FirstKeys(a, b);
      OrderedTail(a);
      OrderedTail(b);
      LookupBelow(a[1..], a[0]);
      LookupBelow(b[1..], b[0]);
      forall e, n ensures Lookup(a[1..], e, n) == Lookup(b[1..], e, n) {
        assert Lookup(a, e, n) == Lookup(b, e, n);
      }
      OrderedUnique(a[1..], b[1..]);
      assert a == [a[0]] + a[1..] && b == [b[0]] + b[1..];
    }
  }

  /** Updates of different keys commute. */
  lemma {:induction false} PutCommutes(nodes: seq<NodeState>, x: NodeState, y: NodeState)
    requires Ordered(nodes) && !SameKey(x, y)
    ensures Put(Put(nodes, x), y) == Put(Put(nodes, y), x)
  {
    PutOrdered(nodes, x);
    PutOrdered(nodes, y);
    PutOrdered(Put(nodes, x), y);
    PutOrdered(Put(nodes, y), x);
    forall e, n ensures Lookup(Put(Put(nodes, x), y), e, n) == Lookup(Put(Put(nodes, y), x), e, n) {
      PutLookup(nodes, x, e, n);
      PutLookup(nodes, y, e, n);
      PutLookup(Put(nodes, x), y, e, n);
      PutLookup(Put(nodes, y), x, e, n);
    }
    OrderedUnique(Put(Put(nodes, x), y), Put(Put(nodes, y), x));
  }

  // ----- Apply -----

  /** Apply refines a map update: order kept, one key set, every other key as before, one version further. */
  lemma {:induction false} ApplyIsUpdate(p: Params, s: Projection, n: Normal)
    requires Ordered(List(s))
    ensures var next := Apply(p, s, n);
            && Ordered(List(next)) && List(next) != []
            && next.id == s.id && next.version == s.version + 1
            && Lookup(List(next), n.entity, n.node) == Some(n.resultData)
            && (forall e, k :: (e != n.entity || k != n.node) ==> Lookup(List(next), e, k) == Lookup(List(s), e, k))
  {
    var x := NodeState(n.entity, n.node, n.resultData);
    PutOrdered(List(s), x);
    forall e, k ensures Lookup(Put(List(s), x), e, k) ==
                        if e == n.entity && k == n.node then Some(n.resultData) else Lookup(List(s), e, k) {
      PutLookup(List(s), x, e, k);
    }
  }

  /** Proposals on different keys commute, hash included. */
  lemma {:induction false} ApplyCommutes(p: Params, s: Projection, a: Normal, b: Normal)
    requires Ordered(List(s)) && (a.entity != b.entity || a.node != b.node)
    ensures Apply(p, Apply(p, s, a), b) == Apply(p, Apply(p, s, b), a)
  {
    PutCommutes(List(s), NodeState(a.entity, a.node, a.resultData), NodeState(b.entity, b.node, b.resultData));
    HashIgnoresHash(p, Apply(p, Apply(p, s, a), b), Apply(p, Apply(p, s, b), a));
  }

  lemma {:induction false} HashIgnoresHash(p: Params, a: Projection, b: Projection)
    requires a.id == b.id && a.version == b.version && List(a) == List(b)
    ensures HashProjection(p, a) == HashProjection(p, b)
  {
    hide Canonical, ProjectionValue;
    assert Clone(a).(hash := "") == Clone(b).(hash := "");
  }

  // ----- What the hash covers -----

  lemma {:induction false} RefKeysDistinct()
    ensures Distinct(REF_KEYS) && |REF_KEYS| == 3
  {
    assert |REF_KEYS[0]| == 2 && |REF_KEYS[1]| == 7 && |REF_KEYS[2]| == 4;
  }

  lemma {:induction false} NodeKeysDistinct()
    ensures Distinct(NODE_KEYS) && |NODE_KEYS| == 3
  {
    assert NODE_KEYS[0][0] == 'e' && NODE_KEYS[1][0] == 'n' && NODE_KEYS[2][0] == 'd';
  }

  lemma {:induction false} ProjectionKeysDistinct()
    ensures Distinct(PROJECTION_KEYS) && |PROJECTION_KEYS| == 4
  {
    assert PROJECTION_KEYS[0][0] == 'i' && PROJECTION_KEYS[1][0] == 'v' && PROJECTION_KEYS[2][0] == 'n' && PROJECTION_KEYS[3][0] == 'h';
  }

  lemma {:induction false} NodeValueInjective(a: NodeState, b: NodeState)
    requires NodeValue(a) == NodeValue(b)
    ensures a == b
  {
    NodeKeysDistinct();
    var x, y := [Some(Str(a.entity)), Some(Str(a.node)), Some(a.data)], [Some(Str(b.entity)), Some(Str(b.node)), Some(b.data)];
    CollectInjective(NODE_KEYS, x, y);
    assert x[0] == y[0] && x[1] == y[1] && x[2] == y[2];
  }

  lemma {:induction false} NodesValueInjective(a: Option<seq<NodeState>>, b: Option<seq<NodeState>>)
    requires NodesValue(a) == NodesValue(b)
    ensures a == b
  {
    if a.Some? {
      assert |NodesValue(a).items| == |NodesValue(b).items|;
      forall i | 0 <= i < |a.value| ensures a.value[i] == b.value[i] {
        assert NodesValue(a).items[i] == NodesValue(b).items[i];
        NodeValueInjective(a.value[i], b.value[i]);
      }
      assert a.value == b.value;
    }
  }

  /** The JSON of a projection determines it, nil nodes told apart from empty ones. */
  lemma {:induction false} ProjectionValueInjective(a: Projection, b: Projection)
    requires ProjectionValue(a) == ProjectionValue(b)
    ensures a == b
  {
    ProjectionKeysDistinct();
    var x := [Some(Str(a.id)), Some(Int(a.version)), Some(NodesValue(a.nodes)), Some(Str(a.hash))];
    var y := [Some(Str(b.id)), Some(Int(b.version)), Some(NodesValue(b.nodes)), Some(Str(b.hash))];
    CollectInjective(PROJECTION_KEYS, x, y);
    assert x[0] == y[0] && x[1] == y[1] && x[2] == y[2] && x[3] == y[3];
    IntRoundTrip(a.version);
    IntRoundTrip(b.version);
    NodesValueInjective(a.nodes, b.nodes);
  }

  /** The text that is hashed of a projection. */
  ghost function HashedText(x: Projection): string {
    Canonical(ProjectionValue(Clone(x).(hash := "")), true)
  }

  /**
   * The hash covers exactly id, version and key map: the hashed texts of two projections are
   * the same if and only if these are, so equal hashes of different ones are a collision.
   */
  lemma {:induction false} HashCoversExactly(p: Params, a: Projection, b: Projection)
    requires Ordered(List(a)) && Ordered(List(b))
    ensures HashedText(a) == HashedText(b) <==> a.id == b.id && a.version == b.version && SameMap(List(a), List(b))
    ensures HashProjection(p, a) == p.textHash(HashedText(a))
  {
    hide Canonical, ProjectionValue;
    var x, y := Clone(a).(hash := ""), Clone(b).(hash := "");
    if a.id == b.id && a.version == b.version && SameMap(List(a), List(b)) {
      OrderedUnique(List(a), List(b));
      assert x == y;
    }
    if HashedText(a) == HashedText(b) {
      CanonicalInjective(ProjectionValue(x), ProjectionValue(y), true);
      ProjectionValueInjective(x, y);
      assert List(a) == List(x) == List(y) == List(b);
    }
  }
}
