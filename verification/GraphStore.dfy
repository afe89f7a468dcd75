/** The graph store: packets by source id and the graph built from them, advanced one packet at a time. */
module GraphStore {
  import opened Wrappers
  import opened Order
  import opened Graphs
  import opened GraphTheory

  type Packets = map<string, Packet>

  /** The stored packets in order of their ids. */
  ghost function Listed(m: Packets): seq<Packet> {
    var keys := SortedKeys(m.Keys);
    seq(|keys|, i requires 0 <= i < |keys| => m[keys[i]])
  }

  predicate SameBytes(a: Packet, b: Packet) {
    a.contentHash == b.contentHash && a.sourceSha == b.sourceSha
  }

  /** What Apply does to the stored packets. */
  function Taken(valid: Packet -> bool, m: Packets, p: Packet): Packets {
    if !valid(p) || (p.sourceID in m && SameBytes(m[p.sourceID], p)) then m else m[p.sourceID := p]
  }

  ghost predicate Keyed(m: Packets) {
    forall k :: k in m ==> m[k].sourceID == k
  }

  class Store {
    const ids: Ids
    const valid: Packet -> bool
    var packets: Packets
    var graph: Graph
    var workspaceID: string

    /** Once a packet is stored the graph is the batch build of all stored packets. */
    ghost predicate Valid()
      reads this
    {
      Keyed(packets) && (packets != map[] ==> graph == BuildGraph(ids, Listed(packets)))
    }

    constructor (ids: Ids, valid: Packet -> bool, workspaceID: string)
      ensures Valid() && this.ids == ids && this.valid == valid && packets == map[]
    {
      this.ids := ids;
      this.valid := valid;
      this.workspaceID := workspaceID;
      this.packets := map[];
      this.graph := Graph(workspaceID, map[], [], "");
    }

    /** The stored packets as a sorted list. */
    method Collect() returns (list: seq<Packet>)
      ensures list == Listed(packets)
    {
      hide SortedKeys;
      var keys := Sort(packets.Keys);
      list := [];
      var i := 0;
      while i < |keys|
        invariant 0 <= i <= |keys| && |list| == i && forall j :: 0 <= j < i ==> list[j] == packets[keys[j]]
      {
        list := list + [packets[keys[i]]];
        i := i + 1;
      }
    }

    /** Apply: None is an invalid packet; unchanged says that the same bytes were stored already. */
    method Apply(p: Packet) returns (g: Option<Graph>, unchanged_: bool)
      requires Valid()
      modifies this
      ensures Valid() && packets == Taken(valid, old(packets), p)
      ensures g.Some? <==> valid(p)
      ensures g.Some? ==> g.value == graph == BuildGraph(ids, Listed(packets))
      ensures g.Some? ==> (unchanged_ <==> p.sourceID in old(packets) && SameBytes(old(packets)[p.sourceID], p))
      ensures g.None? || unchanged_ ==> packets == old(packets) && graph == old(graph)
    {
      hide BuildGraph, Listed;
      unchanged_ := false;
      if !valid(p) {
        return None, false;
      }
      if p.sourceID in packets {
        var existing := packets[p.sourceID];
        if existing.contentHash == p.contentHash && existing.sourceSha == p.sourceSha {
          return Some(graph), true;
        }
      }
      packets := packets[p.sourceID := p];
      var list := Collect();
      var built := Build(ids, list);
      graph := built;
      if workspaceID == "" {
        workspaceID := built.workspaceID;
      }
      return Some(built), false;
    }

    /**
     * RebuildFromAccepted, on the packets that history decodes to.  With distinct ids the store
     * afterwards agrees with a batch build of the history; a repeated id stays in the built list
     * but is stored once.
     */
    method RebuildFromAccepted(history: seq<Packet>) returns (g: Graph)
      modifies this
      ensures g == graph == BuildGraph(ids, SortPackets(history)) && Keyed(packets)
      ensures DistinctSources(history) ==> Valid() && g == BuildGraph(ids, history)
      ensures DistinctSources(history) ==> forall p :: p in history ==> p.sourceID in packets && packets[p.sourceID] == p
    {
      hide BuildGraph, SortPackets, DistinctSources;
      var ordered := SortPackets(history);
      var built := Build(ids, ordered);
      packets := KeepAll(ordered);
      graph := built;
      if |ordered| > 0 {
        workspaceID := ordered[0].workspaceID;
      }
      if DistinctSources(history) {
        RebuiltAgrees(ids, history, packets);
      }
      return built;
    }
  }

  /** The loop that stores a list of packets, later ones over earlier ones of the same id. */
  method KeepAll(packets: seq<Packet>) returns (m: Packets)
    ensures Keyed(m) && (forall k :: k in m ==> m[k] in packets)
    ensures DistinctSources(packets) ==> forall p :: p in packets ==> p.sourceID in m && m[p.sourceID] == p
  {
    m := map[];
    var i := 0;
    while i < |packets|
      invariant 0 <= i <= |packets|
      invariant forall k :: k in m ==> m[k] in packets && m[k].sourceID == k
      invariant DistinctSources(packets) ==> forall j :: 0 <= j < i ==> packets[j].sourceID in m && m[packets[j].sourceID] == packets[j]
    {
      m := m[packets[i].sourceID := packets[i]];
      i := i + 1;
    }
  }

  /** What is stored after a rebuild from packets with distinct ids. */
  lemma {:induction false} RebuiltAgrees(ids: Ids, history: seq<Packet>, m: Packets)
    requires DistinctSources(history) && Keyed(m) && forall k :: k in m ==> m[k] in SortPackets(history)
    requires DistinctSources(SortPackets(history)) ==> forall p :: p in SortPackets(history) ==> p.sourceID in m && m[p.sourceID] == p
    ensures BuildGraph(ids, SortPackets(history)) == BuildGraph(ids, history) == BuildGraph(ids, Listed(m))
    ensures forall p :: p in history ==> p.sourceID in m && m[p.sourceID] == p
  {
    hide BuildGraph, SortPackets, DistinctSources, Rising, Listed;
    var ordered := SortPackets(history);
    SortRising(history);
    RisingDistinct(ordered);
    BuildIgnoresOrder(ids, ordered, history);
    SameElements(m, ordered);
    ListedDistinct(m);
    BuildIgnoresOrder(ids, Listed(m), history);
  }

  lemma {:induction false} RisingDistinct(packets: seq<Packet>)
    requires Rising(packets)
    ensures DistinctSources(packets)
  {
    hide Less;
    forall i, j | 0 <= i < j < |packets| ensures packets[i].sourceID != packets[j].sourceID {
      Irreflexive(packets[i].sourceID, packets[j].sourceID);
    }
  }

  /** The stored list has the stored packets, each once. */
  lemma {:induction false} ListedDistinct(m: Packets)
    requires Keyed(m)
    ensures DistinctSources(Listed(m)) && forall p :: p in Listed(m) <==> p.sourceID in m && m[p.sourceID] == p
  {
    hide SortedKeys, Less;
    var keys, list := SortedKeys(m.Keys), Listed(m);
    forall i, j | 0 <= i < j < |list| ensures list[i].sourceID != list[j].sourceID {
      assert keys[i] in m && keys[j] in m;
      if keys[i] == keys[j] { IncreasingDistinct(keys, i, j); }
    }
    forall p ensures p in list <==> p.sourceID in m && m[p.sourceID] == p {
      if p in list {
        var i :| 0 <= i < |list| && list[i] == p;
        assert keys[i] in m;
      }
      if p.sourceID in m && m[p.sourceID] == p {
        assert p.sourceID in keys;
        var i :| 0 <= i < |keys| && keys[i] == p.sourceID;
        assert list[i] == p;
      }
    }
  }

  lemma {:induction false} SameElements(m: Packets, ordered: seq<Packet>)
    requires Keyed(m) && (forall k :: k in m ==> m[k] in ordered)
    requires forall j :: 0 <= j < |ordered| ==> ordered[j].sourceID in m && m[ordered[j].sourceID] == ordered[j]
    ensures forall p :: p in Listed(m) <==> p in ordered
  {
    ListedDistinct(m);
    hide Listed;
  }

  /**
   * What one packet does to the store: an invalid one nothing; a valid one is stored under its
   * source id, over any packet of that source, unless that one had the same content and source bytes.
   */
  lemma {:induction false} TakenExactly(valid: Packet -> bool, m: Packets, p: Packet)
    ensures var t := Taken(valid, m, p);
            && (forall k :: k != p.sourceID ==> (k in t <==> k in m) && (k in m ==> t[k] == m[k]))
            && (p.sourceID in t <==> p.sourceID in m || valid(p))
            && (p.sourceID in t ==>
                  t[p.sourceID] == if valid(p) && !(p.sourceID in m && m[p.sourceID].contentHash == p.contentHash && m[p.sourceID].sourceSha == p.sourceSha)
                                   then p else m[p.sourceID])
  {
  }

  // ----- Arrival order -----

  /** What a sequence of applied packets leaves stored. */
  function TakenAll(valid: Packet -> bool, m: Packets, packets: seq<Packet>): Packets {
    if packets == [] then m else Taken(valid, TakenAll(valid, m, packets[..|packets| - 1]), packets[|packets| - 1])
  }

  /** Exactly the valid ones of these packets are stored. */
  ghost predicate Holds(valid: Packet -> bool, m: Packets, packets: seq<Packet>) {
    && Keyed(m) && (forall k :: k in m ==> m[k] in packets && valid(m[k]))
    && (forall p :: p in packets && valid(p) ==> p.sourceID in m && m[p.sourceID] == p)
  }

  lemma {:induction false} TakeNew(valid: Packet -> bool, m: Packets, packets: seq<Packet>, p: Packet)
    requires Holds(valid, m, packets) && forall x :: x in packets ==> x.sourceID != p.sourceID
    ensures Holds(valid, Taken(valid, m, p), packets + [p])
  {
    assert p.sourceID !in m;
  }

  /** Packets with distinct ids are stored one and all if they are valid. */
  lemma {:induction false} TakenDistinct(valid: Packet -> bool, packets: seq<Packet>)
    requires DistinctSources(packets)
    ensures Holds(valid, TakenAll(valid, map[], packets), packets)
    decreases |packets|
  {
    hide Taken;
    if packets != [] {
      var n := |packets| - 1;
      TakenDistinct(valid, packets[..n]);
      forall x | x in packets[..n] ensures x.sourceID != packets[n].sourceID {
        var i :| 0 <= i < n && packets[..n][i] == x;
        assert packets[i] == x;
      }
      hide Holds;
      TakeNew(valid, TakenAll(valid, map[], packets[..n]), packets[..n], packets[n]);
      assert packets == packets[..n] + [packets[n]];
    }
  }

  /** After any packets with distinct ids, the stored packets and so the graph do not depend on the order they came in. */
  lemma {:induction false} ArrivalOrderIrrelevant(ids: Ids, valid: Packet -> bool, a: seq<Packet>, b: seq<Packet>)
    requires DistinctSources(a) && DistinctSources(b) && forall p :: p in a <==> p in b
    ensures TakenAll(valid, map[], a) == TakenAll(valid, map[], b)
    ensures BuildGraph(ids, Listed(TakenAll(valid, map[], a))) == BuildGraph(ids, Listed(TakenAll(valid, map[], b)))
  {
    hide TakenAll, BuildGraph, Listed;
    TakenDistinct(valid, a);
    TakenDistinct(valid, b);
    var m, n := TakenAll(valid, map[], a), TakenAll(valid, map[], b);
    forall k | k in m ensures k in n && n[k] == m[k] {
      assert m[k] in b;
    }
    forall k | k in n ensures k in m {
      assert n[k] in a;
    }
    assert m == n;
  }
}
