/** What every built graph satisfies, and that it does not depend on the order of the packets. */
module GraphTheory {
  import opened Order
  import opened Graphs

  // ----- The builder -----

  /** There is an edge with these ends and type. */
  ghost predicate Joined(edges: seq<Edge>, from: string, to: string, t: EdgeType) {
    exists e :: e in edges && e.from == from && e.to == to && e.edgeType == t
  }

  predicate WellLinked(ids: Ids, workspace: string, nodes: map<string, GNode>, e: Edge) {
    e.id == ids.edge(e.from, e.to, e.edgeType, workspace) && e.from in nodes && (e.edgeType.Hyperlink? || e.to in nodes)
  }

  /** A known directory has its node, and is linked from its parent, which is known. */
  ghost predicate Housed(ids: Ids, workspace: string, b: Builder, d: string) {
    && d in b.dirs && !Top(d) && b.dirs[d] == DirID(ids, workspace, d) && DirID(ids, workspace, d) in b.nodes
    && (!Top(DirOf(d)) ==> DirOf(d) in b.dirs && Joined(b.edges, DirID(ids, workspace, DirOf(d)), DirID(ids, workspace, d), Contains))
  }

  ghost predicate Grounded(ids: Ids, workspace: string, b: Builder) {
    && (forall e :: e in b.edges ==> WellLinked(ids, workspace, b.nodes, e))
    && (forall d :: d in b.dirs ==> Housed(ids, workspace, b, d))
  }

  ghost predicate Grows(b: Builder, c: Builder) {
    && b.nodes.Keys <= c.nodes.Keys && b.edges <= c.edges
    && (forall d :: d in b.dirs ==> d in c.dirs && c.dirs[d] == b.dirs[d])
  }

  lemma {:induction false} JoinedGrows(a: seq<Edge>, b: seq<Edge>, from: string, to: string, t: EdgeType)
    requires Joined(a, from, to, t) && a <= b
    ensures Joined(b, from, to, t)
  {
    var e :| e in a && e.from == from && e.to == to && e.edgeType == t;
    assert e in b;
  }

  lemma {:induction false} HousedGrows(ids: Ids, workspace: string, b: Builder, c: Builder, d: string)
    requires Housed(ids, workspace, b, d) && Grows(b, c)
    ensures Housed(ids, workspace, c, d)
  {
    hide DirOf, Joined;
    if !Top(DirOf(d)) {
      JoinedGrows(b.edges, c.edges, DirID(ids, workspace, DirOf(d)), DirID(ids, workspace, d), Contains);
    }
  }

  lemma {:induction false} GrowsTransitive(a: Builder, b: Builder, c: Builder)
    requires Grows(a, b) && Grows(b, c)
    ensures Grows(a, c)
  {
  }

  lemma {:induction false} DirOfShorter(d: string)
    requires !Top(DirOf(d))
    ensures DirOf(d) != d
  {
  }

  /** One directory put on a builder that knows its parent. */
  lemma {:induction false} PutDir(ids: Ids, workspace: string, above: Builder, d: string, prov: Provenance)
    requires Grounded(ids, workspace, above) && !Top(d) && d !in above.dirs && NamesNodes(ids)
    requires !Top(DirOf(d)) ==> DirOf(d) in above.dirs
    ensures var parentID := if Top(DirOf(d)) then "" else above.dirs[DirOf(d)];
            var id := DirID(ids, workspace, d);
            var n := GNode(id, "", "", d, Directory, "", "", "", "", parentID, prov, "", "");
            var c := Builder(above.nodes[id := n],
                             above.edges + (if parentID != "" then [Link(ids, workspace, parentID, id, Contains, prov)] else []),
                             above.dirs[d := id]);
            Grounded(ids, workspace, c) && Grows(above, c)
  {
    hide DirOf, Joined;
    var p := DirOf(d);
    var parentID := if Top(p) then "" else above.dirs[p];
    var id := DirID(ids, workspace, d);
    var n := GNode(id, "", "", d, Directory, "", "", "", "", parentID, prov, "", "");
    var new_ := if parentID != "" then [Link(ids, workspace, parentID, id, Contains, prov)] else [];
    var c := Builder(above.nodes[id := n], above.edges + new_, above.dirs[d := id]);
    if !Top(p) {
      assert Housed(ids, workspace, above, p);
      assert parentID == DirID(ids, workspace, p) && parentID != "";
      LinkJoins(ids, workspace, above.edges, parentID, id, Contains, prov);
    }
    forall e | e in c.edges ensures WellLinked(ids, workspace, c.nodes, e) {
      if e in above.edges {
        assert WellLinked(ids, workspace, above.nodes, e);
      }
    }
    forall x | x in c.dirs ensures Housed(ids, workspace, c, x) {
      if x != d {
        HousedGrows(ids, workspace, above, c, x);
      }
    }
  }

  lemma {:induction false} LinkJoins(ids: Ids, workspace: string, edges: seq<Edge>, from: string, to: string, t: EdgeType, prov: Provenance)
    ensures Joined(edges + [Link(ids, workspace, from, to, t, prov)], from, to, t)
  {
    var e := Link(ids, workspace, from, to, t, prov);
    assert e in edges + [e];
  }

  lemma {:induction false} EnsureDirGrounded(ids: Ids, workspace: string, b: Builder, d: string, prov: Provenance)
    requires Grounded(ids, workspace, b) && NamesNodes(ids)
    ensures var c := EnsureDir(ids, workspace, b, d, prov);
            Grounded(ids, workspace, c) && Grows(b, c) && (Top(d) || d in c.dirs)
    decreases |d|
  {
    hide DirOf, Grounded, Grows, NamesNodes;
    SelfGrows(b);
    if !Top(d) && d !in b.dirs {
      var p := DirOf(d);
      if !Top(p) {
        DirOfShorter(d);
        EnsureDirGrounded(ids, workspace, b, p, prov);
      }
      var above := if Top(p) then b else EnsureDir(ids, workspace, b, p, prov);
      NotYet(ids, workspace, b, p, prov, d);
      PutDir(ids, workspace, above, d, prov);
      GrowsTransitive(b, above, EnsureDir(ids, workspace, b, d, prov));
    }
  }

  lemma {:induction false} SelfGrows(b: Builder)
    ensures Grows(b, b)
  {
  }

  /** Making a directory adds no longer one. */
  lemma {:induction false} NotYet(ids: Ids, workspace: string, b: Builder, p: string, prov: Provenance, d: string)
    requires d !in b.dirs && (!Top(p) ==> |p| < |d|)
    ensures d !in EnsureDir(ids, workspace, b, p, prov).dirs
    decreases |p|
  {
    hide DirOf;
    if !Top(p) && p !in b.dirs && !Top(DirOf(p)) {
      DirOfShorter(p);
      NotYet(ids, workspace, b, DirOf(p), prov, d);
    }
  }

  // ----- Packets -----

  /** The packet's nodes and edges are there, and its directory with them. */
  ghost predicate Placed(ids: Ids, workspace: string, b: Builder, p: Packet) {
    var d := DirOf(LocatorOf(p));
    && SourceID(ids, p) in b.nodes && FileID(ids, p) in b.nodes && MetaID(ids, p) in b.nodes
    && Joined(b.edges, SourceID(ids, p), FileID(ids, p), DerivedFrom)
    && Joined(b.edges, FileID(ids, p), MetaID(ids, p), Reference)
    && Joined(b.edges, SourceID(ids, p), MetaID(ids, p), SourceEdge)
    && (!Top(d) ==> d in b.dirs && Joined(b.edges, DirID(ids, workspace, d), FileID(ids, p), Contains)
                    && Joined(b.edges, FileID(ids, p), DirID(ids, workspace, d), ParentEdge))
    && LinksJoined(ids, b.edges, p)
  }

  /** Every link of the packet is a hyperlink edge from its file to the external node of that address. */
  ghost predicate LinksJoined(ids: Ids, edges: seq<Edge>, p: Packet) {
    forall i :: 0 <= i < |p.links| ==> Joined(edges, FileID(ids, p), ids.node(p.links[i], "", p.links[i], External), Hyperlink)
  }

  lemma {:induction false} LinksJoinedGrows(ids: Ids, a: seq<Edge>, b: seq<Edge>, p: Packet)
    requires LinksJoined(ids, a, p) && a <= b
    ensures LinksJoined(ids, b, p)
  {
    hide FileID, Joined;
    forall i | 0 <= i < |p.links| ensures Joined(b, FileID(ids, p), ids.node(p.links[i], "", p.links[i], External), Hyperlink) {
      JoinedGrows(a, b, FileID(ids, p), ids.node(p.links[i], "", p.links[i], External), Hyperlink);
    }
  }

  lemma {:induction false} LinksAreThere(ids: Ids, workspace: string, edges: seq<Edge>, p: Packet, dirID: string)
    ensures LinksJoined(ids, edges + PacketEdges(ids, workspace, p, dirID), p)
  {
    var links, new_ := LinkEdges(ids, workspace, p, p.links), PacketEdges(ids, workspace, p, dirID);
    var all := edges + new_;
    forall i | 0 <= i < |p.links| ensures Joined(all, FileID(ids, p), ids.node(p.links[i], "", p.links[i], External), Hyperlink) {
      var k := |new_| - |links| + i;
      assert new_[k] == links[i];
      assert all[|edges| + k] == links[i];
      assert links[i] in all;
    }
  }

  lemma {:induction false} PlacedGrows(ids: Ids, workspace: string, b: Builder, c: Builder, p: Packet)
    requires Placed(ids, workspace, b, p) && Grows(b, c)
    ensures Placed(ids, workspace, c, p)
  {
    hide DirOf, Joined, LinksJoined;
    var d := DirOf(LocatorOf(p));
    JoinedGrows(b.edges, c.edges, SourceID(ids, p), FileID(ids, p), DerivedFrom);
    JoinedGrows(b.edges, c.edges, FileID(ids, p), MetaID(ids, p), Reference);
    JoinedGrows(b.edges, c.edges, SourceID(ids, p), MetaID(ids, p), SourceEdge);
    if !Top(d) {
      JoinedGrows(b.edges, c.edges, DirID(ids, workspace, d), FileID(ids, p), Contains);
      JoinedGrows(b.edges, c.edges, FileID(ids, p), DirID(ids, workspace, d), ParentEdge);
    }
    LinksJoinedGrows(ids, b.edges, c.edges, p);
  }

  lemma {:induction false} EdgesJoin(ids: Ids, workspace: string, edges: seq<Edge>, p: Packet, dirID: string)
    ensures var all := edges + PacketEdges(ids, workspace, p, dirID);
            && Joined(all, SourceID(ids, p), FileID(ids, p), DerivedFrom)
            && Joined(all, FileID(ids, p), MetaID(ids, p), Reference)
            && Joined(all, SourceID(ids, p), MetaID(ids, p), SourceEdge)
            && (dirID != "" ==> Joined(all, dirID, FileID(ids, p), Contains) && Joined(all, FileID(ids, p), dirID, ParentEdge))
  {
    hide LinkEdges;
    var new_ := PacketEdges(ids, workspace, p, dirID);
    var all := edges + new_;
    assert forall i :: 0 <= i < |new_| ==> new_[i] in all;
    assert new_[0] in all && new_[1] in all && new_[2] in all;
    if dirID != "" {
      assert new_[3] in all && new_[4] in all;
    }
  }

  /** Every new edge ends in nodes of the packet or its directory. */
  lemma {:induction false} EdgesWellLinked(ids: Ids, workspace: string, nodes: map<string, GNode>, p: Packet, dirID: string, e: Edge)
    requires SourceID(ids, p) in nodes && FileID(ids, p) in nodes && MetaID(ids, p) in nodes && (dirID != "" ==> dirID in nodes)
    requires e in PacketEdges(ids, workspace, p, dirID)
    ensures WellLinked(ids, workspace, nodes, e)
  {
    var links := LinkEdges(ids, workspace, p, p.links);
    if e in links {
      var i :| 0 <= i < |links| && links[i] == e;
      assert e == Link(ids, workspace, FileID(ids, p), ids.node(p.links[i], "", p.links[i], External), Hyperlink, ProvOf(p));
      hide FileID, ProvOf, PacketEdges, LinkEdges;
    } else {
      hide LinkEdges, SourceID, FileID, MetaID, ProvOf;
      var prov, s, f, m := ProvOf(p), SourceID(ids, p), FileID(ids, p), MetaID(ids, p);
      assert e == Link(ids, workspace, s, f, DerivedFrom, prov) || e == Link(ids, workspace, f, m, Reference, prov)
          || e == Link(ids, workspace, s, m, SourceEdge, prov)
          || (dirID != "" && (e == Link(ids, workspace, dirID, f, Contains, prov) || e == Link(ids, workspace, f, dirID, ParentEdge, prov)));
    }
  }

  lemma {:induction false} AddPacketGrounded(ids: Ids, workspace: string, before: Builder, p: Packet)
    requires Grounded(ids, workspace, before) && NamesNodes(ids)
    ensures var c := AddPacket(ids, workspace, before, p);
            Grounded(ids, workspace, c) && Grows(before, c) && Placed(ids, workspace, c, p)
  {
    hide DirOf, EnsureDir, Joined, PacketEdges, NamesNodes, WellLinked, LinksJoined;
    var d := DirOf(LocatorOf(p));
    EnsureDirGrounded(ids, workspace, before, d, ProvOf(p));
    var b := EnsureDir(ids, workspace, before, d, ProvOf(p));
    var dirID, c := DirIDOf(b, d), AddPacket(ids, workspace, before, p);
    if !Top(d) {
      assert Housed(ids, workspace, b, d);
      NotEmpty(ids, workspace, d);
    }
    EdgesJoin(ids, workspace, b.edges, p, dirID);
    LinksAreThere(ids, workspace, b.edges, p, dirID);
    assert Grows(b, c);
    GrowsTransitive(before, b, c);
    forall e | e in c.edges ensures WellLinked(ids, workspace, c.nodes, e) {
      if e in b.edges {
        assert WellLinked(ids, workspace, b.nodes, e);
        WellLinkedGrows(ids, workspace, b.nodes, c.nodes, e);
      } else {
        EdgesWellLinked(ids, workspace, c.nodes, p, dirID, e);
      }
    }
    forall x | x in c.dirs ensures Housed(ids, workspace, c, x) {
      HousedGrows(ids, workspace, b, c, x);
    }
  }

  lemma {:induction false} WellLinkedGrows(ids: Ids, workspace: string, a: map<string, GNode>, b: map<string, GNode>, e: Edge)
    requires WellLinked(ids, workspace, a, e) && a.Keys <= b.Keys
    ensures WellLinked(ids, workspace, b, e)
  {
    assert e.from in a.Keys;
  }

  lemma {:induction false} NotEmpty(ids: Ids, workspace: string, d: string)
    requires NamesNodes(ids)
    ensures DirID(ids, workspace, d) != ""
  {
  }

  lemma {:induction false} AddPacketsGrounded(ids: Ids, workspace: string, packets: seq<Packet>)
    requires NamesNodes(ids)
    ensures var b := AddPackets(ids, workspace, packets);
            Grounded(ids, workspace, b) && forall p :: p in packets ==> Placed(ids, workspace, b, p)
    decreases |packets|
  {
    hide AddPacket, Grounded, Placed, Grows, NamesNodes;
    if packets == [] {
      NothingGrounded(ids, workspace);
    } else {
      var m := |packets| - 1;
      var before := AddPackets(ids, workspace, packets[..m]);
      AddPacketsGrounded(ids, workspace, packets[..m]);
      AddPacketGrounded(ids, workspace, before, packets[m]);
      forall p | p in packets ensures Placed(ids, workspace, AddPackets(ids, workspace, packets), p) {
        if p != packets[m] {
          assert p in packets[..m];
          PlacedGrows(ids, workspace, before, AddPackets(ids, workspace, packets), p);
        }
      }
    }
  }

  lemma {:induction false} NothingGrounded(ids: Ids, workspace: string)
    ensures Grounded(ids, workspace, NewBuilder)
  {
  }

  // ----- Deduplicated and sorted edges -----

  /** The order looks at ends and type only. */
  predicate SameEnds(a: Edge, b: Edge) {
    a.from == b.from && a.to == b.to && a.edgeType == b.edgeType
  }

  lemma {:induction false} WordsDiffer(t: EdgeType, u: EdgeType)
    ensures Word(t) == Word(u) ==> t == u
  {
    assert |"contains"| == 8 && |"derived_from"| == 12 && |"source"| == 6 && |"parent"| == 6 && |"hyperlink"| == 9 && |"reference"| == 9;
    assert "source"[0] == 's' && "parent"[0] == 'p' && "hyperlink"[0] == 'h' && "reference"[0] == 'r';
  }

  lemma {:induction false} EdgeLessTotal(a: Edge, b: Edge)
    ensures EdgeLess(a, b) || SameEnds(a, b) || EdgeLess(b, a)
    ensures EdgeLess(a, b) ==> !EdgeLess(b, a) && !SameEnds(a, b)
  {
    hide Less, Word;
    LessTotal(a.from, b.from);
    LessTotal(a.to, b.to);
    LessTotal(Word(a.edgeType), Word(b.edgeType));
    WordsDiffer(a.edgeType, b.edgeType);
    Irreflexive(a.from, b.from);
    Irreflexive(a.to, b.to);
    Irreflexive(Word(a.edgeType), Word(b.edgeType));
  }

  lemma {:induction false} Irreflexive(a: string, b: string)
    ensures Less(a, b) ==> !Less(b, a) && a != b
  {
    hide Less;
    if Less(a, b) { LessAsymmetric(a, b); }
  }

  lemma {:induction false} EdgeLessTransitive(a: Edge, b: Edge, c: Edge)
    requires EdgeLess(a, b) && EdgeLess(b, c)
    ensures EdgeLess(a, c)
  {
    hide Less, Word;
    if a.from != b.from && b.from != c.from {
      LessTransitive(a.from, b.from, c.from);
      Irreflexive(a.from, c.from);
    } else if a.from == b.from && b.from == c.from {
      if a.to != b.to && b.to != c.to {
        LessTransitive(a.to, b.to, c.to);
        Irreflexive(a.to, c.to);
      } else if a.to == b.to && b.to == c.to {
        LessTransitive(Word(a.edgeType), Word(b.edgeType), Word(c.edgeType));
      }
    }
  }

  /** Strictly ordered: no two edges share their ends and type. */
  ghost predicate InOrder(edges: seq<Edge>) {
    forall i, j :: 0 <= i < j < |edges| ==> EdgeLess(edges[i], edges[j])
  }

  ghost predicate EndsDiffer(edges: seq<Edge>) {
    forall i, j :: 0 <= i < j < |edges| ==> !SameEnds(edges[i], edges[j])
  }

  lemma {:induction false} InsertInOrder(edges: seq<Edge>, e: Edge)
    requires InOrder(edges) && forall x :: x in edges ==> !SameEnds(x, e)
    ensures InOrder(InsertEdge(edges, e)) && forall x :: x in InsertEdge(edges, e) <==> x in edges || x == e
    decreases |edges|
  {
    hide EdgeLess, SameEnds;
    if edges != [] {
      EdgeLessTotal(e, edges[0]);
      assert edges == [edges[0]] + edges[1..];
      assert !SameEnds(edges[0], e);
      SameEndsSymmetric(edges[0], e);
      if EdgeLess(e, edges[0]) {
        forall i | 0 <= i < |edges| ensures EdgeLess(e, edges[i]) {
          if i > 0 { EdgeLessTransitive(e, edges[0], edges[i]); }
        }
      } else {
        InsertInOrder(edges[1..], e);
        var rest := InsertEdge(edges[1..], e);
        forall i | 0 <= i < |rest| ensures EdgeLess(edges[0], rest[i]) {
          assert rest[i] in rest;
          if rest[i] != e {
            var j :| 0 <= j < |edges[1..]| && edges[1..][j] == rest[i];
            assert edges[j + 1] == rest[i];
          }
        }
      }
    }
  }

  lemma {:induction false} SameEndsSymmetric(a: Edge, b: Edge)
    ensures SameEnds(a, b) <==> SameEnds(b, a)
  {
  }

  /** Sorting edges with different ends orders them strictly and keeps each. */
  lemma {:induction false} SortInOrder(edges: seq<Edge>)
    requires EndsDiffer(edges)
    ensures InOrder(SortEdges(edges)) && forall x :: x in SortEdges(edges) <==> x in edges
    decreases |edges|
  {
    hide EdgeLess, SameEnds, InsertEdge;
    if edges != [] {
      var m := |edges| - 1;
      SortInOrder(edges[..m]);
      forall x | x in SortEdges(edges[..m]) ensures !SameEnds(x, edges[m]) {
        var i :| 0 <= i < m && edges[..m][i] == x;
        assert edges[i] == x;
      }
      InsertInOrder(SortEdges(edges[..m]), edges[m]);
      assert edges == edges[..m] + [edges[m]];
    }
  }

  /** Deduplication keeps one edge of every id. */
  lemma {:induction false} DedupKeeps(edges: seq<Edge>)
    ensures (forall x :: x in Dedup(edges) ==> x in edges) && (forall x :: x in edges ==> HasID(Dedup(edges), x.id))
    ensures forall i, j :: 0 <= i < j < |Dedup(edges)| ==> Dedup(edges)[i].id != Dedup(edges)[j].id
    decreases |edges|
  {
    hide HasID;
    if edges != [] {
      var m := |edges| - 1;
      var before := Dedup(edges[..m]);
      DedupKeeps(edges[..m]);
      assert edges == edges[..m] + [edges[m]];
      HasIDAppend(before, edges[m]);
      if !HasID(before, edges[m].id) {
        forall i | 0 <= i < |before| ensures before[i].id != edges[m].id {
          HasIDAt(before, i);
        }
      }
    }
  }

  lemma {:induction false} HasIDAt(edges: seq<Edge>, i: nat)
    requires i < |edges|
    ensures HasID(edges, edges[i].id)
  {
  }

  // ----- The graph -----

  /** Linked to its parent, and so on up to the top. */
  ghost predicate Rooted(ids: Ids, workspace: string, g: Graph, d: string)
    decreases |d|
  {
    Top(d) ||
    (DirID(ids, workspace, d) in g.nodes &&
     (!Top(DirOf(d)) ==> Joined(g.edges, DirID(ids, workspace, DirOf(d)), DirID(ids, workspace, d), Contains) && Rooted(ids, workspace, g, DirOf(d))))
  }

  /** No two of these edges have one id but other ends or another type. */
  ghost predicate EdgesApart(edges: seq<Edge>) {
    forall e, f :: e in edges && f in edges && e.id == f.id ==> SameEnds(e, f)
  }

  lemma {:induction false} SealedEdges(ids: Ids, workspace: string, b: Builder)
    requires Grounded(ids, workspace, b) && EdgesApart(b.edges)
    ensures var g := Seal(ids, workspace, b);
            && InOrder(g.edges)
            && (forall e :: e in g.edges ==> WellLinked(ids, workspace, g.nodes, e))
            && (forall e :: e in b.edges ==> Joined(g.edges, e.from, e.to, e.edgeType))
  {
    hide SortEdges, Dedup, Housed;
    DedupKeeps(b.edges);
    var kept, g := Dedup(b.edges), Seal(ids, workspace, b);
    forall i, j | 0 <= i < j < |kept| ensures !SameEnds(kept[i], kept[j]) {
      assert kept[i] in b.edges && kept[j] in b.edges;
      assert WellLinked(ids, workspace, b.nodes, kept[i]) && WellLinked(ids, workspace, b.nodes, kept[j]);
    }
    SortInOrder(kept);
    forall e | e in b.edges ensures Joined(g.edges, e.from, e.to, e.edgeType) {
      assert HasID(kept, e.id);
      var i :| 0 <= i < |kept| && kept[i].id == e.id;
      assert kept[i] in b.edges && WellLinked(ids, workspace, b.nodes, kept[i]) && WellLinked(ids, workspace, b.nodes, e);
      assert SameEnds(kept[i], e);
      assert kept[i] in g.edges;
    }
  }

  lemma {:induction false} HousedIsRooted(ids: Ids, workspace: string, b: Builder, d: string)
    requires Grounded(ids, workspace, b) && EdgesApart(b.edges) && (Top(d) || d in b.dirs)
    ensures Rooted(ids, workspace, Seal(ids, workspace, b), d)
    decreases |d|
  {
    SealedEdges(ids, workspace, b);
    hide SortEdges, Dedup, DirOf, EdgesApart, WellLinked;
    if !Top(d) {
      assert Housed(ids, workspace, b, d);
      if !Top(DirOf(d)) {
        var e :| e in b.edges && e.from == DirID(ids, workspace, DirOf(d)) && e.to == DirID(ids, workspace, d) && e.edgeType == Contains;
        DirOfShorter(d);
        HousedIsRooted(ids, workspace, b, DirOf(d));
      }
    }
  }

  // ----- Which node sits at an id -----

  /** x is d or a directory above it. */
  predicate IsAbove(x: string, d: string)
    decreases |d|
  {
    !Top(d) && (x == d || (!Top(DirOf(d)) && IsAbove(x, DirOf(d))))
  }

  /** The id of the directory d, if it is one. */
  function FolderID(ids: Ids, workspace: string, d: string): string {
    if Top(d) then "" else DirID(ids, workspace, d)
  }

  function DirNode(ids: Ids, workspace: string, d: string, prov: Provenance): GNode {
    GNode(DirID(ids, workspace, d), "", "", d, Directory, "", "", "", "", FolderID(ids, workspace, DirOf(d)), prov, "", "")
  }

  ghost predicate DirNodeAbove(ids: Ids, workspace: string, d: string, prov: Provenance, n: GNode) {
    exists x :: IsAbove(x, d) && n == DirNode(ids, workspace, x, prov)
  }

  /** The node is one of those that this packet brings. */
  ghost predicate FromPacket(ids: Ids, workspace: string, p: Packet, n: GNode) {
    var d := DirOf(LocatorOf(p));
    n == SourceNode(ids, p) || n == FileNode(ids, p, FolderID(ids, workspace, d)) || n == MetaNode(ids, p)
    || DirNodeAbove(ids, workspace, d, ProvOf(p), n)
  }

  /** Every node is under its own id and is brought by a packet. */
  ghost predicate Explained(ids: Ids, workspace: string, nodes: map<string, GNode>, packets: seq<Packet>) {
    forall id :: id in nodes ==> nodes[id].id == id && exists p :: p in packets && FromPacket(ids, workspace, p, nodes[id])
  }

  /** Making a directory changes no node but those of directories it makes. */
  lemma {:induction false} EnsureDirNodes(ids: Ids, workspace: string, b: Builder, d: string, prov: Provenance, id: string)
    requires Grounded(ids, workspace, b) && NamesNodes(ids) && id in EnsureDir(ids, workspace, b, d, prov).nodes
    ensures var n := EnsureDir(ids, workspace, b, d, prov).nodes[id];
            (id in b.nodes && n == b.nodes[id]) || (n.id == id && DirNodeAbove(ids, workspace, d, prov, n))
    decreases |d|
  {
    hide DirOf, Grounded, NamesNodes, Joined;
    if !Top(d) && d !in b.dirs {
      var p := DirOf(d);
      var above := if Top(p) || p == d then b else EnsureDir(ids, workspace, b, p, prov);
      if !Top(p) {
        DirOfShorter(d);
        EnsureDirGrounded(ids, workspace, b, p, prov);
        ParentKnown(ids, workspace, above, p);
        if id in above.nodes {
          EnsureDirNodes(ids, workspace, b, p, prov, id);
          AboveFurther(ids, workspace, d, prov, above.nodes[id]);
        }
      }
      assert IsAbove(d, d);
      assert id == DirID(ids, workspace, d) ==> EnsureDir(ids, workspace, b, d, prov).nodes[id] == DirNode(ids, workspace, d, prov);
    }
  }

  lemma {:induction false} ParentKnown(ids: Ids, workspace: string, b: Builder, d: string)
    requires Grounded(ids, workspace, b) && !Top(d) && d in b.dirs
    ensures DirIDOf(b, d) == FolderID(ids, workspace, d)
  {
    assert Housed(ids, workspace, b, d);
  }

  lemma {:induction false} AboveFurther(ids: Ids, workspace: string, d: string, prov: Provenance, n: GNode)
    requires !Top(d)
    ensures DirNodeAbove(ids, workspace, DirOf(d), prov, n) ==> DirNodeAbove(ids, workspace, d, prov, n)
  {
    hide DirOf, DirNode;
    if DirNodeAbove(ids, workspace, DirOf(d), prov, n) {
      var x :| IsAbove(x, DirOf(d)) && n == DirNode(ids, workspace, x, prov);
      assert IsAbove(x, d);
    }
  }

  /** A packet changes no node but those it brings. */
  lemma {:induction false} AddPacketNodes(ids: Ids, workspace: string, before: Builder, p: Packet, id: string)
    requires Grounded(ids, workspace, before) && NamesNodes(ids) && id in AddPacket(ids, workspace, before, p).nodes
    ensures var n := AddPacket(ids, workspace, before, p).nodes[id];
            (id in before.nodes && n == before.nodes[id]) || (n.id == id && FromPacket(ids, workspace, p, n))
  {
    hide DirOf, Grounded, NamesNodes, EnsureDir, DirNodeAbove, PacketEdges, SourceID, FileID, MetaID, ProvOf;
    var d := DirOf(LocatorOf(p));
    var b := EnsureDir(ids, workspace, before, d, ProvOf(p));
    EnsureDirGrounded(ids, workspace, before, d, ProvOf(p));
    if !Top(d) {
      ParentKnown(ids, workspace, b, d);
    }
    if id in b.nodes {
      EnsureDirNodes(ids, workspace, before, d, ProvOf(p), id);
    }
  }

  lemma {:induction false} AddPacketsExplained(ids: Ids, workspace: string, packets: seq<Packet>)
    requires NamesNodes(ids)
    ensures Explained(ids, workspace, AddPackets(ids, workspace, packets).nodes, packets)
    decreases |packets|
  {
    hide AddPacket, Grounded, Placed, NamesNodes, FromPacket;
    if packets != [] {
      var m := |packets| - 1;
      var before, after := AddPackets(ids, workspace, packets[..m]), AddPackets(ids, workspace, packets);
      AddPacketsGrounded(ids, workspace, packets[..m]);
      AddPacketsExplained(ids, workspace, packets[..m]);
      forall id | id in after.nodes
        ensures after.nodes[id].id == id && exists p :: p in packets && FromPacket(ids, workspace, p, after.nodes[id])
      {
        AddPacketNodes(ids, workspace, before, packets[m], id);
        if id in before.nodes && after.nodes[id] == before.nodes[id] {
          var p :| p in packets[..m] && FromPacket(ids, workspace, p, before.nodes[id]);
          assert p in packets;
        } else {
          assert packets[m] in packets;
        }
      }
    }
  }

  /** The ids that a build gives to nodes tell kinds apart, and sources. */
  ghost predicate NodesApart(ids: Ids, workspace: string, packets: seq<Packet>) {
    && (forall p, q :: p in packets && q in packets ==>
          SourceID(ids, p) != FileID(ids, q) && SourceID(ids, p) != MetaID(ids, q) && FileID(ids, p) != MetaID(ids, q))
    && (forall p, q :: p in packets && q in packets && p.sourceID != q.sourceID ==>
          SourceID(ids, p) != SourceID(ids, q) && FileID(ids, p) != FileID(ids, q) && MetaID(ids, p) != MetaID(ids, q))
    && (forall p, q, x :: p in packets && q in packets && IsAbove(x, DirOf(LocatorOf(q))) ==>
          DirID(ids, workspace, x) != SourceID(ids, p) && DirID(ids, workspace, x) != FileID(ids, p) && DirID(ids, workspace, x) != MetaID(ids, p))
  }

  /** Two packets that share an id of one kind are of one source, and no ids of different kinds are shared. */
  lemma {:induction false} IdsApart(ids: Ids, workspace: string, packets: seq<Packet>, p: Packet, q: Packet)
    requires NodesApart(ids, workspace, packets) && p in packets && q in packets
    ensures SourceID(ids, p) != FileID(ids, q) && SourceID(ids, p) != MetaID(ids, q) && FileID(ids, p) != MetaID(ids, q)
    ensures p.sourceID != q.sourceID ==>
              SourceID(ids, p) != SourceID(ids, q) && FileID(ids, p) != FileID(ids, q) && MetaID(ids, p) != MetaID(ids, q)
  {
    hide SourceID, FileID, MetaID, DirID, IsAbove, DirOf, LocatorOf;
  }

  lemma {:induction false} DirsApart(ids: Ids, workspace: string, packets: seq<Packet>, p: Packet, q: Packet, n: GNode)
    requires NodesApart(ids, workspace, packets) && p in packets && q in packets
    requires DirNodeAbove(ids, workspace, DirOf(LocatorOf(q)), ProvOf(q), n)
    ensures n.id != SourceID(ids, p) && n.id != FileID(ids, p) && n.id != MetaID(ids, p)
  {
    hide SourceID, FileID, MetaID, DirID, IsAbove, DirOf, LocatorOf, ProvOf;
  }

  lemma {:induction false} SameSource(packets: seq<Packet>, p: Packet, q: Packet)
    requires DistinctSources(packets) && p in packets && q in packets && p.sourceID == q.sourceID
    ensures p == q
  {
    var i :| 0 <= i < |packets| && packets[i] == p;
    var j :| 0 <= j < |packets| && packets[j] == q;
    assert i == j;
  }

  /** The node at one of a packet's own ids. */
  lemma {:induction false} OwnNode(ids: Ids, workspace: string, nodes: map<string, GNode>, packets: seq<Packet>, p: Packet, id: string)
    requires NodesApart(ids, workspace, packets) && DistinctSources(packets) && p in packets && Explained(ids, workspace, nodes, packets)
    requires id in nodes && (id == SourceID(ids, p) || id == FileID(ids, p) || id == MetaID(ids, p))
    ensures nodes[id] == if id == SourceID(ids, p) then SourceNode(ids, p)
                         else if id == FileID(ids, p) then FileNode(ids, p, FolderID(ids, workspace, DirOf(LocatorOf(p))))
                         else MetaNode(ids, p)
  {
    hide NodesApart, DistinctSources, DirOf, LocatorOf, SourceID, FileID, MetaID, DirNodeAbove, ProvOf;
    var n := nodes[id];
    var q :| q in packets && FromPacket(ids, workspace, q, n);
    IdsApart(ids, workspace, packets, p, q);
    IdsApart(ids, workspace, packets, q, p);
    IdsApart(ids, workspace, packets, p, p);
    assert DirNodeAbove(ids, workspace, DirOf(LocatorOf(q)), ProvOf(q), n) ==> n.id != id by {
      if DirNodeAbove(ids, workspace, DirOf(LocatorOf(q)), ProvOf(q), n) {
        DirsApart(ids, workspace, packets, p, q, n);
      }
    }
    assert p.sourceID == q.sourceID;
    SameSource(packets, p, q);
  }

  /** Sorting keeps every packet, repeated source ids or not. */
  lemma {:induction false} SortMembers(packets: seq<Packet>)
    ensures forall x :: x in SortPackets(packets) <==> x in packets
    decreases |packets|
  {
    hide Less, InsertPacket;
    if packets != [] {
      var m := |packets| - 1;
      SortMembers(packets[..m]);
      InsertMembers(SortPackets(packets[..m]), packets[m]);
      assert packets == packets[..m] + [packets[m]];
    }
  }

  lemma {:induction false} InsertMembers(packets: seq<Packet>, p: Packet)
    ensures forall x :: x in InsertPacket(packets, p) <==> x in packets || x == p
    decreases |packets|
  {
    hide Less;
    if packets != [] {
      InsertMembers(packets[1..], p);
      assert packets == [packets[0]] + packets[1..];
    }
  }

  lemma {:induction false} ExplainedBy(ids: Ids, workspace: string, nodes: map<string, GNode>, a: seq<Packet>, b: seq<Packet>)
    requires Explained(ids, workspace, nodes, a) && forall x :: x in a <==> x in b
    ensures Explained(ids, workspace, nodes, b)
  {
    hide FromPacket;
    forall id | id in nodes ensures exists p :: p in b && FromPacket(ids, workspace, p, nodes[id]) {
      var p :| p in a && FromPacket(ids, workspace, p, nodes[id]);
      assert p in b;
    }
  }

  /** The edges that a build collects before it removes repeats. */
  function EdgesBuilt(ids: Ids, packets: seq<Packet>): seq<Edge> {
    var ordered := SortPackets(packets);
    AddPackets(ids, WorkspaceOf(ordered), ordered).edges
  }

  /**
   * Every built graph: edges strictly ordered, none with a missing end but hyperlinks; every
   * packet with its three nodes joined, and its directories linked one by one up to the top;
   * every node under its own id and brought by one of the packets.
   */
  lemma {:induction false} BuiltGraph(ids: Ids, packets: seq<Packet>)
    requires NamesNodes(ids) && EdgesApart(EdgesBuilt(ids, packets))
    ensures var g := BuildGraph(ids, packets);
            && InOrder(g.edges)
            && (forall e :: e in g.edges ==> WellLinked(ids, g.workspaceID, g.nodes, e))
            && (forall p :: p in packets ==> PlacedIn(ids, g, p))
            && Explained(ids, g.workspaceID, g.nodes, packets)
  {
    var ordered := SortPackets(packets);
    var workspace := WorkspaceOf(ordered);
    var b := AddPackets(ids, workspace, ordered);
    AddPacketsGrounded(ids, workspace, ordered);
    SealedEdges(ids, workspace, b);
    AddPacketsExplained(ids, workspace, ordered);
    SortMembers(packets);
    ExplainedBy(ids, workspace, b.nodes, ordered, packets);
    hide SortEdges, Dedup, Grounded, AddPackets, SortPackets, Placed, PlacedIn, NamesNodes, EdgesApart, InOrder, WellLinked, Explained;
    forall p | p in ordered ensures PlacedIn(ids, Seal(ids, workspace, b), p) {
      PlacedSealed(ids, workspace, b, p);
    }
  }

  /**
   * A graph carries the hash of its own nodes and edges, and the workspace of a packet with the
   * least source id; without packets it has neither workspace nor nodes nor edges.
   */
  lemma {:induction false} BuiltHeader(ids: Ids, packets: seq<Packet>)
    ensures var g := BuildGraph(ids, packets);
            && g.hash == ids.graph(g.workspaceID, g.nodes, g.edges)
            && (packets == [] ==> g.workspaceID == "" && g.nodes == map[] && g.edges == [])
            && (packets != [] ==> exists p :: Least(packets, p) && g.workspaceID == p.workspaceID)
  {
    hide AddPacket, Least;
    SmallestFirst(packets);
  }

  ghost predicate Least(packets: seq<Packet>, p: Packet) {
    p in packets && forall q :: q in packets ==> !Less(q.sourceID, p.sourceID)
  }

  /** The packet that comes first has the least source id. */
  lemma {:induction false} SmallestFirst(packets: seq<Packet>)
    ensures packets == [] <==> SortPackets(packets) == []
    ensures packets != [] ==> Least(packets, SortPackets(packets)[0])
    decreases |packets|
  {
    hide Less, InsertPacket;
    SortMembers(packets);
    if packets != [] {
      var m := |packets| - 1;
      var before, p := SortPackets(packets[..m]), packets[m];
      SmallestFirst(packets[..m]);
      assert packets == packets[..m] + [p];
      FirstOfInsert(before, p);
      forall q | q in packets ensures !Less(q.sourceID, SortPackets(packets)[0].sourceID) {
        Irreflexive(p.sourceID, p.sourceID);
        if before != [] && Less(p.sourceID, before[0].sourceID) && q != p {
          NoneBelow(p.sourceID, before[0].sourceID, q.sourceID);
        }
      }
    }
  }

  lemma {:induction false} FirstOfInsert(packets: seq<Packet>, p: Packet)
    ensures var r := InsertPacket(packets, p);
            r != [] && r[0] == if packets == [] || Less(p.sourceID, packets[0].sourceID) then p else packets[0]
  {
    hide Less;
  }

  /** What is not below b is not below anything below b. */
  lemma {:induction false} NoneBelow(a: string, b: string, c: string)
    requires Less(a, b) && !Less(c, b)
    ensures !Less(c, a)
  {
    hide Less;
    if Less(c, a) { LessTransitive(c, a, b); }
  }

  /** The node is of the packet's source, from its event, with its provenance at its locator. */
  predicate SaysOrigin(n: GNode, p: Packet) {
    var at := if p.locator != "" then p.locator else p.sourceRef;
    && n.sourceID == p.sourceID && n.sourceSha == p.sourceSha && n.locator == at && n.metadataRef == p.metadataID && n.createdEvent == p.eventID
    && n.provenance.extractionID == p.extractionID && n.provenance.version == p.extractionVersion
    && n.provenance.workspaceID == p.provWorkspace && n.provenance.locator == at && n.provenance.eventID == p.eventID
  }

  predicate SaysContent(n: GNode, p: Packet) {
    SaysOrigin(n, p) && n.contentID == p.contentID && n.contentHash == p.contentHash && n.contentRef == p.contentRef
  }

  predicate SaysSource(n: GNode, p: Packet) {
    SaysContent(n, p) && n.nodeType.Source? && n.parentID == n.derivedFrom == ""
  }

  predicate SaysMetadata(n: GNode, p: Packet) {
    SaysOrigin(n, p) && n.nodeType.Metadata? && n.contentID == n.contentHash == n.contentRef == n.parentID == n.derivedFrom == ""
  }

  lemma {:induction false} NodesSay(ids: Ids, p: Packet, dirID: string)
    ensures SaysSource(SourceNode(ids, p), p) && SaysMetadata(MetaNode(ids, p), p)
    ensures var f := FileNode(ids, p, dirID); SaysContent(f, p) && f.nodeType.File? && f.parentID == dirID && f.derivedFrom == SourceID(ids, p)
  {
    hide SourceID, FileID, MetaID;
  }

  /** With distinct source ids, what each packet says is what its three nodes say. */
  lemma {:induction false} BuiltNodes(ids: Ids, packets: seq<Packet>, p: Packet)
    requires NamesNodes(ids) && NodesApart(ids, WorkspaceOf(SortPackets(packets)), packets)
    requires DistinctSources(packets) && p in packets
    ensures var g := BuildGraph(ids, packets);
            var s, f, m := SourceID(ids, p), FileID(ids, p), MetaID(ids, p);
            && s in g.nodes && g.nodes[s] == SourceNode(ids, p) && SaysSource(g.nodes[s], p)
            && f in g.nodes && g.nodes[f] == FileNode(ids, p, FolderID(ids, g.workspaceID, DirOf(LocatorOf(p))))
            && SaysContent(g.nodes[f], p) && g.nodes[f].nodeType.File? && g.nodes[f].derivedFrom == s
            && g.nodes[f].parentID == FolderID(ids, g.workspaceID, DirOf(LocatorOf(p)))
            && m in g.nodes && g.nodes[m] == MetaNode(ids, p) && SaysMetadata(g.nodes[m], p)
  {
    hide SortEdges, Dedup, AddPackets, SortPackets, Explained, Placed, NamesNodes, NodesApart, DirOf, LocatorOf, SourceID, FileID, MetaID, Grounded;
    var ordered := SortPackets(packets);
    var workspace := WorkspaceOf(ordered);
    var b := AddPackets(ids, workspace, ordered);
    SortMembers(packets);
    AddPacketsGrounded(ids, workspace, ordered);
    AddPacketsExplained(ids, workspace, ordered);
    ExplainedBy(ids, workspace, b.nodes, ordered, packets);
    NodesPlaced(ids, workspace, b, p);
    OwnNode(ids, workspace, b.nodes, packets, p, SourceID(ids, p));
    OwnNode(ids, workspace, b.nodes, packets, p, FileID(ids, p));
    OwnNode(ids, workspace, b.nodes, packets, p, MetaID(ids, p));
    IdsApart(ids, workspace, packets, p, p);
    NodesSay(ids, p, FolderID(ids, workspace, DirOf(LocatorOf(p))));
    hide SaysSource, SaysContent, SaysMetadata, SourceNode, FileNode, MetaNode;
  }

  lemma {:induction false} NodesPlaced(ids: Ids, workspace: string, b: Builder, p: Packet)
    requires Placed(ids, workspace, b, p)
    ensures SourceID(ids, p) in b.nodes && FileID(ids, p) in b.nodes && MetaID(ids, p) in b.nodes
  {
    hide DirOf, Joined;
  }

  /** The packet's nodes, their edges, and its directories. */
  ghost predicate PlacedIn(ids: Ids, g: Graph, p: Packet) {
    var d := DirOf(LocatorOf(p));
    && SourceID(ids, p) in g.nodes && FileID(ids, p) in g.nodes && MetaID(ids, p) in g.nodes
    && Joined(g.edges, SourceID(ids, p), FileID(ids, p), DerivedFrom)
    && Joined(g.edges, FileID(ids, p), MetaID(ids, p), Reference)
    && Joined(g.edges, SourceID(ids, p), MetaID(ids, p), SourceEdge)
    && (!Top(d) ==> Joined(g.edges, DirID(ids, g.workspaceID, d), FileID(ids, p), Contains)
                    && Joined(g.edges, FileID(ids, p), DirID(ids, g.workspaceID, d), ParentEdge))
    && LinksJoined(ids, g.edges, p) && Rooted(ids, g.workspaceID, g, d)
  }

  lemma {:induction false} JoinedSealed(ids: Ids, workspace: string, b: Builder, from: string, to: string, t: EdgeType)
    requires Grounded(ids, workspace, b) && EdgesApart(b.edges) && Joined(b.edges, from, to, t)
    ensures Joined(Seal(ids, workspace, b).edges, from, to, t)
  {
    SealedEdges(ids, workspace, b);
    hide Seal, Grounded, EdgesApart, WellLinked, InOrder;
    var e :| e in b.edges && e.from == from && e.to == to && e.edgeType == t;
  }

  lemma {:induction false} LinksSealed(ids: Ids, workspace: string, b: Builder, p: Packet)
    requires Grounded(ids, workspace, b) && EdgesApart(b.edges) && LinksJoined(ids, b.edges, p)
    ensures LinksJoined(ids, Seal(ids, workspace, b).edges, p)
  {
    hide Grounded, EdgesApart, Seal, Joined, FileID;
    forall i | 0 <= i < |p.links|
      ensures Joined(Seal(ids, workspace, b).edges, FileID(ids, p), ids.node(p.links[i], "", p.links[i], External), Hyperlink)
    {
      JoinedSealed(ids, workspace, b, FileID(ids, p), ids.node(p.links[i], "", p.links[i], External), Hyperlink);
    }
  }

  lemma {:induction false} PlacedSealed(ids: Ids, workspace: string, b: Builder, p: Packet)
    requires Grounded(ids, workspace, b) && EdgesApart(b.edges) && Placed(ids, workspace, b, p)
    ensures PlacedIn(ids, Seal(ids, workspace, b), p)
  {
    hide Grounded, EdgesApart, DirOf, SortEdges, Dedup, Rooted, Joined, LinksJoined;
    var d := DirOf(LocatorOf(p));
    JoinedSealed(ids, workspace, b, SourceID(ids, p), FileID(ids, p), DerivedFrom);
    JoinedSealed(ids, workspace, b, FileID(ids, p), MetaID(ids, p), Reference);
    JoinedSealed(ids, workspace, b, SourceID(ids, p), MetaID(ids, p), SourceEdge);
    if !Top(d) {
      JoinedSealed(ids, workspace, b, DirID(ids, workspace, d), FileID(ids, p), Contains);
      JoinedSealed(ids, workspace, b, FileID(ids, p), DirID(ids, workspace, d), ParentEdge);
    }
    LinksSealed(ids, workspace, b, p);
    HousedIsRooted(ids, workspace, b, d);
  }

  // ----- Order of packets -----

  ghost predicate Rising(packets: seq<Packet>) {
    forall i, j :: 0 <= i < j < |packets| ==> Less(packets[i].sourceID, packets[j].sourceID)
  }

  ghost predicate DistinctSources(packets: seq<Packet>) {
    forall i, j :: 0 <= i < j < |packets| ==> packets[i].sourceID != packets[j].sourceID
  }

  lemma {:induction false} InsertRising(packets: seq<Packet>, p: Packet)
    requires Rising(packets) && forall x :: x in packets ==> x.sourceID != p.sourceID
    ensures Rising(InsertPacket(packets, p)) && forall x :: x in InsertPacket(packets, p) <==> x in packets || x == p
    decreases |packets|
  {
    hide Less;
    if packets != [] {
      LessTotal(p.sourceID, packets[0].sourceID);
      assert packets == [packets[0]] + packets[1..];
      if Less(p.sourceID, packets[0].sourceID) {
        forall i | 0 <= i < |packets| ensures Less(p.sourceID, packets[i].sourceID) {
          if i > 0 { LessTransitive(p.sourceID, packets[0].sourceID, packets[i].sourceID); }
        }
      } else {
        InsertRising(packets[1..], p);
        var rest := InsertPacket(packets[1..], p);
        assert packets[0] in packets;
        forall i | 0 <= i < |rest| ensures Less(packets[0].sourceID, rest[i].sourceID) {
          assert rest[i] in rest;
          if rest[i] != p {
            var j :| 0 <= j < |packets[1..]| && packets[1..][j] == rest[i];
            assert packets[j + 1] == rest[i];
          }
        }
      }
    }
  }

  lemma {:induction false} SortRising(packets: seq<Packet>)
    requires DistinctSources(packets)
    ensures Rising(SortPackets(packets)) && forall x :: x in SortPackets(packets) <==> x in packets
    decreases |packets|
  {
    hide Less, InsertPacket;
    if packets != [] {
      var m := |packets| - 1;
      SortRising(packets[..m]);
      assert packets == packets[..m] + [packets[m]];
      forall x | x in SortPackets(packets[..m]) ensures x.sourceID != packets[m].sourceID {
        var i :| 0 <= i < m && packets[..m][i] == x;
        assert packets[i] == x;
      }
      InsertRising(SortPackets(packets[..m]), packets[m]);
    }
  }

  /** There is one rising list of given packets. */
  lemma {:induction false} RisingUnique(a: seq<Packet>, b: seq<Packet>)
    requires Rising(a) && Rising(b) && forall x :: x in a <==> x in b
    ensures a == b
    decreases |a|
  {
    hide Less;
    assert b != [] ==> b[0] in b;
    if a == [] {
    } else {
      assert a[0] in b;
      assert b[0] in a;
      if a[0] != b[0] {
        Irreflexive(a[0].sourceID, b[0].sourceID);
      }
      assert a == [a[0]] + a[1..] && b == [b[0]] + b[1..];
      HeadApart(a);
      HeadApart(b);
      forall x ensures x in a[1..] <==> x in b[1..] {
        assert x in a <==> x == a[0] || x in a[1..];
        assert x in b <==> x == b[0] || x in b[1..];
      }
      RisingUnique(a[1..], b[1..]);
    }
  }

  lemma {:induction false} HeadApart(a: seq<Packet>)
    requires a != [] && Rising(a)
    ensures a[0] !in a[1..]
  {
    hide Less;
    forall j | 0 < j < |a| ensures a[j] != a[0] {
      Irreflexive(a[0].sourceID, a[j].sourceID);
    }
  }

  /** The graph does not depend on the order in which packets with distinct ids are given. */
  lemma {:induction false} BuildIgnoresOrder(ids: Ids, a: seq<Packet>, b: seq<Packet>)
    requires DistinctSources(a) && DistinctSources(b) && forall x :: x in a <==> x in b
    ensures BuildGraph(ids, a) == BuildGraph(ids, b)
  {
    hide SortPackets, Seal, AddPackets, Rising;
    SortRising(a);
    SortRising(b);
    RisingUnique(SortPackets(a), SortPackets(b));
  }
}
