/** Every edge of a built graph stands for something that a packet says, and is ordered by its ends and the word of its type. */
module GraphEdges {
  import opened Order
  import Text
  import opened Graphs
  import opened GraphTheory

  // ----- Where edges come from -----

  /** A link from the directory above x to x, where x is d or above it. */
  ghost predicate Nests(ids: Ids, workspace: string, d: string, e: Edge) {
    e.edgeType.Contains? &&
    exists x :: IsAbove(x, d) && !Top(DirOf(x)) && e.from == DirID(ids, workspace, DirOf(x)) && e.to == DirID(ids, workspace, x)
  }

  predicate LinksOut(ids: Ids, p: Packet, e: Edge) {
    e.edgeType.Hyperlink? && e.from == FileID(ids, p) && exists i :: 0 <= i < |p.links| && e.to == ids.node(p.links[i], "", p.links[i], External)
  }

  /** The edge joins two of the packet's nodes, its file and its directory, its file and one of its links, or two of its directories. */
  ghost predicate Stands(ids: Ids, workspace: string, p: Packet, e: Edge) {
    var s, f, m, d := SourceID(ids, p), FileID(ids, p), MetaID(ids, p), DirOf(LocatorOf(p));
    || (e.edgeType.DerivedFrom? && e.from == s && e.to == f)
    || (e.edgeType.Reference? && e.from == f && e.to == m)
    || (e.edgeType.SourceEdge? && e.from == s && e.to == m)
    || (!Top(d) && e.edgeType.Contains? && e.from == DirID(ids, workspace, d) && e.to == f)
    || (!Top(d) && e.edgeType.ParentEdge? && e.from == f && e.to == DirID(ids, workspace, d))
    || LinksOut(ids, p, e)
    || Nests(ids, workspace, d, e)
  }

  /** The provenance is the packet's, at its locator. */
  predicate Origin(prov: Provenance, p: Packet) {
    && prov.workspaceID == p.provWorkspace && prov.extractionID == p.extractionID && prov.version == p.extractionVersion
    && prov.eventID == p.eventID && prov.locator == (if p.locator != "" then p.locator else p.sourceRef)
  }

  ghost predicate Explains(ids: Ids, workspace: string, p: Packet, e: Edge) {
    Stands(ids, workspace, p, e) && Origin(e.provenance, p)
  }

  lemma {:induction false} DirEdges(ids: Ids, workspace: string, b: Builder, d: string, prov: Provenance, e: Edge)
    requires Grounded(ids, workspace, b) && NamesNodes(ids)
    requires e in EnsureDir(ids, workspace, b, d, prov).edges
    ensures e in b.edges || (Nests(ids, workspace, d, e) && e.provenance == prov)
    decreases |d|
  {
    hide DirOf, Grounded, NamesNodes, Nests;
    if !Top(d) && d !in b.dirs {
      var p := DirOf(d);
      if !Top(p) {
        DirOfShorter(d);
        EnsureDirGrounded(ids, workspace, b, p, prov);
        ParentKnown(ids, workspace, EnsureDir(ids, workspace, b, p, prov), p);
        if e in EnsureDir(ids, workspace, b, p, prov).edges {
          DirEdges(ids, workspace, b, p, prov, e);
          NestsBelow(ids, workspace, d, e);
        } else {
          NestsHere(ids, workspace, d, e);
        }
      }
    }
  }

  lemma {:induction false} NestsBelow(ids: Ids, workspace: string, d: string, e: Edge)
    requires !Top(d) && !Top(DirOf(d))
    ensures Nests(ids, workspace, DirOf(d), e) ==> Nests(ids, workspace, d, e)
  {
    hide DirOf;
    if Nests(ids, workspace, DirOf(d), e) {
      var x :| IsAbove(x, DirOf(d)) && !Top(DirOf(x)) && e.from == DirID(ids, workspace, DirOf(x)) && e.to == DirID(ids, workspace, x);
      assert IsAbove(x, d);
    }
  }

  lemma {:induction false} NestsHere(ids: Ids, workspace: string, d: string, e: Edge)
    requires !Top(d) && !Top(DirOf(d))
    ensures e.edgeType.Contains? && e.from == DirID(ids, workspace, DirOf(d)) && e.to == DirID(ids, workspace, d) ==> Nests(ids, workspace, d, e)
  {
    hide DirOf;
    assert IsAbove(d, d);
  }

  lemma {:induction false} PacketEdge(ids: Ids, workspace: string, p: Packet, e: Edge)
    requires e in PacketEdges(ids, workspace, p, FolderID(ids, workspace, DirOf(LocatorOf(p))))
    ensures Explains(ids, workspace, p, e)
  {
    hide DirOf, SourceID, FileID, MetaID, Nests;
    var links := LinkEdges(ids, workspace, p, p.links);
    if e in links {
      var i :| 0 <= i < |links| && links[i] == e;
      assert e.to == ids.node(p.links[i], "", p.links[i], External);
    } else {
      hide LinkEdges;
    }
  }

  lemma {:induction false} AddedEdges(ids: Ids, workspace: string, before: Builder, p: Packet, e: Edge)
    requires Grounded(ids, workspace, before) && NamesNodes(ids) && e in AddPacket(ids, workspace, before, p).edges
    ensures e in before.edges || Explains(ids, workspace, p, e)
  {
    hide DirOf, EnsureDir, PacketEdges, NamesNodes, Grounded, Nests, LinksOut;
    var d := DirOf(LocatorOf(p));
    var b := EnsureDir(ids, workspace, before, d, ProvOf(p));
    EnsureDirGrounded(ids, workspace, before, d, ProvOf(p));
    if !Top(d) { ParentKnown(ids, workspace, b, d); }
    if e in b.edges {
      DirEdges(ids, workspace, before, d, ProvOf(p), e);
    } else {
      PacketEdge(ids, workspace, p, e);
    }
  }

  lemma {:induction false} AllAddedEdges(ids: Ids, workspace: string, packets: seq<Packet>, e: Edge)
    requires NamesNodes(ids) && e in AddPackets(ids, workspace, packets).edges
    ensures exists p :: p in packets && Explains(ids, workspace, p, e)
    decreases |packets|
  {
    hide AddPacket, NamesNodes, Explains, Grounded, Placed;
    if packets != [] {
      var m := |packets| - 1;
      AddPacketsGrounded(ids, workspace, packets[..m]);
      AddedEdges(ids, workspace, AddPackets(ids, workspace, packets[..m]), packets[m], e);
      if e in AddPackets(ids, workspace, packets[..m]).edges {
        AllAddedEdges(ids, workspace, packets[..m], e);
        var p :| p in packets[..m] && Explains(ids, workspace, p, e);
        assert p in packets;
      }
    }
  }

  /** Every edge of a built graph stands for something that one of its packets says, and has that packet's provenance. */
  lemma {:induction false} EdgesExplained(ids: Ids, packets: seq<Packet>, e: Edge)
    requires NamesNodes(ids) && e in BuildGraph(ids, packets).edges
    ensures exists p :: p in packets && Explains(ids, BuildGraph(ids, packets).workspaceID, p, e)
  {
    hide SortEdges, Dedup, AddPackets, SortPackets, NamesNodes, Explains;
    var ordered := SortPackets(packets);
    var workspace := WorkspaceOf(ordered);
    var b := AddPackets(ids, workspace, ordered);
    DedupKeeps(b.edges);
    SortedFrom(Dedup(b.edges), e);
    AllAddedEdges(ids, workspace, ordered, e);
    SortMembers(packets);
  }

  lemma {:induction false} SortedFrom(edges: seq<Edge>, e: Edge)
    ensures e in SortEdges(edges) ==> e in edges
    decreases |edges|
  {
    hide InsertEdge;
    if edges != [] {
      var m := |edges| - 1;
      SortedFrom(edges[..m], e);
      InsertedFrom(SortEdges(edges[..m]), edges[m], e);
      assert edges == edges[..m] + [edges[m]];
    }
  }

  lemma {:induction false} InsertedFrom(edges: seq<Edge>, x: Edge, e: Edge)
    ensures e in InsertEdge(edges, x) ==> e in edges || e == x
    decreases |edges|
  {
    hide EdgeLess;
    if edges != [] {
      InsertedFrom(edges[1..], x, e);
      assert edges == [edges[0]] + edges[1..];
    }
  }

  // ----- The order of edge types -----

  const TYPES := [Contains, DerivedFrom, Hyperlink, ParentEdge, Reference, SourceEdge]

  /** Edges with the same ends are ordered by type, in this order. */
  lemma {:induction false} TypesInOrder(a: Edge, b: Edge, i: nat, j: nat)
    requires a.from == b.from && a.to == b.to && i < j < |TYPES| && a.edgeType == TYPES[i] && b.edgeType == TYPES[j]
    ensures EdgeLess(a, b)
  {
    assert Less("contains", "derived_from") && Less("derived_from", "hyperlink");
    assert Less("hyperlink", "parent") && Less("parent", "reference") && Less("reference", "source");
    assert Word(TYPES[i]) == ["contains", "derived_from", "hyperlink", "parent", "reference", "source"][i];
    assert Word(TYPES[j])[0] > Word(TYPES[i])[0];
  }

  /** Edges with different ends are ordered by where they come from, and then by where they go. */
  lemma {:induction false} EndsFirst(a: Edge, b: Edge)
    requires a.from != b.from || a.to != b.to
    ensures EdgeLess(a, b) <==> Less(a.from, b.from) || (a.from == b.from && Less(a.to, b.to))
  {
    hide Less, Word;
    Irreflexive(a.from, a.from);
    if a.from != b.from { LessTotal(a.from, b.from); }
  }

  // ----- What node ids are made of -----

  /** Node ids that no two inputs share. */
  ghost predicate TellsNodes(ids: Ids) {
    forall a, b, c, t, x, y, z, u :: ids.node(a, b, c, t) == ids.node(x, y, z, u) ==> a == x && b == y && c == z && t == u
  }

  predicate SameHash(a: string, b: string) {
    Text.LowerAll(a) == Text.LowerAll(b)
  }

  /** Two packets share a source node, or a metadata node, exactly if they agree in source id, source hash up to case, and locator; a file node, with the content hash instead. */
  lemma {:induction false} SharedNodes(ids: Ids, p: Packet, q: Packet)
    requires TellsNodes(ids)
    ensures var at := p.sourceID == q.sourceID && LocatorOf(p) == LocatorOf(q);
            && (SourceID(ids, p) == SourceID(ids, q) <==> at && SameHash(p.sourceSha, q.sourceSha))
            && (MetaID(ids, p) == MetaID(ids, q) <==> at && SameHash(p.sourceSha, q.sourceSha))
            && (FileID(ids, p) == FileID(ids, q) <==> at && SameHash(p.contentHash, q.contentHash))
            && SourceID(ids, p) != FileID(ids, q) && SourceID(ids, p) != MetaID(ids, q) && FileID(ids, p) != MetaID(ids, q)
    ensures MetaID(ids, p) == ids.node(p.sourceID, Text.LowerAll(p.sourceSha), LocatorOf(p) + ":meta", Metadata)
  {
    hide LocatorOf, Text.LowerAll;
    var a, b := LocatorOf(p), LocatorOf(q);
    if a + ":meta" == b + ":meta" {
      assert a == (a + ":meta")[..|a + ":meta"| - 5] && b == (b + ":meta")[..|b + ":meta"| - 5];
    }
  }

  // ----- Nodes that two packets share -----

  /** The first packet that brings one of its own nodes decides what it says: a later one leaves it as it is. */
  lemma {:induction false} FirstDecides(ids: Ids, workspace: string, before: Builder, p: Packet, id: string)
    requires Grounded(ids, workspace, before) && NamesNodes(ids)
    requires id in before.nodes && forall x :: IsAbove(x, DirOf(LocatorOf(p))) ==> id != DirID(ids, workspace, x)
    ensures id in AddPacket(ids, workspace, before, p).nodes && AddPacket(ids, workspace, before, p).nodes[id] == before.nodes[id]
  {
    hide DirOf, EnsureDir, PacketEdges, NamesNodes, IsAbove;
    DirectoryKeeps(ids, workspace, before, DirOf(LocatorOf(p)), ProvOf(p), id);
  }

  lemma {:induction false} DirectoryKeeps(ids: Ids, workspace: string, b: Builder, d: string, prov: Provenance, id: string)
    requires id in b.nodes && forall x :: IsAbove(x, d) ==> id != DirID(ids, workspace, x)
    ensures id in EnsureDir(ids, workspace, b, d, prov).nodes && EnsureDir(ids, workspace, b, d, prov).nodes[id] == b.nodes[id]
    decreases |d|
  {
    hide DirOf;
    if !Top(d) && d !in b.dirs {
      assert IsAbove(d, d);
      if !Top(DirOf(d)) {
        forall x | IsAbove(x, DirOf(d)) ensures id != DirID(ids, workspace, x) {
          assert IsAbove(x, d);
        }
        DirOfShorter(d);
        DirectoryKeeps(ids, workspace, b, DirOf(d), prov, id);
      }
    }
  }
}
