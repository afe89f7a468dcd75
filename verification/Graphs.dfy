/**
 * The context graph: built from source packets in order of their ids, with a node for every
 * directory above a source, and edges that are deduplicated and sorted at the end.
 */
module Graphs {
  import opened Order
  import Text
  import Workspaces

  datatype Provenance = Provenance(workspaceID: string, extractionID: string, version: string, locator: string, eventID: string)

  /** A source packet, with the hyperlinks that were extracted from its text. */
  datatype Packet = Packet(
    sourceID: string, sourceSha: string, locator: string, sourceRef: string, workspaceID: string,
    contentID: string, contentHash: string, contentRef: string, metadataID: string,
    provWorkspace: string, extractionID: string, extractionVersion: string, eventID: string, links: seq<string>)

  datatype NodeType = Source | File | Directory | Metadata | External

  datatype GNode = GNode(
    id: string, sourceID: string, sourceSha: string, locator: string, nodeType: NodeType, contentID: string, contentHash: string,
    contentRef: string, metadataRef: string, parentID: string, provenance: Provenance, createdEvent: string, derivedFrom: string)

  datatype EdgeType = Contains | DerivedFrom | SourceEdge | ParentEdge | Hyperlink | Reference

  datatype Edge = Edge(id: string, from: string, to: string, edgeType: EdgeType, provenance: Provenance)

  datatype Graph = Graph(workspaceID: string, nodes: map<string, GNode>, edges: seq<Edge>, hash: string)

  /** The hashes behind ids, and the hash of a graph. */
  datatype Ids = Ids(
    node: (string, string, string, NodeType) -> string,
    edge: (string, string, EdgeType, string) -> string,
    graph: (string, map<string, GNode>, seq<Edge>) -> string)

  /** No node id is empty. */
  ghost predicate NamesNodes(ids: Ids) {
    forall a, b, l, t :: ids.node(a, b, l, t) != ""
  }

  // ----- Directories -----

  /** path.Dir of a cleaned path. */
  function DirOf(p: string): (d: string)
    ensures Top(d) || |d| < |p|
  {
    if '/' !in p then "." else if Workspaces.Parent(p) == "" then "/" else Workspaces.Parent(p)
  }

  predicate Top(d: string) {
    d == "" || d == "." || d == "/"
  }

  datatype Builder = Builder(nodes: map<string, GNode>, edges: seq<Edge>, dirs: map<string, string>)

  const NewBuilder := Builder(map[], [], map[])

  function DirID(ids: Ids, workspace: string, d: string): string {
    ids.node(workspace, "", d, Directory)
  }

  function Link(ids: Ids, workspace: string, from: string, to: string, t: EdgeType, prov: Provenance): Edge {
    Edge(ids.edge(from, to, t, workspace), from, to, t, prov)
  }

  /** The id ensureDir returns. */
  function DirIDOf(b: Builder, d: string): string {
    if !Top(d) && d in b.dirs then b.dirs[d] else ""
  }

  /** ensureDir: the directory and every one above it, each linked from its parent. */
  function EnsureDir(ids: Ids, workspace: string, b: Builder, d: string, prov: Provenance): Builder
    decreases |d|
  {
    if Top(d) || d in b.dirs then b
    else
      var p := DirOf(d);
      var above := if Top(p) || p == d then b else EnsureDir(ids, workspace, b, p, prov);
      var parentID := if Top(p) || p == d then "" else DirIDOf(above, p);
      var id := DirID(ids, workspace, d);
      Builder(above.nodes[id := GNode(id, "", "", d, Directory, "", "", "", "", parentID, prov, "", "")],
              above.edges + (if parentID != "" then [Link(ids, workspace, parentID, id, Contains, prov)] else []),
              above.dirs[d := id])
  }

  // ----- One packet -----

  function LocatorOf(p: Packet): string {
    if p.locator == "" then p.sourceRef else p.locator
  }

  function ProvOf(p: Packet): Provenance {
    Provenance(p.provWorkspace, p.extractionID, p.extractionVersion, LocatorOf(p), p.eventID)
  }

  function SourceID(ids: Ids, p: Packet): string {
    ids.node(p.sourceID, Text.LowerAll(p.sourceSha), LocatorOf(p), Source)
  }

  function FileID(ids: Ids, p: Packet): string {
    ids.node(p.sourceID, Text.LowerAll(p.contentHash), LocatorOf(p), NodeType.File)
  }

  function MetaID(ids: Ids, p: Packet): string {
    ids.node(p.sourceID, Text.LowerAll(p.sourceSha), LocatorOf(p) + ":meta", Metadata)
  }

  function AddNode(nodes: map<string, GNode>, n: GNode): map<string, GNode> {
    if n.id in nodes then nodes else nodes[n.id := n]
  }

  function SourceNode(ids: Ids, p: Packet): GNode {
    GNode(SourceID(ids, p), p.sourceID, p.sourceSha, LocatorOf(p), Source, p.contentID, p.contentHash, p.contentRef, p.metadataID, "",
          ProvOf(p), p.eventID, "")
  }

  function FileNode(ids: Ids, p: Packet, dirID: string): GNode {
    GNode(FileID(ids, p), p.sourceID, p.sourceSha, LocatorOf(p), NodeType.File, p.contentID, p.contentHash, p.contentRef, p.metadataID, dirID,
          ProvOf(p), p.eventID, SourceID(ids, p))
  }

  function MetaNode(ids: Ids, p: Packet): GNode {
    GNode(MetaID(ids, p), p.sourceID, p.sourceSha, LocatorOf(p), Metadata, "", "", "", p.metadataID, "", ProvOf(p), p.eventID, "")
  }

  function LinkEdges(ids: Ids, workspace: string, p: Packet, links: seq<string>): seq<Edge> {
    seq(|links|, i requires 0 <= i < |links| =>
      Link(ids, workspace, FileID(ids, p), ids.node(links[i], "", links[i], External), Hyperlink, ProvOf(p)))
  }

  function PacketEdges(ids: Ids, workspace: string, p: Packet, dirID: string): seq<Edge> {
    var s, f, m, prov := SourceID(ids, p), FileID(ids, p), MetaID(ids, p), ProvOf(p);
    [Link(ids, workspace, s, f, DerivedFrom, prov), Link(ids, workspace, f, m, Reference, prov), Link(ids, workspace, s, m, SourceEdge, prov)]
    + (if dirID != "" then [Link(ids, workspace, dirID, f, Contains, prov), Link(ids, workspace, f, dirID, ParentEdge, prov)] else [])
    + LinkEdges(ids, workspace, p, p.links)
  }

  function AddPacket(ids: Ids, workspace: string, before: Builder, p: Packet): Builder {
    var d := DirOf(LocatorOf(p));
    var b := EnsureDir(ids, workspace, before, d, ProvOf(p));
    var dirID := DirIDOf(b, d);
    Builder(AddNode(AddNode(AddNode(b.nodes, SourceNode(ids, p)), FileNode(ids, p, dirID)), MetaNode(ids, p)),
            b.edges + PacketEdges(ids, workspace, p, dirID), b.dirs)
  }

  function AddPackets(ids: Ids, workspace: string, packets: seq<Packet>): Builder {
    if packets == [] then NewBuilder else
      AddPacket(ids, workspace, AddPackets(ids, workspace, packets[..|packets| - 1]), packets[|packets| - 1])
  }

  // ----- Deduplication and order -----

  predicate HasID(edges: seq<Edge>, id: string) {
    exists i :: 0 <= i < |edges| && edges[i].id == id
  }

  /** The first edge of every id. */
  function Dedup(edges: seq<Edge>): seq<Edge> {
    if edges == [] then [] else
      var before := Dedup(edges[..|edges| - 1]);
      if HasID(before, edges[|edges| - 1].id) then before else before + [edges[|edges| - 1]]
  }

  /** The words of the edge types, which is what they are ordered by. */
  function Word(t: EdgeType): string {
    match t
    case Contains => "contains"
    case DerivedFrom => "derived_from"
    case SourceEdge => "source"
    case ParentEdge => "parent"
    case Hyperlink => "hyperlink"
    case Reference => "reference"
  }

  /** By from, then to, then type. */
  predicate EdgeLess(a: Edge, b: Edge) {
    if a.from == b.from then
      if a.to == b.to then Less(Word(a.edgeType), Word(b.edgeType)) else Less(a.to, b.to)
    else Less(a.from, b.from)
  }

  function InsertEdge(edges: seq<Edge>, e: Edge): seq<Edge> {
    if edges == [] then [e]
    else if EdgeLess(e, edges[0]) then [e] + edges
    else [edges[0]] + InsertEdge(edges[1..], e)
  }

  function SortEdges(edges: seq<Edge>): seq<Edge> {
    if edges == [] then [] else InsertEdge(SortEdges(edges[..|edges| - 1]), edges[|edges| - 1])
  }

  function InsertPacket(packets: seq<Packet>, p: Packet): seq<Packet> {
    if packets == [] then [p]
    else if Less(p.sourceID, packets[0].sourceID) then [p] + packets
    else [packets[0]] + InsertPacket(packets[1..], p)
  }

  function SortPackets(packets: seq<Packet>): seq<Packet> {
    if packets == [] then [] else InsertPacket(SortPackets(packets[..|packets| - 1]), packets[|packets| - 1])
  }

  // ----- The graph -----

  function Seal(ids: Ids, workspace: string, b: Builder): Graph {
    var edges := SortEdges(Dedup(b.edges));
    Graph(workspace, b.nodes, edges, ids.graph(workspace, b.nodes, edges))
  }

  function WorkspaceOf(packets: seq<Packet>): string {
    if packets == [] then "" else packets[0].workspaceID
  }

  /** Build. */
  function BuildGraph(ids: Ids, packets: seq<Packet>): Graph {
    var ordered := SortPackets(packets);
    Seal(ids, WorkspaceOf(ordered), AddPackets(ids, WorkspaceOf(ordered), ordered))
  }

  // ----- Building, as it runs -----

  /** ensureDir, which returns the id of the directory. */
  method MakeDir(ids: Ids, workspace: string, before: Builder, d: string, prov: Provenance) returns (b: Builder, id: string)
    ensures b == EnsureDir(ids, workspace, before, d, prov)
    ensures id == DirIDOf(b, d)
    decreases |d|
  {
    b := before;
    if Top(d) {
      return b, "";
    }
    if d in b.dirs {
      return b, b.dirs[d];
    }
    var p := DirOf(d);
    var parentID := "";
    if !Top(p) && p != d {
      b, parentID := MakeDir(ids, workspace, b, p, prov);
    }
    id := DirID(ids, workspace, d);
    var edges := b.edges;
    if parentID != "" {
      edges := edges + [Link(ids, workspace, parentID, id, Contains, prov)];
    }
    b := Builder(b.nodes[id := GNode(id, "", "", d, Directory, "", "", "", "", parentID, prov, "", "")], edges, b.dirs[d := id]);
  }

  /** One turn of the packet loop. */
  method PutPacket(ids: Ids, workspace: string, before: Builder, p: Packet) returns (b: Builder)
    ensures b == AddPacket(ids, workspace, before, p)
  {
    hide EnsureDir, DirOf, LinkEdges;
    var prov, d := ProvOf(p), DirOf(LocatorOf(p));
    var dirID;
    b, dirID := MakeDir(ids, workspace, before, d, prov);
    var s, f, m := SourceID(ids, p), FileID(ids, p), MetaID(ids, p);
    var nodes := b.nodes;
    if s !in nodes {
      nodes := nodes[s := SourceNode(ids, p)];
    }
    if f !in nodes {
      nodes := nodes[f := FileNode(ids, p, dirID)];
    }
    if m !in nodes {
      nodes := nodes[m := MetaNode(ids, p)];
    }
    var edges := [Link(ids, workspace, s, f, DerivedFrom, prov)];
    edges := edges + [Link(ids, workspace, f, m, Reference, prov)];
    edges := edges + [Link(ids, workspace, s, m, SourceEdge, prov)];
    if dirID != "" {
      edges := edges + [Link(ids, workspace, dirID, f, Contains, prov)];
      edges := edges + [Link(ids, workspace, f, dirID, ParentEdge, prov)];
    }
    var links := PutLinks(ids, workspace, p);
    edges := edges + links;
    assert edges == PacketEdges(ids, workspace, p, dirID);
    b := Builder(nodes, b.edges + edges, b.dirs);
  }

  /** The hyperlink loop. */
  method PutLinks(ids: Ids, workspace: string, p: Packet) returns (edges: seq<Edge>)
    ensures edges == LinkEdges(ids, workspace, p, p.links)
  {
    edges := [];
    var i := 0;
    while i < |p.links|
      invariant 0 <= i <= |p.links| && edges == LinkEdges(ids, workspace, p, p.links[..i])
    {
      edges := edges + [Link(ids, workspace, FileID(ids, p), ids.node(p.links[i], "", p.links[i], External), Hyperlink, ProvOf(p))];
      i := i + 1;
    }
    assert p.links[..i] == p.links;
  }

  /** Build: sort, one pass over the packets, deduplicate, sort the edges, hash. */
  method Build(ids: Ids, packets: seq<Packet>) returns (g: Graph)
    ensures g == BuildGraph(ids, packets)
  {
    hide AddPacket, InsertPacket;
    var ordered := SortPackets(packets);
    var workspace := "";
    if |ordered| > 0 {
      workspace := ordered[0].workspaceID;
    }
    var b := NewBuilder;
    var i := 0;
    while i < |ordered|
      invariant 0 <= i <= |ordered| && b == AddPackets(ids, workspace, ordered[..i])
    {
      assert ordered[..i + 1][..i] == ordered[..i];
      b := PutPacket(ids, workspace, b, ordered[i]);
      i := i + 1;
    }
    assert ordered[..i] == ordered;
    var edges := UniqueEdges(b.edges);
    edges := SortEdges(edges);
    g := Graph(workspace, b.nodes, edges, ids.graph(workspace, b.nodes, edges));
  }

  /** The dedup loop, with the ids seen so far. */
  method UniqueEdges(edges: seq<Edge>) returns (kept: seq<Edge>)
    ensures kept == Dedup(edges)
  {
    kept := [];
    var seen: set<string> := {};
    var i := 0;
    while i < |edges|
      invariant 0 <= i <= |edges| && kept == Dedup(edges[..i])
      invariant forall id :: id in seen <==> HasID(kept, id)
    {
      assert edges[..i + 1][..i] == edges[..i];
      ghost var before := kept;
      if edges[i].id !in seen {
        seen := seen + {edges[i].id};
        kept := kept + [edges[i]];
        HasIDAppend(before, edges[i]);
      }
      i := i + 1;
    }
    assert edges[..i] == edges;
  }

  lemma {:induction false} HasIDAppend(edges: seq<Edge>, e: Edge)
    ensures forall id :: HasID(edges + [e], id) <==> HasID(edges, id) || id == e.id
  {
    var all := edges + [e];
    forall id ensures HasID(all, id) <==> HasID(edges, id) || id == e.id {
      assert all[|edges|] == e;
      if HasID(edges, id) {
        var i :| 0 <= i < |edges| && edges[i].id == id;
        assert all[i].id == id;
      }
      if HasID(all, id) {
        var i :| 0 <= i < |all| && all[i].id == id;
        assert i < |edges| ==> edges[i].id == id;
      }
    }
  }
}
