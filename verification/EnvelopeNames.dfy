/** Which envelopes are read at all, said of the nodes that the walk comes to. */
module EnvelopeNames {
  import opened Wrappers
  import opened Order
  import opened Workspaces
  import opened Envelopes
  import opened EnvelopeTrees
  import opened EnvelopeTheory

  /** The node that these names lead to from the top; nothing is below a file. */
  function NodeAt(tree: map<string, Node>, names: seq<string>): Option<Node>
    decreases |names|
  {
    if names == [] || names[0] !in tree then None
    else if |names| == 1 then Some(tree[names[0]])
    else if IsFolder(tree[names[0]]) then NodeAt(tree[names[0]].children, names[1..])
    else None
  }

  predicate IsFolder(node: Node) {
    node.Branch? && "__file__.json" !in node.children
  }

  /** A name that stays one segment of a path on every system. */
  predicate IsSegment(name: string) {
    name !in {"", ".", ".."} && forall c :: c in name ==> c !in {'/', '\\', 0 as char}
  }

  /** A map; if it marks a file, the text under the mark is metadata whose content decodes. */
  predicate IsNode(c: Codecs, t: MetaText, node: Node) {
    node.Branch? &&
    ("__file__.json" in node.children ==>
       var leaf := node.children["__file__.json"];
       leaf.Leaf? && t.read(leaf.text).Some? && DecodeContent(c, t.read(leaf.text).value.content, t.read(leaf.text).value.encoding).Some?)
  }

  ghost predicate AllBelow(c: Codecs, t: MetaText, tree: map<string, Node>) {
    forall names :: NodeAt(tree, names).Some? ==> IsSegment(names[|names| - 1]) && IsNode(c, t, NodeAt(tree, names).value)
  }

  /** The part of the tree at and below one name. */
  ghost predicate Fine(c: Codecs, t: MetaText, name: string, node: Node) {
    IsSegment(name) && IsNode(c, t, node) && (IsFolder(node) ==> AllBelow(c, t, node.children))
  }

  lemma {:induction false} AllBelowParts(c: Codecs, t: MetaText, tree: map<string, Node>)
    ensures AllBelow(c, t, tree) <==> forall k :: k in tree ==> Fine(c, t, k, tree[k])
  {
    hide IsSegment, IsNode;
    if AllBelow(c, t, tree) {
      forall k | k in tree ensures Fine(c, t, k, tree[k]) {
        assert NodeAt(tree, [k]) == Some(tree[k]);
        if IsFolder(tree[k]) {
          forall names | NodeAt(tree[k].children, names).Some?
            ensures IsSegment(names[|names| - 1]) && IsNode(c, t, NodeAt(tree[k].children, names).value)
          {
            assert ([k] + names)[1..] == names;
            assert NodeAt(tree, [k] + names) == NodeAt(tree[k].children, names);
          }
        }
      }
    }
    if forall k :: k in tree ==> Fine(c, t, k, tree[k]) {
      forall names | NodeAt(tree, names).Some? ensures IsSegment(names[|names| - 1]) && IsNode(c, t, NodeAt(tree, names).value) {
        assert Fine(c, t, names[0], tree[names[0]]);
        if |names| > 1 {
          assert NodeAt(tree[names[0]].children, names[1..]).Some?;
        }
      }
    }
  }

  lemma {:induction false} SoundNodeExactly(c: Codecs, t: MetaText, name: string, node: Node)
    ensures SoundNode(c, t, name, node, {}) <==> Fine(c, t, name, node)
    decreases node
  {
    hide AllBelow;
    NameExactly(name);
    if IsFolder(node) {
      AllBelowParts(c, t, node.children);
      forall k | k in node.children ensures SoundNode(c, t, k, node.children[k], Tail({}, k)) <==> Fine(c, t, k, node.children[k]) {
        TailOfNone(k);
        SoundNodeExactly(c, t, k, node.children[k]);
      }
    }
    hide IsSegment, ValidName, Fine, Tail;
  }

  lemma {:induction false} NameExactly(name: string)
    ensures ValidName(name) <==> IsSegment(name)
  {
  }

  /**
   * An envelope is read exactly if it is of a supported kind, its tree is not empty, every name
   * that the walk comes to is a segment, every node a map, and every file's metadata and content decode.
   */
  lemma {:induction false} ReadExactly(c: Codecs, t: MetaText, env: Envelope)
    ensures FromEnvelope(c, t, env).Some? <==> env.supported && env.tree != map[] && AllBelow(c, t, env.tree)
  {
    hide AllBelow, Fine, WalkTop, SortedKeys, CheckSource, CheckManifest, Tail;
    SoundTop(c, t, env.tree, Nothing);
    AllBelowParts(c, t, env.tree);
    forall k | k in env.tree ensures SoundNode(c, t, k, env.tree[k], Tail({}, k)) <==> Fine(c, t, k, env.tree[k]) {
      TailOfNone(k);
      SoundNodeExactly(c, t, k, env.tree[k]);
    }
  }
}
