/**
 * Exactly which workspaces survive a trip through an envelope: those in which no file path is
 * a directory prefix of another and no name on the way to a file or to a live directory is one
 * the reader refuses or takes for a file marker.
 */
module EnvelopeTheory {
  import opened Wrappers
  import opened Bytes
  import opened Order
  import opened Text
  import opened Workspaces
  import opened Envelopes

  type Parts = seq<string>

  function PartsOf(p: string): Parts {
    Split(p, '/')
  }

  // ----- Looking a file up the way the walk finds it -----

  function LocateNode(node: Node, r: Parts): Option<string>
    decreases |r|
  {
    if !node.Branch? then None
    else if FILE in node.children then (if r == [] && node.children[FILE].Leaf? then Some(node.children[FILE].text) else None)
    else if r == [] || r[0] !in node.children then None
    else LocateNode(node.children[r[0]], r[1..])
  }

  function Locate(tree: map<string, Node>, r: Parts): Option<string> {
    if r == [] || r[0] !in tree then None else LocateNode(tree[r[0]], r[1..])
  }

  /** The text of a file reads back. */
  predicate Readable(c: Codecs, t: MetaText, text: string) {
    var meta := t.read(text);
    meta.Some? && DecodeContent(c, meta.value.content, meta.value.encoding).Some?
  }

  /** The paths in P below name k. */
  function Tail(P: set<Parts>, k: string): set<Parts> {
    set r | r in P && r != [] && r[0] == k :: r[1..]
  }

  /** The walk accepts this node, except perhaps at and below the paths in P. */
  ghost predicate SoundNode(c: Codecs, t: MetaText, name: string, node: Node, P: set<Parts>)
    decreases node
  {
    ValidName(name) && node.Branch? &&
    if FILE in node.children then node.children[FILE].Leaf? && Readable(c, t, node.children[FILE].text)
    else forall k :: k in node.children ==> [k] in P || SoundNode(c, t, k, node.children[k], Tail(P, k))
  }

  ghost predicate Sound(c: Codecs, t: MetaText, tree: map<string, Node>, P: set<Parts>) {
    forall k :: k in tree ==> [k] in P || SoundNode(c, t, k, tree[k], Tail(P, k))
  }

  // ----- The walk succeeds exactly on sound trees -----

  lemma {:induction false} TailOfNone(k: string)
    ensures Tail({}, k) == {}
  {
  }

  lemma {:induction false} ReadableExactly(c: Codecs, t: MetaText, text: string, at: string, st: Walked)
    ensures ReadFile(c, t, text, at, st).Some? <==> Readable(c, t, text)
  {
    hide DecodeContent, CheckPath, CheckSize, CheckHash;
  }

  lemma {:induction false} WalkSome(c: Codecs, t: MetaText, name: string, node: Node, at: string, st: Walked)
    ensures Walk(c, t, name, node, at, st).Some? <==> SoundNode(c, t, name, node, {})
    decreases node, 1, 0
  {
    hide ValidName, ReadFile, Readable, SortedKeys;
    if ValidName(name) && node.Branch? {
      if FILE in node.children {
        if node.children[FILE].Leaf? {
          ReadableExactly(c, t, node.children[FILE].text, at, st);
        }
      } else {
        WalkChildrenSome(c, t, node, SortedKeys(node.children.Keys), at, st.(dirCount := st.dirCount + 1));
        forall k ensures Tail({}, k) == {} { TailOfNone(k); }
      }
    }
  }

  lemma {:induction false} WalkChildrenSome(c: Codecs, t: MetaText, node: Node, keys: seq<string>, at: string, st: Walked)
    requires node.Branch? && forall k :: k in keys ==> k in node.children
    ensures WalkChildren(c, t, node, keys, at, st).Some? <==> forall k :: k in keys ==> SoundNode(c, t, k, node.children[k], {})
    decreases node, 0, |keys|
  {
    hide Walk, SoundNode;
    if keys != [] {
      assert keys == [keys[0]] + keys[1..];
      WalkSome(c, t, keys[0], node.children[keys[0]], PathTo(at, keys[0]), st);
      var next := Walk(c, t, keys[0], node.children[keys[0]], PathTo(at, keys[0]), st);
      if next.Some? {
        WalkChildrenSome(c, t, node, keys[1..], at, next.value);
      }
    }
  }

  lemma {:induction false} WalkTopSome(c: Codecs, t: MetaText, tree: map<string, Node>, keys: seq<string>, st: Walked)
    requires forall k :: k in keys ==> k in tree
    ensures WalkTop(c, t, tree, keys, st).Some? <==> forall k :: k in keys ==> SoundNode(c, t, k, tree[k], {})
    decreases |keys|
  {
    hide Walk, SoundNode;
    if keys != [] {
      assert keys == [keys[0]] + keys[1..];
      WalkSome(c, t, keys[0], tree[keys[0]], keys[0], st);
      var next := Walk(c, t, keys[0], tree[keys[0]], keys[0], st);
      if next.Some? {
        WalkTopSome(c, t, tree, keys[1..], next.value);
      }
    }
  }

  lemma {:induction false} SoundTop(c: Codecs, t: MetaText, tree: map<string, Node>, st: Walked)
    ensures WalkTop(c, t, tree, SortedKeys(tree.Keys), st).Some? <==> Sound(c, t, tree, {})
  {
    WalkTopSome(c, t, tree, SortedKeys(tree.Keys), st);
    hide SoundNode, WalkTop, SortedKeys;
    forall k ensures Tail({}, k) == {} { TailOfNone(k); }
  }

  // ----- What the walk gathers -----

  /** The text found for a whole path q by a node that stands at path pre. */
  function FoundAt(node: Node, pre: Parts, q: string): Option<string> {
    if pre <= PartsOf(q) then LocateNode(node, PartsOf(q)[|pre|..]) else None
  }

  function AtNode(node: Node, pre: Parts): string -> Option<string> {
    q => FoundAt(node, pre, q)
  }

  function InNode(node: Node, keys: seq<string>, pre: Parts): string -> Option<string>
    requires node.Branch? && forall k :: k in keys ==> k in node.children
  {
    q => FoundIn(node, keys, pre, q)
  }

  /** The text found for q below a node at pre, through one of the names in keys. */
  function FoundIn(node: Node, keys: seq<string>, pre: Parts, q: string): Option<string>
    requires node.Branch? && forall k :: k in keys ==> k in node.children
  {
    var parts := PartsOf(q);
    if pre <= parts && |pre| < |parts| && parts[|pre|] in keys then LocateNode(node.children[parts[|pre|]], parts[|pre| + 1..]) else None
  }

  /** The text is that of a file that declares this path and its own size and hash. */
  predicate Honest(c: Codecs, t: MetaText, text: string, q: string) {
    Readable(c, t, text) &&
    var meta := t.read(text).value;
    var data := DecodeContent(c, meta.content, meta.encoding).value;
    meta.path == q && SafePath(q) && meta.size == |data| && EqualFold(meta.sha256, c.sha(data))
  }

  function FileOf(c: Codecs, t: MetaText, text: string, q: string): File
    requires Readable(c, t, text)
  {
    var meta := t.read(text).value;
    Declared(c, meta, DecodeContent(c, meta.content, meta.encoding).value, q)
  }

  /** w is st with exactly the files of found added, and no new issue. */
  ghost predicate Gathered(c: Codecs, t: MetaText, st: Walked, w: Walked, found: string -> Option<string>) {
    && (forall q :: q in w.files <==> q in st.files || found(q).Some?)
    && (forall q :: q in st.files ==> q in w.files && w.files[q] == st.files[q])
    && (forall q :: q !in st.files && found(q).Some? ==>
          Readable(c, t, found(q).value) && q in w.files && w.files[q] == FileOf(c, t, found(q).value, q))
    && w.issues == st.issues
    && w.fileCount + |st.files| == st.fileCount + |w.files|
  }

  ghost predicate AllHonest(c: Codecs, t: MetaText, found: string -> Option<string>) {
    forall q :: found(q).Some? ==> Honest(c, t, found(q).value, q)
  }

  /** Nothing gathered so far is found again. */
  ghost predicate Apart(st: Walked, found: string -> Option<string>) {
    forall q :: q in st.files ==> found(q).None?
  }

  lemma {:induction false} ReadHonest(c: Codecs, t: MetaText, text: string, at: string, st: Walked)
    requires Honest(c, t, text, at) && at !in st.files
    ensures ReadFile(c, t, text, at, st) ==
            Some(st.(files := st.files[at := FileOf(c, t, text, at)], fileCount := st.fileCount + 1))
  {
    hide EqualFold, SafePath, DecodeContent;
    assert st.issues + [] + [] + [] == st.issues;
    assert at != "" by { SafeNotEmpty(at); }
  }

  lemma {:induction false} SafeNotEmpty(p: string)
    requires SafePath(p)
    ensures p != ""
  {
  }

  lemma {:induction false} JoinAppend(pre: Parts, k: string)
    requires pre != []
    ensures Join(pre + [k], '/') == PathTo(Join(pre, '/'), k)
  {
    if |pre| == 1 {
      assert (pre + [k])[1..] == [k];
    } else {
      assert (pre + [k])[1..] == pre[1..] + [k];
      JoinAppend(pre[1..], k);
    }
  }

  /** The file branch gathers the one file at pre. */
  lemma {:induction false} FileGathered(c: Codecs, t: MetaText, node: Node, pre: Parts, st: Walked)
    requires node.Branch? && FILE in node.children && node.children[FILE].Leaf? && pre != [] && Pieces(pre, '/')
    requires AllHonest(c, t, AtNode(node, pre)) && Apart(st, AtNode(node, pre))
    requires ReadFile(c, t, node.children[FILE].text, Join(pre, '/'), st).Some?
    ensures Gathered(c, t, st, ReadFile(c, t, node.children[FILE].text, Join(pre, '/'), st).value, AtNode(node, pre))
  {
    hide ReadFile, Honest, FileOf, Readable, Split, Join;
    var at, text, found := Join(pre, '/'), node.children[FILE].text, AtNode(node, pre);
    SplitJoin(pre, '/');
    assert PartsOf(at)[|pre|..] == [];
    assert found(at) == Some(text);
    assert Honest(c, t, text, at);
    ReadHonest(c, t, text, at, st);
    HonestReads(c, t, text, at);
    forall q | found(q).Some? ensures q == at {
      FoundHere(node, pre, q);
    }
  }

  lemma {:induction false} FoundHere(node: Node, pre: Parts, q: string)
    requires node.Branch? && FILE in node.children && pre != [] && FoundAt(node, pre, q).Some?
    ensures q == Join(pre, '/')
  {
    assert PartsOf(q)[|pre|..] == [];
    assert PartsOf(q) == pre;
    JoinSplit(q, '/');
  }

  lemma {:induction false} HonestReads(c: Codecs, t: MetaText, text: string, q: string)
    requires Honest(c, t, text, q)
    ensures Readable(c, t, text)
  {
  }

  // ----- Gathering from children -----

  lemma {:induction false} InOne(node: Node, keys: seq<string>, pre: Parts, q: string)
    requires node.Branch? && keys != [] && forall k :: k in keys ==> k in node.children
    requires keys[0] !in keys[1..]
    ensures FoundIn(node, keys, pre, q) ==
            if FoundAt(node.children[keys[0]], pre + [keys[0]], q).Some? then FoundAt(node.children[keys[0]], pre + [keys[0]], q)
            else FoundIn(node, keys[1..], pre, q)
    ensures FoundAt(node.children[keys[0]], pre + [keys[0]], q).Some? ==> FoundIn(node, keys[1..], pre, q).None?
  {
    hide Split, LocateNode;
    assert keys == [keys[0]] + keys[1..];
    var parts, n := PartsOf(q), |pre|;
    if pre <= parts && n < |parts| {
      assert pre + [keys[0]] <= parts <==> parts[n] == keys[0];
      if parts[n] == keys[0] {
        assert parts[|pre + [keys[0]]|..] == parts[n + 1..];
      }
    } else {
      assert !(pre + [keys[0]] <= parts);
    }
  }

  /** Gathering through one name and then through the others is gathering through all. */
  lemma {:induction false} GatheredBoth(c: Codecs, t: MetaText, st: Walked, mid: Walked, w: Walked, first: string -> Option<string>,
                                        rest: string -> Option<string>, all: string -> Option<string>)
    requires Gathered(c, t, st, mid, first) && Gathered(c, t, mid, w, rest)
    requires forall q :: all(q) == if first(q).Some? then first(q) else rest(q)
    requires forall q :: first(q).Some? ==> rest(q).None?
    ensures Gathered(c, t, st, w, all)
  {
    hide FileOf, Readable;
    forall q ensures q in w.files <==> q in st.files || all(q).Some? {
      assert q in w.files <==> q in mid.files || rest(q).Some?;
      assert q in mid.files <==> q in st.files || first(q).Some?;
    }
    forall q | q !in st.files && all(q).Some?
      ensures Readable(c, t, all(q).value) && q in w.files && w.files[q] == FileOf(c, t, all(q).value, q)
    {
      if first(q).Some? {
        assert q in mid.files;
      } else {
        assert q !in mid.files;
      }
    }
  }

  lemma {:induction false} ChildrenSplit(c: Codecs, t: MetaText, node: Node, keys: seq<string>, pre: Parts, st: Walked)
    requires node.Branch? && keys != [] && (forall k :: k in keys ==> k in node.children) && keys[0] !in keys[1..]
    requires AllHonest(c, t, InNode(node, keys, pre)) && Apart(st, InNode(node, keys, pre))
    ensures var first, rest := AtNode(node.children[keys[0]], pre + [keys[0]]), InNode(node, keys[1..], pre);
            && (forall q :: InNode(node, keys, pre)(q) == if first(q).Some? then first(q) else rest(q))
            && (forall q :: first(q).Some? ==> rest(q).None?)
            && AllHonest(c, t, first) && AllHonest(c, t, rest) && Apart(st, first) && Apart(st, rest)
  {
    hide FoundAt, FoundIn, Honest;
    var first, rest, all := AtNode(node.children[keys[0]], pre + [keys[0]]), InNode(node, keys[1..], pre), InNode(node, keys, pre);
    forall q ensures all(q) == (if first(q).Some? then first(q) else rest(q)) && (first(q).Some? ==> rest(q).None?) {
      InOne(node, keys, pre, q);
    }
  }

  /** What was gathered through the first name is apart from what the others hold. */
  lemma {:induction false} ApartFromRest(c: Codecs, t: MetaText, st: Walked, mid: Walked, first: string -> Option<string>, rest: string -> Option<string>)
    requires Gathered(c, t, st, mid, first) && Apart(st, rest) && forall q :: first(q).Some? ==> rest(q).None?
    ensures Apart(mid, rest)
  {
    hide FileOf, Readable;
  }

  lemma {:induction false} NothingGathered(c: Codecs, t: MetaText, st: Walked, found: string -> Option<string>)
    requires forall q :: found(q).None?
    ensures Gathered(c, t, st, st, found)
  {
    hide FileOf, Readable;
  }

  lemma {:induction false} WalkFinds(c: Codecs, t: MetaText, name: string, node: Node, pre: Parts, st: Walked)
    requires Walk(c, t, name, node, Join(pre + [name], '/'), st).Some? && Pieces(pre, '/')
    requires AllHonest(c, t, AtNode(node, pre + [name])) && Apart(st, AtNode(node, pre + [name]))
    ensures Gathered(c, t, st, Walk(c, t, name, node, Join(pre + [name], '/'), st).value, AtNode(node, pre + [name]))
    decreases node, 1, 0
  {
    hide ReadFile, Gathered, AllHonest, Apart, SortedKeys;
    var here := pre + [name];
    assert Pieces(here, '/');
    if FILE in node.children {
      FileGathered(c, t, node, here, st);
    } else {
      var keys, counted := SortedKeys(node.children.Keys), st.(dirCount := st.dirCount + 1);
      SameFound(node, keys, here);
      CountedSame(c, t, st, AtNode(node, here), InNode(node, keys, here));
      WalkChildrenFinds(c, t, node, keys, here, counted);
      CountedGathered(c, t, st, WalkChildren(c, t, node, keys, Join(here, '/'), counted).value, AtNode(node, here), InNode(node, keys, here));
    }
  }

  /** For a directory, finding at the node is finding through all its names. */
  lemma {:induction false} SameFound(node: Node, keys: seq<string>, pre: Parts)
    requires node.Branch? && FILE !in node.children && forall k :: k in keys <==> k in node.children
    ensures forall q :: AtNode(node, pre)(q) == InNode(node, keys, pre)(q)
  {
    hide Split;
    forall q ensures FoundAt(node, pre, q) == FoundIn(node, keys, pre, q) {
      var parts := PartsOf(q);
      if pre <= parts && |pre| < |parts| {
        assert parts[|pre|..][0] == parts[|pre|] && parts[|pre|..][1..] == parts[|pre| + 1..];
      }
    }
  }

  lemma {:induction false} CountedSame(c: Codecs, t: MetaText, st: Walked, f: string -> Option<string>, g: string -> Option<string>)
    requires AllHonest(c, t, f) && Apart(st, f) && forall q :: f(q) == g(q)
    ensures AllHonest(c, t, g) && Apart(st.(dirCount := st.dirCount + 1), g)
  {
    hide Honest;
  }

  lemma {:induction false} CountedGathered(c: Codecs, t: MetaText, st: Walked, w: Walked, f: string -> Option<string>, g: string -> Option<string>)
    requires Gathered(c, t, st.(dirCount := st.dirCount + 1), w, g) && forall q :: f(q) == g(q)
    ensures Gathered(c, t, st, w, f)
  {
    hide FileOf, Readable;
  }

  lemma {:induction false} WalkChildrenFinds(c: Codecs, t: MetaText, node: Node, keys: seq<string>, pre: Parts, st: Walked)
    requires node.Branch? && (forall k :: k in keys ==> k in node.children) && Increasing(keys) && pre != [] && Pieces(pre, '/')
    requires WalkChildren(c, t, node, keys, Join(pre, '/'), st).Some?
    requires AllHonest(c, t, InNode(node, keys, pre)) && Apart(st, InNode(node, keys, pre))
    ensures Gathered(c, t, st, WalkChildren(c, t, node, keys, Join(pre, '/'), st).value, InNode(node, keys, pre))
    decreases node, 0, |keys|
  {
    hide Walk, Gathered, AllHonest, Apart, FoundAt, FoundIn;
    if keys == [] {
      NothingIn(node, pre);
      NothingGathered(c, t, st, InNode(node, keys, pre));
    } else {
      HeadNotInTail(keys);
      var k := keys[0];
      var first, rest := AtNode(node.children[k], pre + [k]), InNode(node, keys[1..], pre);
      JoinAppend(pre, k);
      ChildrenSplit(c, t, node, keys, pre, st);
      WalkFinds(c, t, k, node.children[k], pre, st);
      var mid := Walk(c, t, k, node.children[k], PathTo(Join(pre, '/'), k), st).value;
      ApartFromRest(c, t, st, mid, first, rest);
      WalkChildrenFinds(c, t, node, keys[1..], pre, mid);
      GatheredBoth(c, t, st, mid, WalkChildren(c, t, node, keys, Join(pre, '/'), st).value, first, rest, InNode(node, keys, pre));
    }
  }

  lemma {:induction false} NothingIn(node: Node, pre: Parts)
    requires node.Branch?
    ensures forall q :: InNode(node, [], pre)(q).None?
  {
  }

  /** The text found for q in the tree. */
  function InTree(tree: map<string, Node>): string -> Option<string> {
    q => Locate(tree, PartsOf(q))
  }

  lemma {:induction false} WalkTopFinds(c: Codecs, t: MetaText, tree: map<string, Node>, keys: seq<string>, st: Walked)
    requires (forall k :: k in keys ==> k in tree) && Increasing(keys) && WalkTop(c, t, tree, keys, st).Some?
    requires AllHonest(c, t, InNode(Branch(tree), keys, [])) && Apart(st, InNode(Branch(tree), keys, []))
    ensures Gathered(c, t, st, WalkTop(c, t, tree, keys, st).value, InNode(Branch(tree), keys, []))
    decreases |keys|
  {
    hide Walk, Gathered, AllHonest, Apart, FoundAt, FoundIn;
    var node := Branch(tree);
    if keys == [] {
      NothingIn(node, []);
      NothingGathered(c, t, st, InNode(node, keys, []));
    } else {
      HeadNotInTail(keys);
      var k := keys[0];
      var first, rest := AtNode(tree[k], [] + [k]), InNode(node, keys[1..], []);
      ChildrenSplit(c, t, node, keys, [], st);
      assert Join([] + [k], '/') == k;
      WalkFinds(c, t, k, tree[k], [], st);
      var mid := Walk(c, t, k, tree[k], k, st).value;
      ApartFromRest(c, t, st, mid, first, rest);
      WalkTopFinds(c, t, tree, keys[1..], mid);
      GatheredBoth(c, t, st, mid, WalkTop(c, t, tree, keys, st).value, first, rest, InNode(node, keys, []));
    }
  }

  /** A successful walk of an honest tree gathers exactly the files that can be located in it. */
  lemma {:induction false} TreeFinds(c: Codecs, t: MetaText, tree: map<string, Node>)
    requires WalkTop(c, t, tree, SortedKeys(tree.Keys), Nothing).Some? && AllHonest(c, t, InTree(tree))
    ensures Gathered(c, t, Nothing, WalkTop(c, t, tree, SortedKeys(tree.Keys), Nothing).value, InTree(tree))
  {
    var keys := SortedKeys(tree.Keys);
    assert forall q :: InTree(tree)(q) == InNode(Branch(tree), keys, [])(q);
    hide Gathered, WalkTop, LocateNode, Honest, SortedKeys;
    WalkTopFinds(c, t, tree, keys, Nothing);
    GatheredSame(c, t, WalkTop(c, t, tree, keys, Nothing).value, InTree(tree), InNode(Branch(tree), keys, []));
  }

  lemma {:induction false} GatheredSame(c: Codecs, t: MetaText, w: Walked, f: string -> Option<string>, g: string -> Option<string>)
    requires Gathered(c, t, Nothing, w, g) && forall q :: f(q) == g(q)
    ensures Gathered(c, t, Nothing, w, f)
  {
    hide FileOf, Readable;
  }
}
