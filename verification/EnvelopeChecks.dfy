/**
 * What reading any envelope says about each file: which node it comes from, when it is verified,
 * and which issue each failed check leaves, for honest and for altered envelopes alike.
 */
module EnvelopeChecks {
  import opened Wrappers
  import opened Bytes
  import opened Order
  import opened Text
  import opened Workspaces
  import opened Envelopes

  // ----- The files of a tree -----

  /** Below the node at path at, there is a file node at path x with this text. */
  ghost predicate Holds(node: Node, at: string, x: string, text: string)
    decreases node
  {
    node.Branch? &&
    if FILE in node.children then node.children[FILE] == Leaf(text) && x == at
    else exists k :: k in node.children && Holds(node.children[k], PathTo(at, k), x, text)
  }

  /** The tree has a file node at path x with this text. */
  ghost predicate HasFile(tree: map<string, Node>, x: string, text: string) {
    exists k :: k in tree && Holds(tree[k], k, x, text)
  }

  // ----- What one file must be -----

  /** The metadata and bytes of a text, if it reads. */
  function Content(c: Codecs, t: MetaText, text: string): Option<(Meta, seq<Byte>)> {
    var meta := t.read(text);
    if meta.None? then None else
      var data := DecodeContent(c, meta.value.content, meta.value.encoding);
      if data.None? then None else Some((meta.value, data.value))
  }

  predicate PathFine(m: Meta) {
    m.path == "" || SafePath(m.path)
  }

  predicate SizeFine(m: Meta, data: seq<Byte>) {
    m.size == |data|
  }

  predicate HashFine(c: Codecs, m: Meta, data: seq<Byte>) {
    m.sha256 == "" || LowerAll(m.sha256) == LowerAll(c.sha(data))
  }

  /** Where the file ends up: at its declared path if that is one, else at its own. */
  function Place(m: Meta, x: string): string {
    if m.path != "" && SafePath(m.path) then m.path else x
  }

  /** The file that this content at node path x must give: nothing but what the text says and the bytes are. */
  ghost predicate Truthful(c: Codecs, m: Meta, data: seq<Byte>, x: string, f: File) {
    && f.path == Place(m, x) && f.data == data && f.size == |data| && f.sha256 == c.sha(data)
    && f.declared == m.sha256 && f.encoding == m.encoding && f.kind == m.kind && f.language == m.language && f.mediaType == m.mediaType
    && (f.verified <==> PathFine(m) && SizeFine(m, data) && HashFine(c, m, data))
  }

  /** The issues that this content leaves. */
  ghost function Causes(c: Codecs, m: Meta, data: seq<Byte>, x: string): set<Issue> {
    (if !PathFine(m) then {PathRejected(x)} else {})
    + (if m.path != "" && SafePath(m.path) && m.path != x then {PathsDiffer(x)} else {})
    + (if !SizeFine(m, data) then {SizeDiffers(Place(m, x))} else {})
    + (if !HashFine(c, m, data) then {HashDiffers(Place(m, x))} else {})
  }

  ghost function IssuesOf(w: Walked): set<Issue> {
    set i | i in w.issues
  }

  /** The three checks one after the other: the file they leave, and the issues. */
  ghost function Checked(c: Codecs, m: Meta, data: seq<Byte>, x: string): (File, seq<Issue>) {
    var (f1, i1) := CheckPath(Declared(c, m, data, x), m, x);
    var (f2, i2) := CheckSize(f1, m);
    var (f, i3) := CheckHash(f2, m);
    (f, i1 + i2 + i3)
  }

  lemma {:induction false} ChecksTell(c: Codecs, m: Meta, data: seq<Byte>, x: string)
    ensures var (f, issues) := Checked(c, m, data, x);
            Truthful(c, m, data, x, f) && (set i | i in issues) == Causes(c, m, data, x)
  {
    hide SafePath, LowerAll;
  }

  lemma {:induction false} ReadChecks(c: Codecs, t: MetaText, text: string, x: string, st: Walked)
    ensures ReadFile(c, t, text, x, st) ==
            if Content(c, t, text).None? then None
            else
              var (m, data) := Content(c, t, text).value;
              var (f, found) := Checked(c, m, data, x);
              var issues := st.issues + found;
              Some(if f.path in st.files then st.(issues := issues + [DuplicatePath(x)], fileCount := st.fileCount + 1)
                   else st.(files := st.files[f.path := f], issues := issues, fileCount := st.fileCount + 1))
  {
    hide DecodeContent, CheckPath, CheckSize, CheckHash;
    if Content(c, t, text).Some? {
      var m, data := Content(c, t, text).value.0, Content(c, t, text).value.1;
      var p := CheckPath(Declared(c, m, data, x), m, x);
      var s := CheckSize(p.0, m);
      var h := CheckHash(s.0, m);
      assert st.issues + p.1 + s.1 + h.1 == st.issues + (p.1 + s.1 + h.1);
    }
  }

  /** One file read: it is kept at its place, or the place was taken; and exactly its issues are added. */
  lemma {:induction false} OneFile(c: Codecs, t: MetaText, text: string, x: string, st: Walked)
    ensures ReadFile(c, t, text, x, st).Some? <==> Content(c, t, text).Some?
    ensures Content(c, t, text).Some? ==>
              var (m, data), w := Content(c, t, text).value, ReadFile(c, t, text, x, st).value;
              var q := Place(m, x);
              && w.fileCount == st.fileCount + 1 && w.dirCount == st.dirCount && st.issues <= w.issues
              && (if q in st.files then
                    w.files == st.files && IssuesOf(w) == IssuesOf(st) + Causes(c, m, data, x) + {DuplicatePath(x)}
                  else
                    q in w.files && w.files == st.files[q := w.files[q]] && Truthful(c, m, data, x, w.files[q])
                    && IssuesOf(w) == IssuesOf(st) + Causes(c, m, data, x))
  {
    ReadChecks(c, t, text, x, st);
    hide ReadFile, Content, Checked, Truthful, Causes;
    if Content(c, t, text).Some? {
      var m, data := Content(c, t, text).value.0, Content(c, t, text).value.1;
      ChecksTell(c, m, data, x);
      assert Checked(c, m, data, x).0.path == Place(m, x) by { PlaceOf(c, m, data, x, Checked(c, m, data, x).0); }
    }
  }

  lemma {:induction false} PlaceOf(c: Codecs, m: Meta, data: seq<Byte>, x: string, f: File)
    requires Truthful(c, m, data, x, f)
    ensures f.path == Place(m, x)
  {
    hide SafePath;
  }

  // ----- The walk -----

  /** The file nodes a walk has passed. */
  type Passed = (string, string) -> bool

  /** What a walk past these file nodes has made of its state. */
  ghost predicate Told(c: Codecs, t: MetaText, st: Walked, w: Walked, F: Passed) {
    && (forall q :: q in st.files ==> q in w.files && w.files[q] == st.files[q])
    && (forall x, s :: F(x, s) ==> Content(c, t, s).Some? && Place(Content(c, t, s).value.0, x) in w.files)
    && (forall q :: q in w.files && q !in st.files ==> Sourced(c, t, F, q, w.files[q]))
    && (forall i :: i in IssuesOf(w) ==> i in IssuesOf(st) || Explained(c, t, F, i))
    && IssuesOf(st) <= IssuesOf(w)
    && (forall x, s :: F(x, s) ==> Causes(c, Content(c, t, s).value.0, Content(c, t, s).value.1, x) <= IssuesOf(w))
  }

  /** The file is what one of these nodes says, at that node's place. */
  ghost predicate Sourced(c: Codecs, t: MetaText, F: Passed, q: string, f: File) {
    exists x, s :: F(x, s) && Content(c, t, s).Some? &&
      Place(Content(c, t, s).value.0, x) == q && Truthful(c, Content(c, t, s).value.0, Content(c, t, s).value.1, x, f)
  }

  /** The issue is one that one of these nodes causes, or says that its place was taken. */
  ghost predicate Explained(c: Codecs, t: MetaText, F: Passed, i: Issue) {
    exists x, s :: F(x, s) && Content(c, t, s).Some? && (i in Causes(c, Content(c, t, s).value.0, Content(c, t, s).value.1, x) || i == DuplicatePath(x))
  }

  /** Every node's file is kept, or is reported as a duplicate. */
  ghost predicate KeptOrReported(c: Codecs, t: MetaText, w: Walked, F: Passed) {
    forall x, s :: F(x, s) && Content(c, t, s).Some? ==>
      var (m, data) := Content(c, t, s).value;
      DuplicatePath(x) in w.issues || (Place(m, x) in w.files && Truthful(c, m, data, x, w.files[Place(m, x)]))
  }

  lemma {:induction false} ToldNothing(c: Codecs, t: MetaText, st: Walked, F: Passed)
    requires forall x, s :: !F(x, s)
    ensures Told(c, t, st, st, F) && KeptOrReported(c, t, st, F)
  {
    hide Causes, Truthful;
  }

  /** Two walks one after the other. */
  lemma {:induction false} ToldBoth(c: Codecs, t: MetaText, st: Walked, mid: Walked, w: Walked, F: Passed, G: Passed, H: Passed)
    requires Told(c, t, st, mid, F) && Told(c, t, mid, w, G)
    requires forall x, s :: H(x, s) <==> F(x, s) || G(x, s)
    ensures Told(c, t, st, w, H)
  {
    hide Causes, Truthful, Place, Content, IssuesOf, Sourced, Explained;
    forall q | q in w.files && q !in st.files ensures Sourced(c, t, H, q, w.files[q]) {
      if q in mid.files {
        SourceWider(c, t, F, H, q, w.files[q]);
      } else {
        SourceWider(c, t, G, H, q, w.files[q]);
      }
    }
    forall i | i in IssuesOf(w) && i !in IssuesOf(st) ensures Explained(c, t, H, i) {
      if i in IssuesOf(mid) {
        ExplainedWider(c, t, F, H, i);
      } else {
        ExplainedWider(c, t, G, H, i);
      }
    }
  }

  lemma {:induction false} SourceWider(c: Codecs, t: MetaText, F: Passed, H: Passed, q: string, f: File)
    requires Sourced(c, t, F, q, f) && forall x, s :: F(x, s) ==> H(x, s)
    ensures Sourced(c, t, H, q, f)
  {
    hide Truthful, Place, Content;
  }

  lemma {:induction false} ExplainedWider(c: Codecs, t: MetaText, F: Passed, H: Passed, i: Issue)
    requires Explained(c, t, F, i) && forall x, s :: F(x, s) ==> H(x, s)
    ensures Explained(c, t, H, i)
  {
    hide Causes, Content;
  }

  lemma {:induction false} ReportedBoth(c: Codecs, t: MetaText, mid: Walked, w: Walked, F: Passed, G: Passed, H: Passed)
    requires KeptOrReported(c, t, mid, F) && KeptOrReported(c, t, w, G) && forall x, s :: H(x, s) <==> F(x, s) || G(x, s)
    requires (forall q :: q in mid.files ==> q in w.files && w.files[q] == mid.files[q]) && IssuesOf(mid) <= IssuesOf(w)
    ensures KeptOrReported(c, t, w, H)
  {
    hide Causes, Truthful, Place, Content;
    assert forall i :: i in mid.issues ==> i in IssuesOf(mid);
  }

  /** Counting a directory changes no file and no issue. */
  lemma {:induction false} ToldCounted(c: Codecs, t: MetaText, st: Walked, w: Walked, n: nat, F: Passed)
    requires Told(c, t, st.(dirCount := n), w, F)
    ensures Told(c, t, st, w, F)
  {
    hide Causes, Truthful, Place, Content, Sourced, Explained;
    assert IssuesOf(st.(dirCount := n)) == IssuesOf(st);
  }

  function Only(at: string, text: string): Passed {
    (x, s) => x == at && s == text
  }

  lemma {:induction false} ToldFile(c: Codecs, t: MetaText, text: string, at: string, st: Walked)
    requires ReadFile(c, t, text, at, st).Some?
    ensures Told(c, t, st, ReadFile(c, t, text, at, st).value, Only(at, text))
    ensures KeptOrReported(c, t, ReadFile(c, t, text, at, st).value, Only(at, text))
  {
    OneFile(c, t, text, at, st);
    hide ReadFile, Causes, Truthful, Place, Content;
    var w := ReadFile(c, t, text, at, st).value;
    assert Only(at, text)(at, text);
    if Place(Content(c, t, text).value.0, at) in st.files {
      assert DuplicatePath(at) in IssuesOf(w);
    }
  }

  ghost function At(node: Node, at: string): Passed {
    (x, s) => Holds(node, at, x, s)
  }

  ghost function Through(children: map<string, Node>, keys: seq<string>, at: string): Passed
    requires forall k :: k in keys ==> k in children
  {
    (x, s) => exists k :: k in keys && Holds(children[k], PathTo(at, k), x, s)
  }

  ghost function OnTop(tree: map<string, Node>, keys: seq<string>): Passed
    requires forall k :: k in keys ==> k in tree
  {
    (x, s) => exists k :: k in keys && Holds(tree[k], k, x, s)
  }

  lemma {:induction false} AtFile(node: Node, at: string)
    requires node.Branch? && FILE in node.children && node.children[FILE].Leaf?
    ensures forall x, s :: At(node, at)(x, s) <==> Only(at, node.children[FILE].text)(x, s)
  {
  }

  lemma {:induction false} AtDirectory(node: Node, keys: seq<string>, at: string)
    requires node.Branch? && FILE !in node.children && forall k :: k in keys <==> k in node.children
    ensures forall x, s :: At(node, at)(x, s) <==> Through(node.children, keys, at)(x, s)
  {
    forall x, s ensures At(node, at)(x, s) <==> Through(node.children, keys, at)(x, s) {
      assert Holds(node, at, x, s) <==> exists k :: k in node.children && Holds(node.children[k], PathTo(at, k), x, s);
    }
  }

  lemma {:induction false} ToldSame(c: Codecs, t: MetaText, st: Walked, w: Walked, F: Passed, G: Passed)
    requires Told(c, t, st, w, F) && KeptOrReported(c, t, w, F) && forall x, s :: F(x, s) <==> G(x, s)
    ensures Told(c, t, st, w, G) && KeptOrReported(c, t, w, G)
  {
    hide Causes, Truthful, Place, Content, IssuesOf;
  }

  lemma {:induction false} WalkTold(c: Codecs, t: MetaText, name: string, node: Node, at: string, st: Walked)
    requires Walk(c, t, name, node, at, st).Some?
    ensures Told(c, t, st, Walk(c, t, name, node, at, st).value, At(node, at))
    ensures KeptOrReported(c, t, Walk(c, t, name, node, at, st).value, At(node, at))
    decreases node, 1, 0
  {
    hide ReadFile, Told, KeptOrReported, SortedKeys, ValidName, Holds;
    if FILE in node.children {
      ToldFile(c, t, node.children[FILE].text, at, st);
      AtFile(node, at);
      ToldSame(c, t, st, Walk(c, t, name, node, at, st).value, Only(at, node.children[FILE].text), At(node, at));
    } else {
      var keys, n := SortedKeys(node.children.Keys), st.dirCount + 1;
      WalkChildrenTold(c, t, node, keys, at, st.(dirCount := n));
      AtDirectory(node, keys, at);
      var w := WalkChildren(c, t, node, keys, at, st.(dirCount := n)).value;
      ToldCounted(c, t, st, w, n, Through(node.children, keys, at));
      ToldSame(c, t, st, w, Through(node.children, keys, at), At(node, at));
    }
  }

  lemma {:induction false} FirstThenRest(children: map<string, Node>, keys: seq<string>, at: string)
    requires keys != [] && forall k :: k in keys ==> k in children
    ensures forall x, s :: Through(children, keys, at)(x, s) <==>
              At(children[keys[0]], PathTo(at, keys[0]))(x, s) || Through(children, keys[1..], at)(x, s)
  {
    hide Holds;
    assert keys == [keys[0]] + keys[1..];
  }

  lemma {:induction false} WalkChildrenTold(c: Codecs, t: MetaText, node: Node, keys: seq<string>, at: string, st: Walked)
    requires node.Branch? && (forall k :: k in keys ==> k in node.children) && WalkChildren(c, t, node, keys, at, st).Some?
    ensures Told(c, t, st, WalkChildren(c, t, node, keys, at, st).value, Through(node.children, keys, at))
    ensures KeptOrReported(c, t, WalkChildren(c, t, node, keys, at, st).value, Through(node.children, keys, at))
    decreases node, 0, |keys|
  {
    hide Walk, Told, KeptOrReported, Holds;
    if keys == [] {
      ToldNothing(c, t, st, Through(node.children, keys, at));
    } else {
      var first, mid := node.children[keys[0]], Walk(c, t, keys[0], node.children[keys[0]], PathTo(at, keys[0]), st).value;
      WalkTold(c, t, keys[0], first, PathTo(at, keys[0]), st);
      WalkChildrenTold(c, t, node, keys[1..], at, mid);
      FirstThenRest(node.children, keys, at);
      var w := WalkChildren(c, t, node, keys, at, st).value;
      Combine(c, t, st, mid, w, At(first, PathTo(at, keys[0])), Through(node.children, keys[1..], at), Through(node.children, keys, at));
    }
  }

  lemma {:induction false} Combine(c: Codecs, t: MetaText, st: Walked, mid: Walked, w: Walked, F: Passed, G: Passed, H: Passed)
    requires Told(c, t, st, mid, F) && Told(c, t, mid, w, G) && KeptOrReported(c, t, mid, F) && KeptOrReported(c, t, w, G)
    requires forall x, s :: H(x, s) <==> F(x, s) || G(x, s)
    ensures Told(c, t, st, w, H) && KeptOrReported(c, t, w, H)
  {
    ToldBoth(c, t, st, mid, w, F, G, H);
    hide Causes, Truthful, Place, Content, IssuesOf, Sourced, Explained, KeptOrReported;
    ReportedBoth(c, t, mid, w, F, G, H);
  }

  lemma {:induction false} TopFirstThenRest(tree: map<string, Node>, keys: seq<string>)
    requires keys != [] && forall k :: k in keys ==> k in tree
    ensures forall x, s :: OnTop(tree, keys)(x, s) <==> At(tree[keys[0]], keys[0])(x, s) || OnTop(tree, keys[1..])(x, s)
  {
    hide Holds;
    assert keys == [keys[0]] + keys[1..];
  }

  lemma {:induction false} WalkTopTold(c: Codecs, t: MetaText, tree: map<string, Node>, keys: seq<string>, st: Walked)
    requires (forall k :: k in keys ==> k in tree) && WalkTop(c, t, tree, keys, st).Some?
    ensures Told(c, t, st, WalkTop(c, t, tree, keys, st).value, OnTop(tree, keys))
    ensures KeptOrReported(c, t, WalkTop(c, t, tree, keys, st).value, OnTop(tree, keys))
    decreases |keys|
  {
    hide Walk, Told, KeptOrReported, Holds;
    if keys == [] {
      ToldNothing(c, t, st, OnTop(tree, keys));
    } else {
      var mid := Walk(c, t, keys[0], tree[keys[0]], keys[0], st).value;
      WalkTold(c, t, keys[0], tree[keys[0]], keys[0], st);
      WalkTopTold(c, t, tree, keys[1..], mid);
      TopFirstThenRest(tree, keys);
      Combine(c, t, st, mid, WalkTop(c, t, tree, keys, st).value, At(tree[keys[0]], keys[0]), OnTop(tree, keys[1..]), OnTop(tree, keys));
    }
  }

  // ----- Declared counts -----

  /** The source's declared counts leave files alone, and each that is off leaves its issue. */
  lemma {:induction false} SourceExactly(st: Walked, s: Source)
    ensures var w := CheckSource(st, s);
            && w.files == st.files && w.fileCount == st.fileCount && w.dirCount == st.dirCount
            && IssuesOf(w) == IssuesOf(st)
                 + (if s.fileCount > 0 && s.fileCount != st.fileCount then {FileCountDiffers} else {})
                 + (if s.directoryCount > 0 && s.directoryCount != st.dirCount then {DirectoryCountDiffers} else {})
                 + (if s.unsafeCount > 0 then {UnsafeEntries} else {})
  {
  }

  // ----- The manifest -----

  /** The item names the path. */
  predicate Names(item: Option<Meta>, q: string) {
    item.Some? && item.value.path == q && q != ""
  }

  predicate SizeAgrees(item: Meta, f: File) {
    item.size == 0 || item.size == f.size
  }

  predicate HashAgrees(item: Meta, f: File) {
    item.sha256 == "" || LowerAll(item.sha256) == LowerAll(f.sha256)
  }

  predicate Agrees(item: Meta, f: File) {
    SizeAgrees(item, f) && HashAgrees(item, f)
  }

  /** The issues that the i-th item leaves. */
  ghost function ItemIssues(files: map<string, File>, item: Option<Meta>, i: nat): set<Issue> {
    if item.None? || item.value.path == "" then {BadItem(i)}
    else if item.value.path !in files then {NotInTree(i)}
    else
      var f := files[item.value.path];
      (if SizeAgrees(item.value, f) then {} else {ManifestSize(i)}) + (if HashAgrees(item.value, f) then {} else {ManifestHash(i)})
  }

  /** All items that name the path agree with the file. */
  ghost predicate AllAgree(items: seq<Option<Meta>>, q: string, f: File) {
    forall i :: 0 <= i < |items| && Names(items[i], q) ==> Agrees(items[i].value, f)
  }

  ghost predicate Mentioned(items: seq<Option<Meta>>, q: string) {
    exists i :: 0 <= i < |items| && Names(items[i], q)
  }

  /** The files after the items: the same, verified if they were and all items agree. */
  ghost predicate Judged(before: map<string, File>, after: map<string, File>, items: seq<Option<Meta>>) {
    before.Keys == after.Keys &&
    forall q :: q in before ==> after[q] == before[q].(verified := before[q].verified && AllAgree(items, q, before[q]))
  }

  lemma {:induction false} ItemJudges(st: Walked, item: Option<Meta>, i: nat)
    ensures var w := CheckItem(st, item, i);
            && w.files.Keys == st.files.Keys && w.fileCount == st.fileCount && w.dirCount == st.dirCount
            && IssuesOf(w) == IssuesOf(st) + ItemIssues(st.files, item, i)
            && (forall q :: q in st.files ==>
                  w.files[q] == st.files[q].(verified := st.files[q].verified && (Names(item, q) ==> Agrees(item.value, st.files[q]))))
  {
    hide LowerAll;
  }

  lemma {:induction false} ItemsJudge(st: Walked, items: seq<Option<Meta>>)
    ensures var w := CheckItems(st, items);
            && Judged(st.files, w.files, items) && w.fileCount == st.fileCount && w.dirCount == st.dirCount
            && IssuesOf(w) == IssuesOf(st) + (set i, x | 0 <= i < |items| && x in ItemIssues(st.files, items[i], i) :: x)
    decreases |items|
  {
    hide LowerAll, CheckItem, Agrees, ItemIssues;
    if items != [] {
      var m := |items| - 1;
      var init, mid := items[..m], CheckItems(st, items[..m]);
      ItemsJudge(st, init);
      ItemJudges(mid, items[m], m);
      assert forall i :: 0 <= i < m ==> init[i] == items[i];
      forall q | q in st.files
        ensures CheckItems(st, items).files[q] == st.files[q].(verified := st.files[q].verified && AllAgree(items, q, st.files[q]))
      {
        SameJudgement(items[m], st.files[q], mid.files[q]);
        assert AllAgree(items, q, st.files[q]) <==>
                 AllAgree(init, q, st.files[q]) && (Names(items[m], q) ==> Agrees(items[m].value, st.files[q]));
      }
      SameItemIssues(st.files, mid.files, items[m], m);
      IssuesStep(st.files, items, m);
    }
  }

  lemma {:induction false} SameJudgement(item: Option<Meta>, f: File, g: File)
    requires g == f.(verified := g.verified)
    ensures item.Some? ==> (Agrees(item.value, f) <==> Agrees(item.value, g))
  {
    hide LowerAll;
  }

  lemma {:induction false} SameItemIssues(a: map<string, File>, b: map<string, File>, item: Option<Meta>, i: nat)
    requires a.Keys == b.Keys && forall q :: q in a ==> b[q] == a[q].(verified := b[q].verified)
    ensures ItemIssues(a, item, i) == ItemIssues(b, item, i)
  {
    hide LowerAll;
  }

  lemma {:induction false} IssuesStep(files: map<string, File>, items: seq<Option<Meta>>, m: nat)
    requires m < |items|
    ensures (set i, x | 0 <= i < m + 1 && x in ItemIssues(files, items[i], i) :: x)
         == (set i, x | 0 <= i < m && x in ItemIssues(files, items[..m][i], i) :: x) + ItemIssues(files, items[m], m)
  {
    hide ItemIssues;
    var a, b := (set i, x | 0 <= i < m + 1 && x in ItemIssues(files, items[i], i) :: x),
                (set i, x | 0 <= i < m && x in ItemIssues(files, items[..m][i], i) :: x) + ItemIssues(files, items[m], m);
    forall x ensures x in a <==> x in b {
      if x in a {
        var i :| 0 <= i < m + 1 && x in ItemIssues(files, items[i], i);
        assert i < m ==> items[..m][i] == items[i];
      }
      if i :| 0 <= i < m && x in ItemIssues(files, items[..m][i], i) {
        assert items[..m][i] == items[i];
      }
    }
  }

  lemma {:induction false} MissingExactly(paths: seq<string>, seen: set<string>)
    ensures forall i :: i in Missing(paths, seen) <==> exists q :: q in paths && q !in seen && i == NotInManifest(q)
    decreases |paths|
  {
    if paths != [] {
      var m := |paths| - 1;
      MissingExactly(paths[..m], seen);
      assert paths == paths[..m] + [paths[m]];
    }
  }

  lemma {:induction false} SeenExactly(items: seq<Option<Meta>>, q: string)
    ensures q in Seen(items) <==> Mentioned(items, q)
  {
  }

  /** The whole manifest: which files stay verified, and exactly which issues it adds. */
  lemma {:induction false} ManifestExactly(st: Walked, items: seq<Option<Meta>>)
    ensures var w := CheckManifest(st, items);
            && Judged(st.files, w.files, items) && w.fileCount == st.fileCount && w.dirCount == st.dirCount
            && IssuesOf(w) == IssuesOf(st) + (set i, x | 0 <= i < |items| && x in ItemIssues(st.files, items[i], i) :: x)
                              + (set q | q in st.files && !Mentioned(items, q) :: NotInManifest(q))
  {
    ItemsJudge(st, items);
    hide CheckItems, SortedKeys, ItemIssues, Missing, Seen, AllAgree, Mentioned;
    var checked := CheckItems(st, items);
    MissingExactly(SortedKeys(checked.files.Keys), Seen(items));
    forall q ensures q in Seen(items) <==> Mentioned(items, q) { SeenExactly(items, q); }
    assert checked.files.Keys == st.files.Keys;
  }

  // ----- Any envelope -----

  /** The file is what this text at this node path says, and verified exactly if every check passes, the manifest's too. */
  ghost predicate TrueFile(c: Codecs, t: MetaText, items: seq<Option<Meta>>, x: string, s: string, q: string, f: File) {
    Content(c, t, s).Some? &&
    var (m, data) := Content(c, t, s).value;
    && q == f.path == Place(m, x) && f.data == data && f.size == |data| && f.sha256 == c.sha(data) && f.declared == m.sha256
    && (f.verified <==> PathFine(m) && SizeFine(m, data) && HashFine(c, m, data) && AllAgree(items, q, f))
  }

  /** The walk of the tree behind a reading, and what the counts and the manifest leave of it. */
  ghost function TreeWalk(c: Codecs, t: MetaText, env: Envelope): Option<Walked> {
    WalkTop(c, t, env.tree, SortedKeys(env.tree.Keys), Nothing)
  }

  ghost function Files(tree: map<string, Node>): Passed {
    (x, s) => HasFile(tree, x, s)
  }

  lemma {:induction false} ReadParts(c: Codecs, t: MetaText, env: Envelope)
    requires FromEnvelope(c, t, env).Some?
    ensures TreeWalk(c, t, env).Some?
    ensures var walked, w := TreeWalk(c, t, env).value, FromEnvelope(c, t, env).value;
            && Told(c, t, Nothing, walked, Files(env.tree)) && KeptOrReported(c, t, walked, Files(env.tree))
            && Judged(walked.files, w.files, env.manifest) && IssuesOf(walked) <= IssuesOf(w)
            && w.fileCount == walked.fileCount && w.dirCount == walked.dirCount
  {
    hide WalkTop, CheckManifest, CheckSource, SortedKeys, Told, KeptOrReported, Holds, AllAgree;
    var keys := SortedKeys(env.tree.Keys);
    var walked := TreeWalk(c, t, env).value;
    WalkTopTold(c, t, env.tree, keys, Nothing);
    assert forall x, s :: OnTop(env.tree, keys)(x, s) <==> Files(env.tree)(x, s);
    ToldSame(c, t, Nothing, walked, OnTop(env.tree, keys), Files(env.tree));
    SourceExactly(walked, env.source);
    ManifestExactly(CheckSource(walked, env.source), env.manifest);
    NoItems(walked.files);
  }

  /** Every file that is read comes from a file node, and is what that node's text says. */
  lemma {:induction false} FilesAreTrue(c: Codecs, t: MetaText, env: Envelope, q: string)
    requires FromEnvelope(c, t, env).Some? && q in FromEnvelope(c, t, env).value.files
    ensures exists x, s :: HasFile(env.tree, x, s) && TrueFile(c, t, env.manifest, x, s, q, FromEnvelope(c, t, env).value.files[q])
  {
    hide FromEnvelope, TreeWalk, Told, KeptOrReported, Holds, Truthful, Place, Content, TrueFile, Judged, HasFile;
    ReadParts(c, t, env);
    var walked, w := TreeWalk(c, t, env).value, FromEnvelope(c, t, env).value;
    JudgedKeys(walked.files, w.files, env.manifest);
    SourceOf(c, t, walked, Files(env.tree), q);
    var x, s :| Files(env.tree)(x, s) && Content(c, t, s).Some? && Place(Content(c, t, s).value.0, x) == q &&
      Truthful(c, Content(c, t, s).value.0, Content(c, t, s).value.1, x, walked.files[q]);
    JudgedIsTrue(c, t, walked.files, w.files, env.manifest, x, s, q);
    assert HasFile(env.tree, x, s);
  }

  lemma {:induction false} JudgedKeys(before: map<string, File>, after: map<string, File>, items: seq<Option<Meta>>)
    requires Judged(before, after, items)
    ensures forall q :: q in before <==> q in after
  {
    assert forall q :: q in before.Keys <==> q in after.Keys;
  }

  /** Every file node reads, leaves its issues, and its file is kept as it says or reported as a duplicate. */
  lemma {:induction false} NodesAreRead(c: Codecs, t: MetaText, env: Envelope, x: string, s: string)
    requires FromEnvelope(c, t, env).Some? && HasFile(env.tree, x, s)
    ensures var w := FromEnvelope(c, t, env).value;
            Content(c, t, s).Some? &&
            var (m, data) := Content(c, t, s).value;
            && Causes(c, m, data, x) <= IssuesOf(w)
            && Place(m, x) in w.files
            && (DuplicatePath(x) in w.issues || TrueFile(c, t, env.manifest, x, s, Place(m, x), w.files[Place(m, x)]))
  {
    hide FromEnvelope, TreeWalk, Told, KeptOrReported, Holds, Truthful, Place, Content, TrueFile, Judged, HasFile, Causes, IssuesOf;
    ReadParts(c, t, env);
    var walked, w := TreeWalk(c, t, env).value, FromEnvelope(c, t, env).value;
    JudgedKeys(walked.files, w.files, env.manifest);
    NodeIsTold(c, t, walked, Files(env.tree), x, s);
    Listed(walked, DuplicatePath(x));
    Listed(w, DuplicatePath(x));
    var q := Place(Content(c, t, s).value.0, x);
    if DuplicatePath(x) !in walked.issues {
      JudgedIsTrue(c, t, walked.files, w.files, env.manifest, x, s, q);
    }
  }

  /**
   * Reading any envelope: every file comes from a file node of the tree and is verified exactly
   * if its declared path is none or safe, its declared size is that of its bytes, its declared
   * hash is none or theirs, and every manifest item of its path agrees; every file node reads, and
   * its file is kept or reported as a duplicate; and each check that fails has left its issue.
   */
  lemma {:induction false} ReadTellsTheTruth(c: Codecs, t: MetaText, env: Envelope)
    requires FromEnvelope(c, t, env).Some?
    ensures var w := FromEnvelope(c, t, env).value;
            && (forall q :: q in w.files ==> exists x, s :: HasFile(env.tree, x, s) && TrueFile(c, t, env.manifest, x, s, q, w.files[q]))
            && (forall x, s :: HasFile(env.tree, x, s) ==>
                  Content(c, t, s).Some? &&
                  var (m, data) := Content(c, t, s).value;
                  && Causes(c, m, data, x) <= IssuesOf(w)
                  && Place(m, x) in w.files
                  && (DuplicatePath(x) in w.issues || TrueFile(c, t, env.manifest, x, s, Place(m, x), w.files[Place(m, x)])))
  {
    hide FromEnvelope, HasFile, TrueFile, Content, Causes, Place, IssuesOf;
    var w := FromEnvelope(c, t, env).value;
    forall q | q in w.files ensures exists x, s :: HasFile(env.tree, x, s) && TrueFile(c, t, env.manifest, x, s, q, w.files[q]) {
      FilesAreTrue(c, t, env, q);
    }
    forall x, s | HasFile(env.tree, x, s)
      ensures Content(c, t, s).Some? &&
              var (m, data) := Content(c, t, s).value;
              && Causes(c, m, data, x) <= IssuesOf(w)
              && Place(m, x) in w.files
              && (DuplicatePath(x) in w.issues || TrueFile(c, t, env.manifest, x, s, Place(m, x), w.files[Place(m, x)]))
    {
      NodesAreRead(c, t, env, x, s);
    }
  }

  // ----- How much there is -----

  /** How many file nodes and how many directories there are below and including a node. */
  ghost function CountNode(node: Node): (nat, nat)
    decreases node, 1, 0
  {
    if !node.Branch? then (0, 0)
    else if FILE in node.children then (1, 0)
    else
      var (files, dirs) := CountThrough(node, SortedKeys(node.children.Keys));
      (files, dirs + 1)
  }

  ghost function CountThrough(node: Node, keys: seq<string>): (nat, nat)
    requires node.Branch? && forall k :: k in keys ==> k in node.children
    decreases node, 0, |keys|
  {
    if keys == [] then (0, 0) else
      var (f, d) := CountNode(node.children[keys[0]]);
      var (files, dirs) := CountThrough(node, keys[1..]);
      (f + files, d + dirs)
  }

  ghost function CountTop(tree: map<string, Node>, keys: seq<string>): (nat, nat)
    requires forall k :: k in keys ==> k in tree
    decreases |keys|
  {
    if keys == [] then (0, 0) else
      var (f, d) := CountNode(tree[keys[0]]);
      var (files, dirs) := CountTop(tree, keys[1..]);
      (f + files, d + dirs)
  }

  lemma {:induction false} WalkCounts(c: Codecs, t: MetaText, name: string, node: Node, at: string, st: Walked)
    requires Walk(c, t, name, node, at, st).Some?
    ensures var w := Walk(c, t, name, node, at, st).value;
            w.fileCount == st.fileCount + CountNode(node).0 && w.dirCount == st.dirCount + CountNode(node).1
    decreases node, 1, 0
  {
    hide ReadFile, SortedKeys, ValidName;
    if FILE in node.children {
      OneFile(c, t, node.children[FILE].text, at, st);
    } else {
      WalkChildrenCounts(c, t, node, SortedKeys(node.children.Keys), at, st.(dirCount := st.dirCount + 1));
    }
  }

  lemma {:induction false} WalkChildrenCounts(c: Codecs, t: MetaText, node: Node, keys: seq<string>, at: string, st: Walked)
    requires node.Branch? && (forall k :: k in keys ==> k in node.children) && WalkChildren(c, t, node, keys, at, st).Some?
    ensures var w := WalkChildren(c, t, node, keys, at, st).value;
            w.fileCount == st.fileCount + CountThrough(node, keys).0 && w.dirCount == st.dirCount + CountThrough(node, keys).1
    decreases node, 0, |keys|
  {
    hide Walk, CountNode;
    if keys != [] {
      WalkCounts(c, t, keys[0], node.children[keys[0]], PathTo(at, keys[0]), st);
      WalkChildrenCounts(c, t, node, keys[1..], at, Walk(c, t, keys[0], node.children[keys[0]], PathTo(at, keys[0]), st).value);
    }
  }

  lemma {:induction false} WalkTopCounts(c: Codecs, t: MetaText, tree: map<string, Node>, keys: seq<string>, st: Walked)
    requires (forall k :: k in keys ==> k in tree) && WalkTop(c, t, tree, keys, st).Some?
    ensures var w := WalkTop(c, t, tree, keys, st).value;
            w.fileCount == st.fileCount + CountTop(tree, keys).0 && w.dirCount == st.dirCount + CountTop(tree, keys).1
    decreases |keys|
  {
    hide Walk, CountNode;
    if keys != [] {
      WalkCounts(c, t, keys[0], tree[keys[0]], keys[0], st);
      WalkTopCounts(c, t, tree, keys[1..], Walk(c, t, keys[0], tree[keys[0]], keys[0], st).value);
    }
  }

  /** The counts of a reading are those of the tree, and a declared count that is off is reported exactly then. */
  lemma {:induction false} CountsAreTrue(c: Codecs, t: MetaText, env: Envelope)
    requires FromEnvelope(c, t, env).Some?
    ensures var w, (files, dirs) := FromEnvelope(c, t, env).value, CountTop(env.tree, SortedKeys(env.tree.Keys));
            && w.fileCount == files && w.dirCount == dirs
            && (FileCountDiffers in IssuesOf(w) <==> env.source.fileCount > 0 && env.source.fileCount != files)
            && (DirectoryCountDiffers in IssuesOf(w) <==> env.source.directoryCount > 0 && env.source.directoryCount != dirs)
            && (UnsafeEntries in IssuesOf(w) <==> env.source.unsafeCount > 0)
  {
    hide WalkTop, CheckManifest, CheckSource, SortedKeys, Told, KeptOrReported, Holds, AllAgree, Judged, ItemIssues, Mentioned, CountTop;
    var keys := SortedKeys(env.tree.Keys);
    var walked := TreeWalk(c, t, env).value;
    WalkTopCounts(c, t, env.tree, keys, Nothing);
    WalkTopTold(c, t, env.tree, keys, Nothing);
    NoCountIssue(c, t, walked, OnTop(env.tree, keys));
    var counted := CheckSource(walked, env.source);
    SourceExactly(walked, env.source);
    ManifestExactly(counted, env.manifest);
    ManifestIssue(counted, env.manifest, FileCountDiffers);
    ManifestIssue(counted, env.manifest, DirectoryCountDiffers);
    ManifestIssue(counted, env.manifest, UnsafeEntries);
  }

  lemma {:induction false} NoCountIssue(c: Codecs, t: MetaText, w: Walked, F: Passed)
    requires Told(c, t, Nothing, w, F)
    ensures forall i :: i in IssuesOf(w) ==> !i.FileCountDiffers? && !i.DirectoryCountDiffers? && !i.UnsafeEntries?
  {
    hide Told, Content, Causes, IssuesOf;
    forall i | i in IssuesOf(w) ensures !i.FileCountDiffers? && !i.DirectoryCountDiffers? && !i.UnsafeEntries? {
      IssueOf(c, t, w, F, i);
      var x, s :| F(x, s) && Content(c, t, s).Some? &&
        (i in Causes(c, Content(c, t, s).value.0, Content(c, t, s).value.1, x) || i == DuplicatePath(x));
      CauseKinds(c, Content(c, t, s).value.0, Content(c, t, s).value.1, x);
    }
  }

  lemma {:induction false} CauseKinds(c: Codecs, m: Meta, data: seq<Byte>, x: string)
    ensures forall i :: i in Causes(c, m, data, x) ==> !i.FileCountDiffers? && !i.DirectoryCountDiffers? && !i.UnsafeEntries?
  {
    hide PathFine, SizeFine, HashFine, SafePath;
  }

  lemma {:induction false} NoItems(files: map<string, File>)
    ensures Judged(files, files, [])
  {
  }

  lemma {:induction false} SourceOf(c: Codecs, t: MetaText, w: Walked, F: Passed, q: string)
    requires Told(c, t, Nothing, w, F) && q in w.files
    ensures exists x, s :: F(x, s) && Content(c, t, s).Some? && Place(Content(c, t, s).value.0, x) == q &&
              Truthful(c, Content(c, t, s).value.0, Content(c, t, s).value.1, x, w.files[q])
  {
    hide Truthful, Place, Content, Causes;
    assert Sourced(c, t, F, q, w.files[q]);
  }

  lemma {:induction false} NodeIsTold(c: Codecs, t: MetaText, w: Walked, F: Passed, x: string, s: string)
    requires Told(c, t, Nothing, w, F) && KeptOrReported(c, t, w, F) && F(x, s)
    ensures Content(c, t, s).Some? &&
            var (m, data) := Content(c, t, s).value;
            Causes(c, m, data, x) <= IssuesOf(w) && Place(m, x) in w.files
            && (DuplicatePath(x) in w.issues || Truthful(c, m, data, x, w.files[Place(m, x)]))
  {
    hide Truthful, Place, Content, Causes, Sourced, Explained;
  }

  lemma {:induction false} JudgedIsTrue(c: Codecs, t: MetaText, before: map<string, File>, after: map<string, File>, items: seq<Option<Meta>>,
                                        x: string, s: string, q: string)
    requires Judged(before, after, items) && q in before && Content(c, t, s).Some?
    requires Place(Content(c, t, s).value.0, x) == q && Truthful(c, Content(c, t, s).value.0, Content(c, t, s).value.1, x, before[q])
    ensures q in after && TrueFile(c, t, items, x, s, q, after[q])
  {
    hide Place, Content, PathFine, SizeFine, HashFine;
    assert q in after.Keys;
    AgreeSame(items, q, before[q], after[q]);
  }

  lemma {:induction false} AgreeSame(items: seq<Option<Meta>>, q: string, f: File, g: File)
    requires g == f.(verified := g.verified)
    ensures AllAgree(items, q, f) <==> AllAgree(items, q, g)
  {
    hide LowerAll;
  }

  // ----- No issue without a cause -----

  /** An issue of any envelope is a node's, a declared count's, or the manifest's. */
  lemma {:induction false} IssuesHaveCauses(c: Codecs, t: MetaText, env: Envelope, i: Issue)
    requires FromEnvelope(c, t, env).Some? && i in FromEnvelope(c, t, env).value.issues
    ensures || (exists x, s :: HasFile(env.tree, x, s) && Content(c, t, s).Some? &&
                  (i in Causes(c, Content(c, t, s).value.0, Content(c, t, s).value.1, x) || i == DuplicatePath(x)))
            || (i.FileCountDiffers? && env.source.fileCount > 0) || (i.DirectoryCountDiffers? && env.source.directoryCount > 0)
            || (i.UnsafeEntries? && env.source.unsafeCount > 0)
            || (env.manifest != [] && (i.NotInManifest? || i.BadItem? || i.NotInTree? || i.ManifestSize? || i.ManifestHash?))
  {
    hide WalkTop, CheckManifest, CheckSource, SortedKeys, Told, KeptOrReported, Holds, Content, Causes, IssuesOf;
    var keys := SortedKeys(env.tree.Keys);
    var walked, w := WalkTop(c, t, env.tree, keys, Nothing).value, FromEnvelope(c, t, env).value;
    assert i in IssuesOf(w) by { Listed(w, i); }
    WalkTopTold(c, t, env.tree, keys, Nothing);
    if i in IssuesOf(walked) {
      IssueOf(c, t, walked, OnTop(env.tree, keys), i);
      var x, s :| OnTop(env.tree, keys)(x, s) && Content(c, t, s).Some? &&
        (i in Causes(c, Content(c, t, s).value.0, Content(c, t, s).value.1, x) || i == DuplicatePath(x));
      assert HasFile(env.tree, x, s);
    } else {
      CountIssue(walked, env.source, i);
      ManifestIssue(CheckSource(walked, env.source), env.manifest, i);
    }
  }

  lemma {:induction false} Listed(w: Walked, i: Issue)
    ensures i in IssuesOf(w) <==> i in w.issues
  {
  }

  lemma {:induction false} CountIssue(st: Walked, s: Source, i: Issue)
    ensures i in IssuesOf(CheckSource(st, s)) && i !in IssuesOf(st) ==>
              (i.FileCountDiffers? && s.fileCount > 0) || (i.DirectoryCountDiffers? && s.directoryCount > 0) || (i.UnsafeEntries? && s.unsafeCount > 0)
  {
    hide CheckSource, IssuesOf;
    SourceExactly(st, s);
  }

  lemma {:induction false} ManifestIssue(st: Walked, items: seq<Option<Meta>>, i: Issue)
    ensures i in IssuesOf(CheckManifest(st, items)) && i !in IssuesOf(st) ==>
              i.NotInManifest? || i.BadItem? || i.NotInTree? || i.ManifestSize? || i.ManifestHash?
  {
    hide CheckManifest, IssuesOf, Judged, Mentioned;
    ManifestExactly(st, items);
  }

  lemma {:induction false} IssueOf(c: Codecs, t: MetaText, w: Walked, F: Passed, i: Issue)
    requires Told(c, t, Nothing, w, F) && i in IssuesOf(w)
    ensures exists x, s :: F(x, s) && Content(c, t, s).Some? &&
              (i in Causes(c, Content(c, t, s).value.0, Content(c, t, s).value.1, x) || i == DuplicatePath(x))
  {
    hide Truthful, Place, Content, Causes;
    assert Explained(c, t, F, i);
  }
}
