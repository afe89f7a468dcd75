/**
 * The flattened envelope: a tree of nested maps in which a file is a map with one text
 * member, and a manifest beside it.  Writing a workspace into one, and reading one back.
 */
module Envelopes {
  import opened Wrappers
  import opened Bytes
  import opened Order
  import opened Text
  import opened Workspaces
  import Transition

  const FILE := "__file__.json"

  datatype Meta = Meta(
    content: string, encoding: string, kind: string, language: string, mediaType: string, path: string, sha256: string, size: int)

  /** How a file's metadata is written as JSON text and read back. */
  datatype MetaText = MetaText(write: Meta -> string, read: string -> Option<Meta>)

  ghost predicate GoodMeta(t: MetaText) {
    forall m :: t.read(t.write(m)) == Some(m)
  }

  /** A value in the tree: text, a map, or anything else. */
  datatype Node = Leaf(text: string) | Other | Branch(children: map<string, Node>)

  /** The counts an envelope declares about its source. */
  datatype Source = Source(fileCount: int, directoryCount: int, unsafeCount: int)

  /** A manifest item that does not decode is None. */
  datatype Envelope = Envelope(supported: bool, source: Source, tree: map<string, Node>, manifest: seq<Option<Meta>>)

  // ----- Contents -----

  function TrimRight(s: string): string {
    if s != [] && Transition.Space(s[|s| - 1]) then TrimRight(s[..|s| - 1]) else s
  }

  function Trim(s: string): string {
    if s != [] && Transition.Space(s[0]) then Trim(s[1..]) else TrimRight(s)
  }

  function EqualFold(a: string, b: string): bool {
    LowerAll(a) == LowerAll(b)
  }

  function DecodeContent(c: Codecs, content: string, encoding: string): Option<seq<Byte>> {
    var enc := LowerAll(Trim(encoding));
    if enc == "" || enc == "utf-8" || enc == "utf8" || enc == "text" then Some(Utf8(content))
    else if enc == "base64" then c.unbase64(content)
    else None
  }

  /** The metadata ToEnvelope writes for one file. */
  function MetaOf(c: Codecs, f: File): Meta {
    var text := Utf8Decode(f.data);
    Meta(if text.Some? then text.value else c.base64(f.data), if text.Some? then "utf-8" else "base64",
         f.kind, f.language, f.mediaType, f.path, f.sha256, f.size)
  }

  // ----- Writing -----

  function FileNode(raw: string): Node {
    Branch(map[FILE := Leaf(raw)])
  }

  function Below(tree: map<string, Node>, part: string): map<string, Node> {
    if part in tree && tree[part].Branch? then tree[part].children else map[]
  }

  /** A directory path made to exist. */
  function InsertDir(tree: map<string, Node>, parts: seq<string>): map<string, Node>
    decreases |parts|
  {
    if parts == [] then tree else tree[parts[0] := Branch(InsertDir(Below(tree, parts[0]), parts[1..]))]
  }

  /** A file put at its path; whatever was there goes. */
  function InsertFile(tree: map<string, Node>, parts: seq<string>, raw: string): map<string, Node>
    requires parts != []
    decreases |parts|
  {
    if |parts| == 1 then tree[parts[0] := FileNode(raw)]
    else tree[parts[0] := Branch(InsertFile(Below(tree, parts[0]), parts[1..], raw))]
  }

  function InsertDirs(tree: map<string, Node>, dirs: seq<string>): map<string, Node> {
    if dirs == [] then tree else InsertDir(InsertDirs(tree, dirs[..|dirs| - 1]), Split(dirs[|dirs| - 1], '/'))
  }

  function InsertFiles(c: Codecs, t: MetaText, tree: map<string, Node>, files: map<string, File>, paths: seq<string>): map<string, Node>
    requires forall p :: p in paths ==> p in files
  {
    if paths == [] then tree else
      var p := paths[|paths| - 1];
      InsertFile(InsertFiles(c, t, tree, files, paths[..|paths| - 1]), Split(p, '/'), t.write(MetaOf(c, files[p])))
  }

  ghost function TreeOf(c: Codecs, t: MetaText, s: Space): map<string, Node> {
    InsertFiles(c, t, InsertDirs(map[], s.directories), s.files, SortedKeys(s.files.Keys))
  }

  function ManifestOf(c: Codecs, files: map<string, File>, paths: seq<string>): seq<Option<Meta>>
    requires forall p :: p in paths ==> p in files
  {
    seq(|paths|, i requires 0 <= i < |paths| => Some(MetaOf(c, files[paths[i]])))
  }

  ghost function ToEnvelope(c: Codecs, t: MetaText, s: Space, source: Source): Envelope {
    Envelope(true, source, TreeOf(c, t, s), ManifestOf(c, s.files, SortedKeys(s.files.Keys)))
  }

  /** ToEnvelope: directories first, then the files in order of path. */
  method Write(c: Codecs, t: MetaText, ws: Workspace, source: Source) returns (env: Envelope)
    ensures env == ToEnvelope(c, t, ws.Model(), source)
  {
    hide SortedKeys, InsertFiles, InsertDirs, ManifestOf;
    var tree := WriteDirs(ws.directories);
    var paths := Sort(ws.files.Keys);
    var manifest;
    tree, manifest := WriteFiles(c, t, tree, ws.files, paths);
    return Envelope(true, source, tree, manifest);
  }

  /** The loop that makes the directories. */
  method WriteDirs(dirs: seq<string>) returns (tree: map<string, Node>)
    ensures tree == InsertDirs(map[], dirs)
  {
    hide InsertDir, Split;
    tree := map[];
    var i := 0;
    while i < |dirs|
      invariant 0 <= i <= |dirs| && tree == InsertDirs(map[], dirs[..i])
    {
      assert dirs[..i + 1][..i] == dirs[..i];
      tree := InsertDir(tree, Split(dirs[i], '/'));
      i := i + 1;
    }
    assert dirs[..i] == dirs;
  }

  /** The loop over the files, which also fills the manifest. */
  method WriteFiles(c: Codecs, t: MetaText, before: map<string, Node>, files: map<string, File>, paths: seq<string>)
    returns (tree: map<string, Node>, manifest: seq<Option<Meta>>)
    requires forall p :: p in paths ==> p in files
    ensures tree == InsertFiles(c, t, before, files, paths) && manifest == ManifestOf(c, files, paths)
  {
    hide InsertFile, MetaOf, Split;
    tree, manifest := before, [];
    var i := 0;
    while i < |paths|
      invariant 0 <= i <= |paths|
      invariant tree == InsertFiles(c, t, before, files, paths[..i])
      invariant manifest == ManifestOf(c, files, paths[..i])
    {
      assert paths[..i + 1][..i] == paths[..i];
      var meta := MetaOf(c, files[paths[i]]);
      tree := InsertFile(tree, Split(paths[i], '/'), t.write(meta));
      manifest := manifest + [Some(meta)];
      i := i + 1;
    }
    assert paths[..i] == paths;
  }

  // ----- Reading -----

  datatype Issue =
    | PathRejected(at: string) | PathsDiffer(at: string) | SizeDiffers(path: string) | HashDiffers(path: string) | DuplicatePath(at: string)
    | FileCountDiffers | DirectoryCountDiffers | UnsafeEntries
    | BadItem(i: nat) | NotInTree(i: nat) | ManifestSize(i: nat) | ManifestHash(i: nat) | NotInManifest(path: string)

  /** What a walk has gathered. */
  datatype Walked = Walked(files: map<string, File>, issues: seq<Issue>, fileCount: nat, dirCount: nat)

  /** validateEntryName. */
  predicate ValidName(name: string) {
    name != "" && name != "." && name != ".." && '/' !in name && '\\' !in name && 0 as char !in name
  }

  /** A file as its metadata and bytes give it, before its declared path is looked at. */
  function Declared(c: Codecs, meta: Meta, data: seq<Byte>, path: string): File {
    File(path, |data|, c.sha(data), meta.sha256, meta.encoding, meta.kind, meta.language, meta.mediaType, true, data)
  }

  function CheckPath(f: File, meta: Meta, at: string): (File, seq<Issue>) {
    if meta.path == "" then (f, [])
    else if !SafePath(meta.path) then (f.(verified := false), [PathRejected(at)])
    else (f.(path := meta.path), if meta.path != at then [PathsDiffer(at)] else [])
  }

  function CheckSize(f: File, meta: Meta): (File, seq<Issue>) {
    if meta.size != f.size then (f.(verified := false), [SizeDiffers(f.path)]) else (f, [])
  }

  function CheckHash(f: File, meta: Meta): (File, seq<Issue>) {
    if meta.sha256 != "" && !EqualFold(meta.sha256, f.sha256) then (f.(verified := false), [HashDiffers(f.path)]) else (f, [])
  }

  /** The file branch of the walk; the first file of a path is kept. */
  function ReadFile(c: Codecs, t: MetaText, text: string, at: string, st: Walked): Option<Walked> {
    var meta := t.read(text);
    if meta.None? then None else
      var data := DecodeContent(c, meta.value.content, meta.value.encoding);
      if data.None? then None else
        var (f1, i1) := CheckPath(Declared(c, meta.value, data.value, at), meta.value, at);
        var (f2, i2) := CheckSize(f1, meta.value);
        var (f, i3) := CheckHash(f2, meta.value);
        var issues := st.issues + i1 + i2 + i3;
        Some(if f.path in st.files then st.(issues := issues + [DuplicatePath(at)], fileCount := st.fileCount + 1)
             else st.(files := st.files[f.path := f], issues := issues, fileCount := st.fileCount + 1))
  }

  /** path.Join of a node's path and a child's name. */
  function PathTo(at: string, name: string): string {
    at + "/" + name
  }

  /** The recursive walk; None is an error. */
  ghost function Walk(c: Codecs, t: MetaText, name: string, node: Node, at: string, st: Walked): Option<Walked>
    decreases node, 1, 0
  {
    if !ValidName(name) || !node.Branch? then None
    else if FILE in node.children then
      if node.children[FILE].Leaf? then ReadFile(c, t, node.children[FILE].text, at, st) else None
    else WalkChildren(c, t, node, SortedKeys(node.children.Keys), at, st.(dirCount := st.dirCount + 1))
  }

  ghost function WalkChildren(c: Codecs, t: MetaText, node: Node, keys: seq<string>, at: string, st: Walked): Option<Walked>
    requires node.Branch? && forall k :: k in keys ==> k in node.children
    decreases node, 0, |keys|
  {
    if keys == [] then Some(st) else
      var next := Walk(c, t, keys[0], node.children[keys[0]], PathTo(at, keys[0]), st);
      if next.None? then None else WalkChildren(c, t, node, keys[1..], at, next.value)
  }

  /** The top level, where a node's path is its name. */
  ghost function WalkTop(c: Codecs, t: MetaText, tree: map<string, Node>, keys: seq<string>, st: Walked): Option<Walked>
    requires forall k :: k in keys ==> k in tree
    decreases |keys|
  {
    if keys == [] then Some(st) else
      var next := Walk(c, t, keys[0], tree[keys[0]], keys[0], st);
      if next.None? then None else WalkTop(c, t, tree, keys[1..], next.value)
  }

  const Nothing := Walked(map[], [], 0, 0)

  // ----- The manifest -----

  /** One manifest item against the files of the tree. */
  function CheckItem(st: Walked, item: Option<Meta>, i: nat): Walked {
    if item.None? || item.value.path == "" then st.(issues := st.issues + [BadItem(i)])
    else if item.value.path !in st.files then st.(issues := st.issues + [NotInTree(i)])
    else
      var p, f := item.value.path, st.files[item.value.path];
      var badSize := item.value.size != 0 && item.value.size != f.size;
      var badHash := item.value.sha256 != "" && !EqualFold(item.value.sha256, f.sha256);
      st.(issues := st.issues + (if badSize then [ManifestSize(i)] else []) + (if badHash then [ManifestHash(i)] else []),
          files := if badSize || badHash then st.files[p := f.(verified := false)] else st.files)
  }

  function CheckItems(st: Walked, items: seq<Option<Meta>>): Walked {
    if items == [] then st else CheckItem(CheckItems(st, items[..|items| - 1]), items[|items| - 1], |items| - 1)
  }

  function Seen(items: seq<Option<Meta>>): set<string> {
    set i | 0 <= i < |items| && items[i].Some? && items[i].value.path != "" :: items[i].value.path
  }

  function Missing(paths: seq<string>, seen: set<string>): seq<Issue> {
    if paths == [] then [] else
      Missing(paths[..|paths| - 1], seen) + if paths[|paths| - 1] in seen then [] else [NotInManifest(paths[|paths| - 1])]
  }

  /** validateManifest. */
  ghost function CheckManifest(st: Walked, items: seq<Option<Meta>>): Walked {
    var checked := CheckItems(st, items);
    checked.(issues := checked.issues + Missing(SortedKeys(checked.files.Keys), Seen(items)))
  }

  function CheckSource(st: Walked, s: Source): Walked {
    st.(issues := st.issues + (if s.fileCount > 0 && s.fileCount != st.fileCount then [FileCountDiffers] else [])
                  + (if s.directoryCount > 0 && s.directoryCount != st.dirCount then [DirectoryCountDiffers] else [])
                  + (if s.unsafeCount > 0 then [UnsafeEntries] else []))
  }

  /** FromEnvelope; None is an error. */
  ghost function FromEnvelope(c: Codecs, t: MetaText, env: Envelope): Option<Walked> {
    if !env.supported || env.tree == map[] then None else
      var walked := WalkTop(c, t, env.tree, SortedKeys(env.tree.Keys), Nothing);
      if walked.None? then None else
        var counted := CheckSource(walked.value, env.source);
        Some(if env.manifest == [] then counted else CheckManifest(counted, env.manifest))
  }

  // ----- Reading, as it runs -----

  /** The file branch, one check after the other. */
  method ReadFileNode(c: Codecs, t: MetaText, text: string, at: string, st: Walked) returns (r: Option<Walked>)
    ensures r == ReadFile(c, t, text, at, st)
  {
    hide EqualFold, SafePath, DecodeContent;
    var meta := t.read(text);
    if meta.None? {
      return None;
    }
    var m := meta.value;
    var data := DecodeContent(c, m.content, m.encoding);
    if data.None? {
      return None;
    }
    var actual := c.sha(data.value);
    var f := File(at, |data.value|, actual, m.sha256, m.encoding, m.kind, m.language, m.mediaType, true, data.value);
    var i1, i2, i3 := [], [], [];
    if m.path != "" {
      if !SafePath(m.path) {
        i1 := [PathRejected(at)];
        f := f.(verified := false);
      } else {
        if m.path != at {
          i1 := [PathsDiffer(at)];
        }
        f := f.(path := m.path);
      }
    }
    if m.size != |data.value| {
      i2 := [SizeDiffers(f.path)];
      f := f.(verified := false);
    }
    if m.sha256 != "" && !EqualFold(m.sha256, actual) {
      i3 := [HashDiffers(f.path)];
      f := f.(verified := false);
    }
    var issues := st.issues + i1 + i2 + i3;
    if f.path in st.files {
      return Some(st.(issues := issues + [DuplicatePath(at)], fileCount := st.fileCount + 1));
    }
    return Some(st.(files := st.files[f.path := f], issues := issues, fileCount := st.fileCount + 1));
  }

  method WalkNode(c: Codecs, t: MetaText, name: string, node: Node, at: string, st: Walked) returns (r: Option<Walked>)
    ensures r == Walk(c, t, name, node, at, st)
    decreases node, 1
  {
    hide ReadFile, ValidName, SortedKeys;
    if !ValidName(name) {
      return None;
    }
    if !node.Branch? {
      return None;
    }
    if FILE in node.children {
      if !node.children[FILE].Leaf? {
        return None;
      }
      r := ReadFileNode(c, t, node.children[FILE].text, at, st);
      return;
    }
    r := WalkBranch(c, t, node, at, st.(dirCount := st.dirCount + 1));
  }

  /** The loop over a directory's children in order of name. */
  method WalkBranch(c: Codecs, t: MetaText, node: Node, at: string, st: Walked) returns (r: Option<Walked>)
    requires node.Branch?
    ensures r == WalkChildren(c, t, node, SortedKeys(node.children.Keys), at, st)
    decreases node, 0
  {
    hide Walk, SortedKeys;
    var keys := Sort(node.children.Keys);
    var now := st;
    var i := 0;
    while i < |keys|
      invariant 0 <= i <= |keys|
      invariant WalkChildren(c, t, node, keys[i..], at, now) == WalkChildren(c, t, node, keys, at, st)
    {
      assert keys[i..][0] == keys[i] && keys[i..][1..] == keys[i + 1..];
      var next := WalkNode(c, t, keys[i], node.children[keys[i]], PathTo(at, keys[i]), now);
      if next.None? {
        return None;
      }
      now := next.value;
      i := i + 1;
    }
    return Some(now);
  }

  /** FromEnvelope: the tree, the declared counts, the manifest. */
  method Read(c: Codecs, t: MetaText, env: Envelope) returns (r: Option<Walked>)
    ensures r == FromEnvelope(c, t, env)
  {
    hide Walk, SortedKeys, CheckManifest;
    if !env.supported || |env.tree| == 0 {
      return None;
    }
    var keys := Sort(env.tree.Keys);
    var now := Nothing;
    var i := 0;
    while i < |keys|
      invariant 0 <= i <= |keys|
      invariant WalkTop(c, t, env.tree, keys[i..], now) == WalkTop(c, t, env.tree, keys, Nothing)
    {
      assert keys[i..][0] == keys[i] && keys[i..][1..] == keys[i + 1..];
      var next := WalkNode(c, t, keys[i], env.tree[keys[i]], keys[i], now);
      if next.None? {
        return None;
      }
      now := next.value;
      i := i + 1;
    }
    now := CheckSource(now, env.source);
    if |env.manifest| > 0 {
      now := ValidateManifest(now, env.manifest);
    }
    return Some(now);
  }

  /** validateManifest: every item against the tree, then every file against the items. */
  method ValidateManifest(st: Walked, items: seq<Option<Meta>>) returns (r: Walked)
    ensures r == CheckManifest(st, items)
  {
    hide SortedKeys, CheckItem;
    r := st;
    var seen: set<string> := {};
    var i := 0;
    while i < |items|
      invariant 0 <= i <= |items|
      invariant r == CheckItems(st, items[..i]) && seen == Seen(items[..i])
    {
      assert items[..i + 1][..i] == items[..i];
      SeenStep(items, i);
      if items[i].Some? && items[i].value.path != "" {
        seen := seen + {items[i].value.path};
      }
      r := CheckItem(r, items[i], i);
      i := i + 1;
    }
    assert items[..i] == items;
    var paths := Sort(r.files.Keys);
    var missing := [];
    i := 0;
    while i < |paths|
      invariant 0 <= i <= |paths| && missing == Missing(paths[..i], seen)
    {
      assert paths[..i + 1][..i] == paths[..i];
      if paths[i] !in seen {
        missing := missing + [NotInManifest(paths[i])];
      }
      i := i + 1;
    }
    assert paths[..i] == paths;
    r := r.(issues := r.issues + missing);
  }

  lemma {:induction false} SeenStep(items: seq<Option<Meta>>, i: nat)
    requires i < |items|
    ensures Seen(items[..i + 1]) == Seen(items[..i]) + if items[i].Some? && items[i].value.path != "" then {items[i].value.path} else {}
  {
    var a, b := items[..i], items[..i + 1];
    assert forall j :: 0 <= j < i ==> a[j] == b[j];
    assert b[i] == items[i];
    forall p ensures p in Seen(b) <==> p in Seen(a) || (items[i].Some? && items[i].value.path != "" && p == items[i].value.path) {
      if p in Seen(a) {
        var j :| 0 <= j < |a| && a[j].Some? && a[j].value.path != "" && a[j].value.path == p;
        assert b[j].value.path == p;
      }
      if p in Seen(b) {
        var j :| 0 <= j < |b| && b[j].Some? && b[j].value.path != "" && b[j].value.path == p;
        assert j < i ==> a[j].value.path == p;
      }
    }
  }
}
