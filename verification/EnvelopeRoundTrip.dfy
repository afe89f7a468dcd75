/** The round trip: writing a workspace to an envelope and reading it back, and exactly when it recovers the files. */
module EnvelopeRoundTrip {
  import opened Wrappers
  import opened Bytes
  import opened Order
  import opened Text
  import opened Workspaces
  import opened Envelopes
  import opened EnvelopeTheory
  import opened EnvelopeTrees
  import Transition

  // ----- Contents survive -----

  lemma {:induction false} DecodeStep(b: seq<Byte>)
    requires b != [] && Utf8Decode(b).Some?
    ensures HeadChar(b).Some? && 1 <= HeadChar(b).value.1 <= |b| && Utf8Decode(b[HeadChar(b).value.1..]).Some?
    ensures var s := Utf8Decode(b).value;
            s != [] && Utf8Char(s[0]) == b[..HeadChar(b).value.1] && s[1..] == Utf8Decode(b[HeadChar(b).value.1..]).value
  {
    assert HeadChar(b).value.1 <= |b|;
    hide HeadChar, Utf8Char;
    var s, rest := Utf8Decode(b).value, Utf8Decode(b[HeadChar(b).value.1..]).value;
    assert s == [s[0]] + rest;
  }

  /** Text that decodes from bytes encodes to those bytes. */
  lemma {:induction false} Utf8Inverse(b: seq<Byte>)
    requires Utf8Decode(b).Some?
    ensures Utf8(Utf8Decode(b).value) == b
    decreases |b|
  {
    hide HeadChar, Utf8Char;
    if b != [] {
      DecodeStep(b);
      var k := HeadChar(b).value.1;
      Utf8Inverse(b[k..]);
      assert b == b[..k] + b[k..];
    }
  }

  lemma {:induction false} PlainEncodings()
    ensures LowerAll(Trim("utf-8")) == "utf-8" && LowerAll(Trim("base64")) == "base64"
  {
    var u, b := "utf-8", "base64";
    assert Trim(u) == TrimRight(u) == u && Trim(b) == TrimRight(b) == b;
    assert LowerAll(u) == u;
    assert LowerAll(b) == b;
  }

  /** What the writer puts into the metadata of a file decodes to the file's bytes. */
  lemma {:induction false} ContentSurvives(c: Codecs, f: File)
    requires GoodCodecs(c)
    ensures DecodeContent(c, MetaOf(c, f).content, MetaOf(c, f).encoding) == Some(f.data)
  {
    PlainEncodings();
    hide LowerAll, Trim;
    if Utf8Decode(f.data).Some? {
      Utf8Inverse(f.data);
    } else {
      assert |"base64"| == 6 && |"utf-8"| == 5 && |"utf8"| == 4 && |"text"| == 4;
    }
  }

  // ----- The workspaces in question -----

  /** Files as the workspace operations store them: under their own safe path, with their own size and hash. */
  ghost predicate WellStored(c: Codecs, s: Space) {
    forall p :: p in s.files ==>
      SafePath(p) && s.files[p].path == p && s.files[p].size == |s.files[p].data| && s.files[p].sha256 == c.sha(s.files[p].data)
  }

  /** A workspace whose files are well stored stays so under every upsert, and so under every append. */
  lemma {:induction false} UpsertKeepsWellStored(c: Codecs, s: Space, p: string, data: seq<Byte>)
    requires WellStored(c, s) && Upsert(c, s, p, data).Some?
    ensures WellStored(c, Upsert(c, s, p, data).value)
  {
    hide SafePath, Directories, SortedKeys, Utf8Decode;
  }

  /** What an upsert stores: the bytes with their own size, hash and encoding, verified; what is known of an older file is kept. */
  lemma {:induction false} UpsertStores(c: Codecs, s: Space, p: string, data: seq<Byte>)
    requires Upsert(c, s, p, data).Some?
    ensures var after := Upsert(c, s, p, data).value;
            && p in after.files && after.files == s.files[p := after.files[p]]
            && var f := after.files[p];
               && f.data == data && f.size == |data| && f.path == p && f.sha256 == f.declared == c.sha(data) && f.verified
               && (f.encoding == "utf-8" <==> exists text :: Utf8(text) == data) && (f.encoding == "utf-8" || f.encoding == "base64")
               && (p in s.files && s.files[p].kind != "" ==> f.kind == s.files[p].kind)
               && (p in s.files && s.files[p].language != "" ==> f.language == s.files[p].language)
               && (p in s.files && s.files[p].mediaType != "" ==> f.mediaType == s.files[p].mediaType)
               && (p !in s.files ==> f.kind == "text" && f.language == c.language(p) && f.mediaType == c.mediaType(p))
  {
    EncodingTells(data);
    hide SafePath, Directories, SortedKeys, Utf8Decode, Encoding, Utf8;
  }

  lemma {:induction false} EncodingTells(data: seq<Byte>)
    ensures Encoding(data) == "utf-8" <==> exists text :: Utf8(text) == data
    ensures Encoding(data) == "utf-8" || Encoding(data) == "base64"
  {
    hide Utf8, Utf8Decode;
    assert |"utf-8"| == 5 && |"base64"| == 6;
    if Utf8Decode(data).Some? {
      Utf8Inverse(data);
    }
    if text :| Utf8(text) == data {
      Utf8RoundTrip(text);
    }
  }

  /** Trimming takes blanks off both ends, and only those. */
  lemma {:induction false} TrimTakesBlanks(s: string) returns (a: string, b: string)
    ensures s == a + Trim(s) + b && Transition.Blank(a) && Transition.Blank(b)
    ensures var t := Trim(s); t != [] ==> !Transition.Space(t[0]) && !Transition.Space(t[|t| - 1])
  {
    hide Transition.Space;
    if s != [] && Transition.Space(s[0]) {
      var a', b' := TrimTakesBlanks(s[1..]);
      a, b := [s[0]] + a', b';
      assert s == [s[0]] + s[1..];
    } else {
      a := [];
      b := TrimRightTakesBlanks(s);
      assert TrimRight(s) != [] ==> TrimRight(s)[0] == s[0];
    }
  }

  lemma {:induction false} TrimRightTakesBlanks(s: string) returns (b: string)
    ensures s == TrimRight(s) + b && Transition.Blank(b)
    ensures TrimRight(s) != [] ==> !Transition.Space(TrimRight(s)[|TrimRight(s)| - 1])
  {
    hide Transition.Space;
    if s != [] && Transition.Space(s[|s| - 1]) {
      var b' := TrimRightTakesBlanks(s[..|s| - 1]);
      b := b' + [s[|s| - 1]];
      assert s == s[..|s| - 1] + [s[|s| - 1]];
    } else {
      b := [];
    }
  }

  /** Which encodings are read, in any case and with any blanks around: four names for text, one for base64, no other. */
  lemma {:induction false} EncodingsExactly(c: Codecs, content: string, encoding: string)
    ensures var name, r := LowerAll(Trim(encoding)), DecodeContent(c, content, encoding);
            && (name in {"", "utf-8", "utf8", "text"} ==> r == Some(Utf8(content)))
            && (name == "base64" ==> r == c.unbase64(content))
            && (r.Some? ==> name in {"", "utf-8", "utf8", "text", "base64"})
  {
    assert |"base64"| == 6 && |"utf-8"| == 5 && |"utf8"| == 4 && |"text"| == 4;
    hide LowerAll, Trim, Utf8;
  }

  predicate Tidy(q: Parts) {
    AllValid(q) && Unmarked(q)
  }

  /** The directory is neither a file's path nor below one. */
  predicate Live(s: Space, d: string) {
    forall p :: p in s.files ==> !(PartsOf(p) <= PartsOf(d))
  }

  /** No file path is a directory prefix of another. */
  ghost predicate NoConflict(s: Space) {
    forall p, q :: p in s.files && q in s.files && p != q ==> !(PartsOf(p) <= PartsOf(q))
  }

  ghost predicate TidyFiles(s: Space) {
    forall p :: p in s.files ==> Tidy(PartsOf(p))
  }

  ghost predicate TidyDirs(s: Space) {
    forall d :: d in s.directories && Live(s, d) ==> Tidy(PartsOf(d))
  }

  /** What a caller can check before writing an envelope. */
  ghost predicate Recoverable(s: Space) {
    (s.files != map[] || s.directories != []) && NoConflict(s) && TidyFiles(s) && TidyDirs(s)
  }

  /** A file as it comes back. */
  function Canonical(c: Codecs, f: File): File {
    f.(declared := f.sha256, encoding := MetaOf(c, f).encoding, verified := true)
  }

  function CanonicalFiles(c: Codecs, files: map<string, File>): map<string, File> {
    map p | p in files :: Canonical(c, files[p])
  }

  function RawOf(c: Codecs, t: MetaText, s: Space, p: string): string
    requires p in s.files
  {
    t.write(MetaOf(c, s.files[p]))
  }

  function Paths(s: Space): set<Parts> {
    set p | p in s.files :: PartsOf(p)
  }

  lemma {:induction false} PartsInjective(p: string, q: string)
    requires PartsOf(p) == PartsOf(q)
    ensures p == q
  {
    JoinSplit(p, '/');
    JoinSplit(q, '/');
  }

  // ----- Files in the tree are honest -----

  lemma {:induction false} RawReads(c: Codecs, t: MetaText, s: Space, p: string)
    requires GoodCodecs(c) && GoodMeta(t) && p in s.files
    ensures t.read(RawOf(c, t, s, p)) == Some(MetaOf(c, s.files[p])) && Readable(c, t, RawOf(c, t, s, p))
  {
    ContentSurvives(c, s.files[p]);
    hide DecodeContent, MetaOf;
    assert t.read(t.write(MetaOf(c, s.files[p]))) == Some(MetaOf(c, s.files[p]));
  }

  lemma {:induction false} RawIsHonest(c: Codecs, t: MetaText, s: Space, p: string)
    requires GoodCodecs(c) && GoodMeta(t) && WellStored(c, s) && p in s.files
    ensures Honest(c, t, RawOf(c, t, s, p), p)
    ensures Readable(c, t, RawOf(c, t, s, p)) && FileOf(c, t, RawOf(c, t, s, p), p) == Canonical(c, s.files[p])
  {
    RawReads(c, t, s, p);
    ContentSurvives(c, s.files[p]);
    assert MetaOf(c, s.files[p]).path == p && MetaOf(c, s.files[p]).size == |s.files[p].data|;
    hide DecodeContent, SafePath, RawOf;
  }

  /** The text is that of the file at this place. */
  ghost predicate OwnText(c: Codecs, t: MetaText, s: Space, r: Parts, text: string) {
    exists p :: p in s.files && PartsOf(p) == r && RawOf(c, t, s, p) == text
  }

  lemma {:induction false} DirsHoldNoFiles(dirs: seq<string>, r: Parts)
    ensures Locate(InsertDirs(map[], dirs), r).None?
    decreases |dirs|
  {
    if dirs != [] {
      var m := |dirs| - 1;
      DirsHoldNoFiles(dirs[..m], r);
      if Locate(InsertDirs(map[], dirs), r).Some? {
        InsertDirAdds(InsertDirs(map[], dirs[..m]), PartsOf(dirs[m]), r);
      }
    }
  }

  /** Whatever the tree holds is the text of the workspace's file at that place. */
  lemma {:induction false} TreeHoldsOwn(c: Codecs, t: MetaText, s: Space, tree: map<string, Node>, paths: seq<string>, r: Parts)
    requires (forall p :: p in paths ==> p in s.files) && Locate(tree, r).None?
    requires Locate(InsertFiles(c, t, tree, s.files, paths), r).Some?
    ensures OwnText(c, t, s, r, Locate(InsertFiles(c, t, tree, s.files, paths), r).value)
    decreases |paths|
  {
    hide Locate, InsertFile, MetaOf;
    if paths != [] {
      var m := |paths| - 1;
      var before := InsertFiles(c, t, tree, s.files, paths[..m]);
      InsertFileAdds(before, PartsOf(paths[m]), t.write(MetaOf(c, s.files[paths[m]])), r);
      if Locate(before, r).Some? {
        TreeHoldsOwn(c, t, s, tree, paths[..m], r);
      }
    }
  }

  lemma {:induction false} TreeIsHonest(c: Codecs, t: MetaText, s: Space)
    requires GoodCodecs(c) && GoodMeta(t) && WellStored(c, s)
    ensures AllHonest(c, t, InTree(TreeOf(c, t, s)))
    ensures forall q :: InTree(TreeOf(c, t, s))(q).Some? ==> q in s.files && InTree(TreeOf(c, t, s))(q).value == RawOf(c, t, s, q)
  {
    hide Locate, Honest, SortedKeys, WellStored, GoodCodecs, GoodMeta, RawOf, InsertFiles;
    var tree := TreeOf(c, t, s);
    forall q | InTree(tree)(q).Some? ensures q in s.files && InTree(tree)(q).value == RawOf(c, t, s, q) {
      DirsHoldNoFiles(s.directories, PartsOf(q));
      TreeHoldsOwn(c, t, s, InsertDirs(map[], s.directories), SortedKeys(s.files.Keys), PartsOf(q));
      var p :| p in s.files && PartsOf(p) == PartsOf(q) && RawOf(c, t, s, p) == InTree(tree)(q).value;
      PartsInjective(p, q);
    }
    forall q | InTree(tree)(q).Some? ensures Honest(c, t, InTree(tree)(q).value, q) {
      RawIsHonest(c, t, s, q);
    }
  }

  // ----- Enough: a recoverable workspace gives a sound tree with all its files -----

  lemma {:induction false} DirIsFine(s: Space, d: string)
    requires TidyFiles(s) && TidyDirs(s) && d in s.directories
    ensures Fine(PartsOf(d), Paths(s))
  {
    hide ValidName, Split;
    if !Live(s, d) {
      var p :| p in s.files && PartsOf(p) <= PartsOf(d);
      assert Tidy(PartsOf(p));
      var parts, n := PartsOf(d), |PartsOf(p)|;
      assert parts[..n] == PartsOf(p) && PartsOf(p) in Paths(s);
      forall i | 0 <= i < |parts| && (forall j :: 0 < j <= i + 1 ==> parts[..j] !in Paths(s))
        ensures ValidName(parts[i]) && (i > 0 ==> parts[i] != FILE)
      {
        assert i < n ==> parts[i] == PartsOf(p)[i];
      }
    }
  }

  /** A directory puts no marker above a file. */
  lemma {:induction false} DirMarksNothing(s: Space, d: string, q: string, i: nat)
    requires NoConflict(s) && TidyFiles(s) && TidyDirs(s) && d in s.directories && q in s.files
    requires 1 <= i < |PartsOf(d)| && i < |PartsOf(q)| && PartsOf(d)[..i] == PartsOf(q)[..i]
    ensures PartsOf(d)[i] != FILE
  {
    hide ValidName, Split;
    if !Live(s, d) {
      var p :| p in s.files && PartsOf(p) <= PartsOf(d);
      assert Tidy(PartsOf(p));
      SharedPrefix(PartsOf(p), PartsOf(d), PartsOf(q), i);
      assert i < |PartsOf(p)|;
      assert PartsOf(p)[i] == PartsOf(d)[i];
    }
  }

  lemma {:induction false} SharedPrefix(a: Parts, d: Parts, q: Parts, i: nat)
    requires a <= d && i < |d| && i < |q| && d[..i] == q[..i]
    ensures |a| <= i ==> a <= q && |a| < |q|
  {
    assert forall k :: 0 <= k < i ==> d[..i][k] == d[k] && q[..i][k] == q[k];
  }

  lemma {:induction false} DirsReady(c: Codecs, t: MetaText, s: Space, dirs: seq<string>)
    requires NoConflict(s) && TidyFiles(s) && TidyDirs(s) && forall d :: d in dirs ==> d in s.directories
    ensures Sound(c, t, InsertDirs(map[], dirs), Paths(s))
    ensures forall q :: q in s.files ==> Clear(InsertDirs(map[], dirs), PartsOf(q))
    decreases |dirs|
  {
    hide SoundNode, InsertDir, Locate, Fine, Live;
    if dirs != [] {
      var m := |dirs| - 1;
      var before, d := InsertDirs(map[], dirs[..m]), PartsOf(dirs[m]);
      DirsReady(c, t, s, dirs[..m]);
      DirIsFine(s, dirs[m]);
      forall r ensures Locate(before, r).None? { DirsHoldNoFiles(dirs[..m], r); }
      forall r | r in Paths(s) ensures Unmarked(r) {
        var p :| p in s.files && PartsOf(p) == r;
        assert Tidy(PartsOf(p));
      }
      InsertDirSound(c, t, before, Paths(s), d);
      forall q | q in s.files ensures Clear(InsertDir(before, d), PartsOf(q)) {
        forall i | 1 <= i < |d| && i < |PartsOf(q)| && d[..i] == PartsOf(q)[..i] ensures d[i] != FILE {
          DirMarksNothing(s, dirs[m], q, i);
        }
        InsertDirClear(before, d, PartsOf(q));
      }
    }
  }

  /** The files inserted so far are found, the rest still has a clear way, and nothing else is unsound. */
  ghost predicate Ready(c: Codecs, t: MetaText, s: Space, tree: map<string, Node>, done: set<string>) {
    && Sound(c, t, tree, Paths(s) - set p | p in done :: PartsOf(p))
    && (forall q :: q in s.files ==> Clear(tree, PartsOf(q)))
    && (forall q :: q in s.files && q in done ==> Locate(tree, PartsOf(q)) == Some(RawOf(c, t, s, q)))
  }

  lemma {:induction false} ReadyStep(c: Codecs, t: MetaText, s: Space, tree: map<string, Node>, done: set<string>, p: string)
    requires GoodCodecs(c) && GoodMeta(t) && NoConflict(s) && TidyFiles(s) && p in s.files && Ready(c, t, s, tree, done)
    ensures Ready(c, t, s, InsertFile(tree, PartsOf(p), RawOf(c, t, s, p)), done + {p})
  {
    hide SoundNode, Sound, InsertFile, Locate, Clear, ValidName, Readable, RawOf, GoodCodecs, GoodMeta, Split;
    var q, raw := PartsOf(p), RawOf(c, t, s, p);
    var after := InsertFile(tree, q, raw);
    assert Tidy(q);
    RawReads(c, t, s, p);
    var P := Paths(s) - set x | x in done :: PartsOf(x);
    forall i | 0 < i < |q| ensures q[..i] !in P {
      NoPrefixOf(s, p, i);
    }
    InsertFileSound(c, t, tree, P, q, raw);
    assert P - {q} == Paths(s) - set x | x in done + {p} :: PartsOf(x);
    forall r | r in s.files ensures Clear(after, PartsOf(r)) {
      InsertFileClear(tree, q, raw, PartsOf(r));
    }
    forall r | r in s.files && r in done + {p} ensures Locate(after, PartsOf(r)) == Some(RawOf(c, t, s, r)) {
      if r == p {
        InsertFileFound(tree, q, raw);
      } else {
        InsertFileKeeps(tree, q, raw, PartsOf(r));
      }
    }
  }

  lemma {:induction false} NoPrefixOf(s: Space, p: string, i: nat)
    requires NoConflict(s) && p in s.files && 0 < i < |PartsOf(p)|
    ensures PartsOf(p)[..i] !in Paths(s)
  {
    hide Split;
    forall x | x in s.files ensures PartsOf(x) != PartsOf(p)[..i] {
      assert x != p ==> !(PartsOf(x) <= PartsOf(p));
    }
  }

  lemma {:induction false} FilesReady(c: Codecs, t: MetaText, s: Space, tree: map<string, Node>, paths: seq<string>)
    requires GoodCodecs(c) && GoodMeta(t) && NoConflict(s) && TidyFiles(s) && forall p :: p in paths ==> p in s.files
    requires Ready(c, t, s, tree, {})
    ensures Ready(c, t, s, InsertFiles(c, t, tree, s.files, paths), (set p | p in paths))
    decreases |paths|
  {
    hide Ready, InsertFile, NoConflict, TidyFiles, GoodCodecs, GoodMeta, Split, MetaOf;
    if paths == [] {
      assert (set p | p in paths) == {};
    } else {
      var m := |paths| - 1;
      FilesReady(c, t, s, tree, paths[..m]);
      ReadyStep(c, t, s, InsertFiles(c, t, tree, s.files, paths[..m]), (set p | p in paths[..m]), paths[m]);
      assert (set p | p in paths) == (set p | p in paths[..m]) + {paths[m]};
    }
  }

  /** The tree of a recoverable workspace is sound and holds exactly its files. */
  lemma {:induction false} RecoverableTree(c: Codecs, t: MetaText, s: Space)
    requires GoodCodecs(c) && GoodMeta(t) && Recoverable(s)
    ensures Sound(c, t, TreeOf(c, t, s), {})
    ensures forall q :: q in s.files ==> Locate(TreeOf(c, t, s), PartsOf(q)) == Some(RawOf(c, t, s, q))
  {
    hide SoundNode, Locate, Clear, NoConflict, TidyFiles, TidyDirs, RawOf, SortedKeys, GoodCodecs, GoodMeta, InsertFiles, Split;
    var dirs, paths := InsertDirs(map[], s.directories), SortedKeys(s.files.Keys);
    DirsReady(c, t, s, s.directories);
    var none: set<string> := {};
    assert Paths(s) - (set p | p in none :: PartsOf(p)) == Paths(s);
    assert Ready(c, t, s, dirs, {});
    FilesReady(c, t, s, dirs, paths);
    var all := set p | p in paths;
    assert all == s.files.Keys;
    assert Paths(s) - (set p | p in all :: PartsOf(p)) == {};
  }

  // ----- Needed: what a tree that reads back with all its files tells -----

  lemma {:induction false} FilesBlock(c: Codecs, t: MetaText, s: Space, tree: map<string, Node>, paths: seq<string>, p: string)
    requires (forall x :: x in paths ==> x in s.files) && p in paths
    ensures Blocked(InsertFiles(c, t, tree, s.files, paths), PartsOf(p))
    decreases |paths|
  {
    hide InsertFile, MetaOf, Blocked;
    var m := |paths| - 1;
    var before, raw := InsertFiles(c, t, tree, s.files, paths[..m]), t.write(MetaOf(c, s.files[paths[m]]));
    if p == paths[m] {
      InsertFileBlocks(before, PartsOf(p), raw);
    } else {
      assert p in paths[..m];
      FilesBlock(c, t, s, tree, paths[..m], p);
      BlockedStays(before, PartsOf(p), PartsOf(paths[m]), raw);
    }
  }

  lemma {:induction false} DirsChain(dirs: seq<string>, d: string)
    requires d in dirs
    ensures Chain(InsertDirs(map[], dirs), PartsOf(d))
    decreases |dirs|
  {
    hide InsertDir, Chain;
    var m := |dirs| - 1;
    if d == dirs[m] {
      InsertDirChain(InsertDirs(map[], dirs[..m]), PartsOf(d));
    } else {
      assert d in dirs[..m];
      DirsChain(dirs[..m], d);
      DirKeepsChain(InsertDirs(map[], dirs[..m]), PartsOf(d), PartsOf(dirs[m]));
    }
  }

  lemma {:induction false} FilesChain(c: Codecs, t: MetaText, s: Space, tree: map<string, Node>, paths: seq<string>, d: string)
    requires (forall x :: x in paths ==> x in s.files) && Chain(tree, PartsOf(d)) && Live(s, d)
    ensures Chain(InsertFiles(c, t, tree, s.files, paths), PartsOf(d))
    decreases |paths|
  {
    hide InsertFile, MetaOf, Chain;
    if paths != [] {
      var m := |paths| - 1;
      FilesChain(c, t, s, tree, paths[..m], d);
      assert paths[m] in s.files;
      FileKeepsChain(InsertFiles(c, t, tree, s.files, paths[..m]), PartsOf(d), PartsOf(paths[m]), t.write(MetaOf(c, s.files[paths[m]])));
    }
  }

  lemma {:induction false} NeedsNoConflict(c: Codecs, t: MetaText, s: Space)
    requires forall q :: q in s.files ==> Locate(TreeOf(c, t, s), PartsOf(q)).Some?
    ensures NoConflict(s)
  {
    hide Locate, Split, SortedKeys, InsertFiles, Blocked;
    forall p, q | p in s.files && q in s.files && p != q ensures !(PartsOf(p) <= PartsOf(q)) {
      if PartsOf(p) <= PartsOf(q) {
        if |PartsOf(p)| == |PartsOf(q)| {
          PartsInjective(p, q);
        } else {
          FilesBlock(c, t, s, InsertDirs(map[], s.directories), SortedKeys(s.files.Keys), p);
          BlockedHides(TreeOf(c, t, s), PartsOf(p), PartsOf(q));
        }
      }
    }
  }

  lemma {:induction false} NeedsTidyDirs(c: Codecs, t: MetaText, s: Space)
    requires Sound(c, t, TreeOf(c, t, s), {})
    ensures TidyDirs(s)
  {
    hide Locate, Split, SortedKeys, InsertFiles, Chain, SoundNode, ValidName, RawOf;
    var tree := TreeOf(c, t, s);
    forall d | d in s.directories && Live(s, d) ensures Tidy(PartsOf(d)) {
      DirsChain(s.directories, d);
      FilesChain(c, t, s, InsertDirs(map[], s.directories), SortedKeys(s.files.Keys), d);
      forall i | 0 < i <= |PartsOf(d)| ensures Locate(tree, PartsOf(d)[..i]).None? {
        if Locate(tree, PartsOf(d)[..i]).Some? {
          DirsHoldNoFiles(s.directories, PartsOf(d)[..i]);
          TreeHoldsOwn(c, t, s, InsertDirs(map[], s.directories), SortedKeys(s.files.Keys), PartsOf(d)[..i]);
        }
      }
      LiveDirTidy(c, t, tree, PartsOf(d));
    }
  }

  lemma {:induction false} NeedsTidyFiles(c: Codecs, t: MetaText, s: Space)
    requires Sound(c, t, TreeOf(c, t, s), {}) && forall q :: q in s.files ==> Locate(TreeOf(c, t, s), PartsOf(q)).Some?
    ensures TidyFiles(s)
  {
    hide Locate, Split, SoundNode, ValidName, TreeOf;
    forall q | q in s.files ensures Tidy(PartsOf(q)) {
      FoundTidy(c, t, TreeOf(c, t, s), PartsOf(q));
    }
  }

  // ----- The manifest and the counts -----

  lemma {:induction false} ItemsKeepKeys(st: Walked, items: seq<Option<Meta>>)
    ensures CheckItems(st, items).files.Keys == st.files.Keys
    decreases |items|
  {
    hide EqualFold;
    if items != [] {
      ItemsKeepKeys(st, items[..|items| - 1]);
    }
  }

  /** The manifest of a workspace has nothing to say about its own files. */
  lemma {:induction false} ItemsQuiet(c: Codecs, s: Space, st: Walked, paths: seq<string>)
    requires WellStored(c, s) && st.files == CanonicalFiles(c, s.files) && forall p :: p in paths ==> p in s.files
    ensures CheckItems(st, ManifestOf(c, s.files, paths)) == st
    decreases |paths|
  {
    var items := ManifestOf(c, s.files, paths);
    if paths != [] {
      var m := |paths| - 1;
      var p := paths[m];
      ItemsQuiet(c, s, st, paths[..m]);
      assert items[..m] == ManifestOf(c, s.files, paths[..m]);
      assert items[m] == Some(MetaOf(c, s.files[p]));
      SafeNotEmpty(p);
      hide SafePath, LowerAll, ManifestOf;
      assert p in paths && s.files[p].path == p && st.files[p] == Canonical(c, s.files[p]);
      assert st.issues + [] + [] == st.issues;
    }
  }

  lemma {:induction false} AllSeen(c: Codecs, s: Space, paths: seq<string>)
    requires WellStored(c, s) && forall p :: p in paths ==> p in s.files
    ensures forall p :: p in paths ==> p in Seen(ManifestOf(c, s.files, paths))
  {
    hide SafePath;
    var items := ManifestOf(c, s.files, paths);
    forall p | p in paths ensures p in Seen(items) {
      var i :| 0 <= i < |paths| && paths[i] == p;
      assert items[i] == Some(MetaOf(c, s.files[p])) && s.files[p].path == p;
      SafeNotEmpty(p) by { assert SafePath(p); }
      assert items[i].Some? && items[i].value.path == p;
    }
  }

  lemma {:induction false} NoneMissing(paths: seq<string>, seen: set<string>)
    requires forall p :: p in paths ==> p in seen
    ensures Missing(paths, seen) == []
    decreases |paths|
  {
    if paths != [] {
      NoneMissing(paths[..|paths| - 1], seen);
    }
  }

  lemma {:induction false} ManifestQuiet(c: Codecs, s: Space, st: Walked)
    requires WellStored(c, s) && st.files == CanonicalFiles(c, s.files)
    ensures CheckManifest(st, ManifestOf(c, s.files, SortedKeys(s.files.Keys))) == st
  {
    hide SortedKeys, CheckItems, ManifestOf, WellStored, Canonical, Seen;
    var paths := SortedKeys(s.files.Keys);
    ItemsQuiet(c, s, st, paths);
    AllSeen(c, s, paths);
    assert st.files.Keys == s.files.Keys;
    NoneMissing(paths, Seen(ManifestOf(c, s.files, paths)));
    assert st.issues + [] == st.issues;
  }

  // ----- Emptiness -----

  lemma {:induction false} DirsNotEmpty(dirs: seq<string>)
    ensures InsertDirs(map[], dirs) == map[] <==> dirs == []
    decreases |dirs|
  {
    if dirs != [] {
      var m := |dirs| - 1;
      var parts := PartsOf(dirs[m]);
      assert parts[0] in InsertDir(InsertDirs(map[], dirs[..m]), parts);
    }
  }

  lemma {:induction false} FilesNotEmpty(c: Codecs, t: MetaText, files: map<string, File>, tree: map<string, Node>, paths: seq<string>)
    requires forall p :: p in paths ==> p in files
    ensures InsertFiles(c, t, tree, files, paths) == map[] <==> tree == map[] && paths == []
    decreases |paths|
  {
    if paths != [] {
      var m := |paths| - 1;
      var before := InsertFiles(c, t, tree, files, paths[..m]);
      assert PartsOf(paths[m])[0] in InsertFile(before, PartsOf(paths[m]), t.write(MetaOf(c, files[paths[m]])));
    }
  }

  lemma {:induction false} TreeNotEmpty(c: Codecs, t: MetaText, s: Space)
    ensures TreeOf(c, t, s) == map[] <==> s.files == map[] && s.directories == []
  {
    hide SortedKeys, InsertDirs, InsertFiles;
    DirsNotEmpty(s.directories);
    FilesNotEmpty(c, t, s.files, InsertDirs(map[], s.directories), SortedKeys(s.files.Keys));
    assert s.files == map[] <==> s.files.Keys == {};
    assert SortedKeys(s.files.Keys) == [] <==> |s.files.Keys| == 0;
  }

  // ----- The round trip -----

  /** The whole walk of a tree. */
  ghost function WalkOf(c: Codecs, t: MetaText, tree: map<string, Node>): Option<Walked> {
    WalkTop(c, t, tree, SortedKeys(tree.Keys), Nothing)
  }

  /** What the walk of a workspace's own tree gathers. */
  lemma {:induction false} OwnWalk(c: Codecs, t: MetaText, s: Space)
    requires GoodCodecs(c) && GoodMeta(t) && WellStored(c, s)
    ensures var tree := TreeOf(c, t, s);
            var w := WalkOf(c, t, tree);
            && (w.Some? <==> Sound(c, t, tree, {}))
            && (w.Some? ==> w.value.files.Keys <= s.files.Keys && w.value.issues == [] && w.value.fileCount == |w.value.files|
                            && (forall q :: q in w.value.files ==> w.value.files[q] == Canonical(c, s.files[q]))
                            && (forall q :: q in w.value.files <==> Locate(tree, PartsOf(q)).Some?))
  {
    hide WalkTop, Sound, Locate, SortedKeys, TreeOf, WellStored, GoodCodecs, GoodMeta, FileOf, Readable, RawOf, Canonical, AllHonest, Split;
    var tree := TreeOf(c, t, s);
    SoundTop(c, t, tree, Nothing);
    TreeIsHonest(c, t, s);
    var w := WalkOf(c, t, tree);
    if w.Some? {
      TreeFinds(c, t, tree);
      forall q ensures q in w.value.files <==> Locate(tree, PartsOf(q)).Some? {
        assert InTree(tree)(q) == Locate(tree, PartsOf(q));
      }
      forall q | q in w.value.files ensures q in s.files && w.value.files[q] == Canonical(c, s.files[q]) {
        assert InTree(tree)(q).Some?;
        RawIsHonest(c, t, s, q);
      }
    }
  }

  /** Reading an own envelope back, in terms of the walk of its tree. */
  lemma {:induction false} ResultIs(c: Codecs, t: MetaText, s: Space, source: Source)
    ensures var w := WalkOf(c, t, TreeOf(c, t, s));
            FromEnvelope(c, t, ToEnvelope(c, t, s, source)) ==
            if TreeOf(c, t, s) == map[] || w.None? then None
            else if s.files == map[] then Some(CheckSource(w.value, source))
            else Some(CheckManifest(CheckSource(w.value, source), ManifestOf(c, s.files, SortedKeys(s.files.Keys))))
  {
    hide WalkTop, TreeOf, CheckManifest, SortedKeys, MetaOf;
    assert |s.files.Keys| == |s.files|;
  }

  lemma {:induction false} FilesOfResult(c: Codecs, t: MetaText, s: Space, source: Source)
    ensures var w := WalkOf(c, t, TreeOf(c, t, s));
            var r := FromEnvelope(c, t, ToEnvelope(c, t, s, source));
            && (r.Some? <==> TreeOf(c, t, s) != map[] && w.Some?)
            && (r.Some? ==> r.value.files.Keys == w.value.files.Keys)
  {
    hide WalkOf, TreeOf, CheckItems, Missing, Seen, SortedKeys, FromEnvelope, ToEnvelope, ManifestOf;
    ResultIs(c, t, s, source);
    var w := WalkOf(c, t, TreeOf(c, t, s));
    if w.Some? {
      ItemsKeepKeys(CheckSource(w.value, source), ManifestOf(c, s.files, SortedKeys(s.files.Keys)));
    }
  }

  /** If: a recoverable workspace comes back with exactly its files, verified, and only the declared counts can be at issue. */
  lemma {:induction false} RecoverableSurvives(c: Codecs, t: MetaText, s: Space, source: Source)
    requires GoodCodecs(c) && GoodMeta(t) && WellStored(c, s) && Recoverable(s)
    ensures var r := FromEnvelope(c, t, ToEnvelope(c, t, s, source));
            r.Some? && r.value.files == CanonicalFiles(c, s.files) && r.value.fileCount == |s.files|
            && r.value == CheckSource(r.value.(issues := []), source)
  {
    hide WalkOf, TreeOf, CheckManifest, SortedKeys, WellStored, GoodCodecs, GoodMeta, Canonical, Sound, Locate, ManifestOf, RawOf, Split,
         NoConflict, TidyFiles, TidyDirs, FromEnvelope, ToEnvelope;
    var tree := TreeOf(c, t, s);
    ResultIs(c, t, s, source);
    TreeNotEmpty(c, t, s);
    RecoverableTree(c, t, s);
    OwnWalk(c, t, s);
    var w := WalkOf(c, t, tree).value;
    assert w.files == CanonicalFiles(c, s.files);
    assert w.files.Keys == s.files.Keys;
    assert |w.files| == |w.files.Keys| && |s.files| == |s.files.Keys|;
    ManifestQuiet(c, s, CheckSource(w, source));
    assert CheckSource(w, source) == CheckSource(CheckSource(w, source).(issues := []), source);
  }

  /** Only if: files that all come back were in a recoverable workspace. */
  lemma {:induction false} SurvivorIsRecoverable(c: Codecs, t: MetaText, s: Space, source: Source)
    requires GoodCodecs(c) && GoodMeta(t) && WellStored(c, s)
    requires var r := FromEnvelope(c, t, ToEnvelope(c, t, s, source)); r.Some? && r.value.files == CanonicalFiles(c, s.files)
    ensures Recoverable(s)
  {
    hide WalkOf, TreeOf, SortedKeys, WellStored, GoodCodecs, GoodMeta, Canonical, Sound, Locate, Split, NoConflict, TidyFiles, TidyDirs,
         FromEnvelope, ToEnvelope;
    FilesOfResult(c, t, s, source);
    TreeNotEmpty(c, t, s);
    OwnWalk(c, t, s);
    assert CanonicalFiles(c, s.files).Keys == s.files.Keys;
    var tree := TreeOf(c, t, s);
    forall q | q in s.files ensures Locate(tree, PartsOf(q)).Some? {
      assert q in WalkOf(c, t, tree).value.files.Keys;
    }
    NeedsNoConflict(c, t, s);
    NeedsTidyFiles(c, t, s);
    NeedsTidyDirs(c, t, s);
  }

  /** Exactly which workspaces survive the trip through an envelope. */
  lemma {:induction false} RoundTripExactly(c: Codecs, t: MetaText, s: Space, source: Source)
    requires GoodCodecs(c) && GoodMeta(t) && WellStored(c, s)
    ensures var r := FromEnvelope(c, t, ToEnvelope(c, t, s, source));
            r.Some? && r.value.files == CanonicalFiles(c, s.files) <==> Recoverable(s)
  {
    hide FromEnvelope, ToEnvelope, CanonicalFiles, Recoverable, WellStored;
    if Recoverable(s) {
      RecoverableSurvives(c, t, s, source);
    }
    var r := FromEnvelope(c, t, ToEnvelope(c, t, s, source));
    if r.Some? && r.value.files == CanonicalFiles(c, s.files) {
      SurvivorIsRecoverable(c, t, s, source);
    }
  }

  /** A file of a workspace whose bytes are empty. */
  function EmptyFile(c: Codecs, p: string): File {
    File(p, 0, c.sha([]), c.sha([]), "utf-8", "text", "", "", true, [])
  }

  /** A workspace with the files a and a/b does not survive: the marker of a hides a/b. */
  lemma {:induction false} NestedFileIsLost(c: Codecs, t: MetaText, source: Source)
    requires GoodCodecs(c) && GoodMeta(t)
    ensures var s := Space(map["a" := EmptyFile(c, "a")]["a/b" := EmptyFile(c, "a/b")], ["a"]);
            var r := FromEnvelope(c, t, ToEnvelope(c, t, s, source));
            WellStored(c, s) && !(r.Some? && r.value.files == CanonicalFiles(c, s.files))
  {
    hide Split, SafePath, FromEnvelope, ToEnvelope, CanonicalFiles;
    var s := Space(map["a" := EmptyFile(c, "a")]["a/b" := EmptyFile(c, "a/b")], ["a"]);
    NestedPaths();
    RoundTripExactly(c, t, s, source);
  }

  lemma {:induction false} NestedPaths()
    ensures "a" != "a/b" && SafePath("a") && SafePath("a/b") && PartsOf("a") == ["a"] && PartsOf("a/b") == ["a", "b"]
  {
    assert Pieces(["a"], '/') && Pieces(["a", "b"], '/');
    SplitJoin(["a"], '/');
    SplitJoin(["a", "b"], '/');
    assert Join(["a", "b"], '/') == "a" + "/" + Join(["a", "b"][1..], '/') == "a/b";
  }
}
