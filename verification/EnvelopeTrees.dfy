/** What inserting a directory or a file does to a tree, as the walk will see it. */
module EnvelopeTrees {
  import opened Wrappers
  import opened Text
  import opened Workspaces
  import opened Envelopes
  import opened EnvelopeTheory

  // ----- Files already there, and the new one -----

  lemma {:induction false} LocateFileNode(raw: string, r: Parts)
    ensures LocateNode(FileNode(raw), r) == if r == [] then Some(raw) else None
  {
  }

  lemma {:induction false} LocateBranch(children: map<string, Node>, r: Parts)
    requires FILE !in children
    ensures LocateNode(Branch(children), r) == Locate(children, r)
  {
  }

  lemma {:induction false} LocateBelow(tree: map<string, Node>, k: string, r: Parts)
    requires Locate(Below(tree, k), r).Some? && FILE !in Below(tree, k)
    ensures k in tree && Locate(tree, [k] + r) == Locate(Below(tree, k), r)
  {
    assert ([k] + r)[1..] == r;
  }

  /** Inserting a file adds no file but itself. */
  lemma {:induction false} InsertFileAdds(tree: map<string, Node>, q: Parts, raw: string, r: Parts)
    requires q != [] && Locate(InsertFile(tree, q, raw), r).Some?
    ensures (r == q && Locate(InsertFile(tree, q, raw), r) == Some(raw)) || Locate(InsertFile(tree, q, raw), r) == Locate(tree, r)
    decreases |q|
  {
    assert r[..1] == [r[0]] && r == [r[0]] + r[1..];
    assert q == [q[0]] + q[1..];
    if r[0] == q[0] {
      if |q| == 1 {
        LocateFileNode(raw, r[1..]);
      } else {
        var children := InsertFile(Below(tree, q[0]), q[1..], raw);
        InsertFileMarks(Below(tree, q[0]), q[1..], raw);
        if FILE !in children {
          LocateBranch(children, r[1..]);
          InsertFileAdds(Below(tree, q[0]), q[1..], raw, r[1..]);
          if r[1..] != q[1..] {
            LocateBelow(tree, q[0], r[1..]);
          }
        }
      }
    }
  }

  /** The marker of a node survives an insertion below it, and stays text unless it is what is inserted. */
  lemma {:induction false} InsertFileMarks(tree: map<string, Node>, q: Parts, raw: string)
    requires q != []
    ensures FILE in tree || q[0] == FILE <==> FILE in InsertFile(tree, q, raw)
    ensures q[0] != FILE && FILE in tree ==> InsertFile(tree, q, raw)[FILE] == tree[FILE]
    ensures q[0] == FILE ==> !InsertFile(tree, q, raw)[FILE].Leaf?
  {
  }

  lemma {:induction false} InsertDirMarks(tree: map<string, Node>, q: Parts)
    requires q != []
    ensures FILE in tree || q[0] == FILE <==> FILE in InsertDir(tree, q)
    ensures q[0] != FILE && FILE in tree ==> InsertDir(tree, q)[FILE] == tree[FILE]
    ensures q[0] == FILE ==> !InsertDir(tree, q)[FILE].Leaf?
  {
  }

  /** Inserting a directory adds no file. */
  lemma {:induction false} InsertDirAdds(tree: map<string, Node>, q: Parts, r: Parts)
    requires Locate(InsertDir(tree, q), r).Some?
    ensures Locate(InsertDir(tree, q), r) == Locate(tree, r)
    decreases |q|
  {
    assert r == [r[0]] + r[1..];
    if q != [] && r[0] == q[0] {
      var children := InsertDir(Below(tree, q[0]), q[1..]);
      if q[1..] != [] {
        InsertDirMarks(Below(tree, q[0]), q[1..]);
      }
      if FILE !in children {
        LocateBranch(children, r[1..]);
        InsertDirAdds(Below(tree, q[0]), q[1..], r[1..]);
        LocateBelow(tree, q[0], r[1..]);
      }
    }
  }

  // ----- The way to a path is clear -----

  /** No node above the path is taken for a file. */
  predicate Clear(tree: map<string, Node>, q: Parts)
    decreases |q|
  {
    |q| <= 1 || q[0] !in tree || !tree[q[0]].Branch? || (FILE !in tree[q[0]].children && Clear(tree[q[0]].children, q[1..]))
  }

  /** No name after the first is the file marker. */
  predicate Unmarked(q: Parts) {
    forall i :: 1 <= i < |q| ==> q[i] != FILE
  }

  lemma {:induction false} UnmarkedTail(q: Parts)
    requires q != [] && Unmarked(q)
    ensures Unmarked(q[1..]) && (|q| > 1 ==> q[1] != FILE)
  {
  }

  lemma {:induction false} ClearBelow(tree: map<string, Node>, q: Parts)
    requires |q| > 1 && Clear(tree, q)
    ensures Clear(Below(tree, q[0]), q[1..]) && FILE !in Below(tree, q[0])
  {
  }

  /** A file inserted on a clear way is found. */
  lemma {:induction false} InsertFileFound(tree: map<string, Node>, q: Parts, raw: string)
    requires q != [] && Unmarked(q) && Clear(tree, q)
    ensures Locate(InsertFile(tree, q, raw), q) == Some(raw)
    decreases |q|
  {
    if |q| == 1 {
      LocateFileNode(raw, []);
    } else {
      UnmarkedTail(q);
      ClearBelow(tree, q);
      InsertFileMarks(Below(tree, q[0]), q[1..], raw);
      LocateBranch(InsertFile(Below(tree, q[0]), q[1..], raw), q[1..]);
      InsertFileFound(Below(tree, q[0]), q[1..], raw);
    }
  }

  /** Other files stay where they are. */
  lemma {:induction false} InsertFileKeeps(tree: map<string, Node>, q: Parts, raw: string, r: Parts)
    requires q != [] && Unmarked(q) && Clear(tree, q) && !(q <= r)
    ensures Locate(InsertFile(tree, q, raw), r) == Locate(tree, r)
    decreases |q|
  {
    if r != [] && r[0] == q[0] {
      assert r == [r[0]] + r[1..] && q == [q[0]] + q[1..];
      if |q| > 1 {
        UnmarkedTail(q);
        ClearBelow(tree, q);
        InsertFileMarks(Below(tree, q[0]), q[1..], raw);
        LocateBranch(InsertFile(Below(tree, q[0]), q[1..], raw), r[1..]);
        InsertFileKeeps(Below(tree, q[0]), q[1..], raw, r[1..]);
        if q[0] in tree && tree[q[0]].Branch? {
          LocateBranch(tree[q[0]].children, r[1..]);
        }
      }
    }
  }

  /** A clear way stays clear unless a file is put above it. */
  lemma {:induction false} InsertFileClear(tree: map<string, Node>, q: Parts, raw: string, r: Parts)
    requires q != [] && Unmarked(q) && Clear(tree, r) && !(q <= r && |q| < |r|)
    ensures Clear(InsertFile(tree, q, raw), r)
    decreases |q|
  {
    if |r| > 1 && r[0] == q[0] {
      assert r == [r[0]] + r[1..] && q == [q[0]] + q[1..];
      UnmarkedTail(q);
      ClearBelow(tree, r);
      InsertFileMarks(Below(tree, q[0]), q[1..], raw);
      InsertFileClear(Below(tree, q[0]), q[1..], raw, r[1..]);
    }
  }

  /** A directory keeps a way clear unless it puts a marker above its end. */
  lemma {:induction false} InsertDirClear(tree: map<string, Node>, q: Parts, r: Parts)
    requires Clear(tree, r) && forall i :: 1 <= i < |q| && i < |r| && q[..i] == r[..i] ==> q[i] != FILE
    ensures Clear(InsertDir(tree, q), r)
    decreases |q|
  {
    if q != [] && |r| > 1 && r[0] == q[0] {
      assert r == [r[0]] + r[1..] && q == [q[0]] + q[1..];
      ClearBelow(tree, r);
      if q[1..] != [] {
        assert q[..1] == r[..1];
        InsertDirMarks(Below(tree, q[0]), q[1..]);
      }
      forall i | 1 <= i < |q[1..]| && i < |r[1..]| && q[1..][..i] == r[1..][..i] ensures q[1..][i] != FILE {
        assert q[..i + 1] == [q[0]] + q[1..][..i] && r[..i + 1] == [r[0]] + r[1..][..i];
      }
      InsertDirClear(Below(tree, q[0]), q[1..], r[1..]);
    }
  }

  // ----- A file blocks what lies below it, for good -----

  /** Some node on the way to and including the end of the path is taken for a file. */
  predicate Blocked(tree: map<string, Node>, q: Parts)
    decreases |q|
  {
    q != [] && q[0] in tree && tree[q[0]].Branch? && (FILE in tree[q[0]].children || Blocked(tree[q[0]].children, q[1..]))
  }

  lemma {:induction false} BlockedHides(tree: map<string, Node>, q: Parts, r: Parts)
    requires Blocked(tree, q) && q <= r && |q| < |r|
    ensures Locate(tree, r).None?
    decreases |q|
  {
    assert q == [q[0]] + q[1..] && r == [r[0]] + r[1..];
    if FILE !in tree[q[0]].children {
      LocateBranch(tree[q[0]].children, r[1..]);
      BlockedHides(tree[q[0]].children, q[1..], r[1..]);
    }
  }

  lemma {:induction false} InsertFileBlocks(tree: map<string, Node>, q: Parts, raw: string)
    requires q != []
    ensures Blocked(InsertFile(tree, q, raw), q)
    decreases |q|
  {
    if |q| > 1 {
      InsertFileBlocks(Below(tree, q[0]), q[1..], raw);
    }
  }

  lemma {:induction false} BlockedStays(tree: map<string, Node>, q: Parts, q2: Parts, raw: string)
    requires Blocked(tree, q) && q2 != []
    ensures Blocked(InsertFile(tree, q2, raw), q)
    decreases |q2|
  {
    if q2[0] == q[0] && |q2| > 1 {
      InsertFileMarks(Below(tree, q2[0]), q2[1..], raw);
      if FILE !in tree[q[0]].children {
        BlockedStays(tree[q[0]].children, q[1..], q2[1..], raw);
      }
    }
  }

  // ----- Directories stay unless a file replaces them -----

  /** Every node on the way exists and is a map, except perhaps the last, which exists. */
  predicate Chain(tree: map<string, Node>, d: Parts)
    decreases |d|
  {
    d == [] || (d[0] in tree && (|d| == 1 || (tree[d[0]].Branch? && Chain(tree[d[0]].children, d[1..]))))
  }

  lemma {:induction false} InsertDirChain(tree: map<string, Node>, d: Parts)
    ensures Chain(InsertDir(tree, d), d)
    decreases |d|
  {
    if d != [] {
      InsertDirChain(Below(tree, d[0]), d[1..]);
    }
  }

  lemma {:induction false} DirKeepsChain(tree: map<string, Node>, d: Parts, q: Parts)
    requires Chain(tree, d)
    ensures Chain(InsertDir(tree, q), d)
    decreases |d|
  {
    if d != [] && q != [] && q[0] == d[0] && |d| > 1 {
      DirKeepsChain(Below(tree, d[0]), d[1..], q[1..]);
    }
  }

  lemma {:induction false} FileKeepsChain(tree: map<string, Node>, d: Parts, q: Parts, raw: string)
    requires Chain(tree, d) && q != [] && !(q <= d)
    ensures Chain(InsertFile(tree, q, raw), d)
    decreases |d|
  {
    if d != [] && q[0] == d[0] && |d| > 1 {
      assert d == [d[0]] + d[1..] && q == [q[0]] + q[1..];
      if |q| > 1 {
        FileKeepsChain(Below(tree, d[0]), d[1..], q[1..], raw);
      }
    }
  }

  // ----- Soundness -----

  predicate AllValid(q: Parts) {
    forall i :: 0 <= i < |q| ==> ValidName(q[i])
  }

  lemma {:induction false} TailWithout(P: set<Parts>, q: Parts, k: string)
    requires q != []
    ensures Tail(P - {q}, k) == if k == q[0] then Tail(P, k) - {q[1..]} else Tail(P, k)
  {
    forall r ensures r in Tail(P - {q}, k) <==> r in (if k == q[0] then Tail(P, k) - {q[1..]} else Tail(P, k)) {
      var whole := [k] + r;
      assert whole[0] == k && whole[1..] == r;
      assert forall x: Parts :: x != [] && x[0] == k && x[1..] == r ==> x == whole;
      assert q == [q[0]] + q[1..];
      assert r in Tail(P, k) <==> whole in P;
      assert r in Tail(P - {q}, k) <==> whole in P - {q};
    }
  }

  lemma {:induction false} SoundBelow(c: Codecs, t: MetaText, tree: map<string, Node>, P: set<Parts>, k: string)
    requires Sound(c, t, tree, P) && [k] !in P && FILE !in Below(tree, k)
    ensures Sound(c, t, Below(tree, k), Tail(P, k))
  {
  }

  /** Putting in a file that was still to come leaves the tree sound for the others. */
  lemma {:induction false} InsertFileSound(c: Codecs, t: MetaText, tree: map<string, Node>, P: set<Parts>, q: Parts, raw: string)
    requires q != [] && AllValid(q) && Unmarked(q) && Clear(tree, q) && Readable(c, t, raw)
    requires Sound(c, t, tree, P) && forall i :: 0 < i < |q| ==> q[..i] !in P
    ensures Sound(c, t, InsertFile(tree, q, raw), P - {q})
    decreases |q|
  {
    hide ValidName, Readable;
    var after := InsertFile(tree, q, raw);
    if |q| == 1 {
      assert q == [q[0]];
      assert SoundNode(c, t, q[0], FileNode(raw), Tail(P - {q}, q[0]));
    } else {
      var below, children := Below(tree, q[0]), InsertFile(Below(tree, q[0]), q[1..], raw);
      UnmarkedTail(q);
      ClearBelow(tree, q);
      assert q[..1] == [q[0]];
      SoundBelow(c, t, tree, P, q[0]);
      forall i | 0 < i < |q[1..]| ensures q[1..][..i] !in Tail(P, q[0]) {
        assert q[..i + 1] == [q[0]] + q[1..][..i];
        TailHas(P, q[0], q[1..][..i]);
      }
      InsertFileSound(c, t, below, Tail(P, q[0]), q[1..], raw);
      InsertFileMarks(below, q[1..], raw);
      TailWithout(P, q, q[0]);
      SoundBranch(c, t, q[0], children, Tail(P, q[0]) - {q[1..]});
    }
    forall k | k in after && [k] !in P - {q} ensures SoundNode(c, t, k, after[k], Tail(P - {q}, k)) {
      if k != q[0] {
        TailWithout(P, q, k);
        assert SoundNode(c, t, k, tree[k], Tail(P, k));
      }
    }
  }

  lemma {:induction false} SoundBranch(c: Codecs, t: MetaText, k: string, children: map<string, Node>, P: set<Parts>)
    requires ValidName(k) && FILE !in children && Sound(c, t, children, P)
    ensures SoundNode(c, t, k, Branch(children), P)
  {
  }

  lemma {:induction false} TailHas(P: set<Parts>, k: string, r: Parts)
    ensures r in Tail(P, k) <==> [k] + r in P
  {
    var whole := [k] + r;
    assert whole[0] == k && whole[1..] == r;
    assert forall x: Parts :: x != [] && x[0] == k && x[1..] == r ==> x == whole;
  }

  /** The names of a directory path are acceptable as far as no path in P has been reached. */
  predicate Fine(d: Parts, P: set<Parts>) {
    forall i :: 0 <= i < |d| && (forall j :: 0 < j <= i + 1 ==> d[..j] !in P) ==> ValidName(d[i]) && (i > 0 ==> d[i] != FILE)
  }

  ghost predicate NoFiles(tree: map<string, Node>) {
    forall r :: Locate(tree, r).None?
  }

  lemma {:induction false} FineTail(d: Parts, P: set<Parts>)
    requires d != [] && Fine(d, P) && [d[0]] !in P
    ensures ValidName(d[0]) && Fine(d[1..], Tail(P, d[0]))
    ensures |d| > 1 && d[..2] !in P ==> d[1] != FILE
  {
    hide ValidName;
    assert d[..1] == [d[0]];
    var rest, T := d[1..], Tail(P, d[0]);
    forall i | 0 <= i < |rest| && (forall j :: 0 < j <= i + 1 ==> rest[..j] !in T)
      ensures ValidName(rest[i]) && (i > 0 ==> rest[i] != FILE)
    {
      forall j | 0 < j <= i + 2 ensures d[..j] !in P {
        if j > 1 {
          assert d[..j] == [d[0]] + rest[..j - 1];
          TailHas(P, d[0], rest[..j - 1]);
        }
      }
      assert d[i + 1] == rest[i];
    }
    if |d| > 1 && d[..2] !in P {
      forall j | 0 < j <= 2 ensures d[..j] !in P { assert j == 1 || j == 2; }
    }
  }

  lemma {:induction false} NoMarker(c: Codecs, t: MetaText, tree: map<string, Node>, P: set<Parts>, k: string)
    requires Sound(c, t, tree, P) && NoFiles(tree) && [k] !in P
    ensures FILE !in Below(tree, k) && NoFiles(Below(tree, k))
  {
    hide Readable, ValidName;
    if k in tree {
      assert SoundNode(c, t, k, tree[k], Tail(P, k));
      assert Locate(tree, [k]).None?;
      forall r ensures Locate(Below(tree, k), r).None? {
        LocateBranch(Below(tree, k), r);
        assert ([k] + r)[1..] == r;
        assert Locate(tree, [k] + r).None?;
      }
    }
  }

  lemma {:induction false} UnmarkedTails(P: set<Parts>, k: string)
    requires forall r :: r in P ==> Unmarked(r)
    ensures forall r :: r in Tail(P, k) ==> Unmarked(r)
  {
    forall r | r in Tail(P, k) ensures Unmarked(r) {
      TailHas(P, k, r);
      UnmarkedTail([k] + r);
      assert ([k] + r)[1..] == r;
    }
  }

  /** Making a directory keeps a tree without files sound. */
  lemma {:induction false} InsertDirSound(c: Codecs, t: MetaText, tree: map<string, Node>, P: set<Parts>, d: Parts)
    requires Sound(c, t, tree, P) && NoFiles(tree) && Fine(d, P) && forall r :: r in P ==> Unmarked(r)
    ensures Sound(c, t, InsertDir(tree, d), P)
    decreases |d|
  {
    hide ValidName, Readable, Fine, NoFiles, Unmarked;
    if d != [] && [d[0]] !in P {
      var below, children := Below(tree, d[0]), InsertDir(Below(tree, d[0]), d[1..]);
      FineTail(d, P);
      NoMarker(c, t, tree, P, d[0]);
      SoundBelow(c, t, tree, P, d[0]);
      UnmarkedTails(P, d[0]);
      InsertDirSound(c, t, below, Tail(P, d[0]), d[1..]);
      if |d| > 1 {
        InsertDirMarks(below, d[1..]);
        if d[..2] in P { UnmarkedAt(d[..2]); }
      }
      SoundBranch(c, t, d[0], children, Tail(P, d[0]));
    }
  }

  lemma {:induction false} UnmarkedAt(q: Parts)
    requires |q| == 2 && Unmarked(q)
    ensures q[1] != FILE
  {
  }

  /** What a sound tree says about a directory that lies below no file. */
  lemma {:induction false} LiveDirTidy(c: Codecs, t: MetaText, tree: map<string, Node>, d: Parts)
    requires Sound(c, t, tree, {}) && Chain(tree, d) && forall i :: 0 < i <= |d| ==> Locate(tree, d[..i]).None?
    ensures AllValid(d) && Unmarked(d)
    decreases |d|
  {
    hide ValidName, Readable;
    if d != [] {
      TailOfNone(d[0]);
      assert SoundNode(c, t, d[0], tree[d[0]], {});
      assert d[..1] == [d[0]];
      assert Locate(tree, d[..1]).None?;
      var children := tree[d[0]].children;
      assert FILE !in children;
      forall k ensures Tail({}, k) == {} { TailOfNone(k); }
      forall i | 0 < i <= |d[1..]| ensures Locate(children, d[1..][..i]).None? {
        assert d[..i + 1] == [d[0]] + d[1..][..i];
        assert d[..i + 1][1..] == d[1..][..i];
        LocateBranch(children, d[1..][..i]);
        assert Locate(tree, d[..i + 1]).None?;
      }
      LiveDirTidy(c, t, children, d[1..]);
      assert |d| > 1 ==> d[1] in children;
      assert forall i :: 1 <= i < |d| ==> d[i] == d[1..][i - 1];
      forall i | 1 <= i < |d| ensures d[i] != FILE {
        if i > 1 { assert d[1..][i - 1] != FILE; }
      }
    }
  }

  /** What a sound tree says about the path of a file it holds. */
  lemma {:induction false} FoundTidy(c: Codecs, t: MetaText, tree: map<string, Node>, q: Parts)
    requires Sound(c, t, tree, {}) && Locate(tree, q).Some?
    ensures AllValid(q) && Unmarked(q)
    decreases |q|
  {
    hide ValidName, Readable;
    TailOfNone(q[0]);
    assert SoundNode(c, t, q[0], tree[q[0]], {});
    var children := tree[q[0]].children;
    if FILE !in children {
      forall k ensures Tail({}, k) == {} { TailOfNone(k); }
      LocateBranch(children, q[1..]);
      FoundTidy(c, t, children, q[1..]);
      assert q[1] in children;
      assert forall i :: 1 <= i < |q| ==> q[i] == q[1..][i - 1];
      forall i | 1 <= i < |q| ensures q[i] != FILE {
        if i > 1 { assert q[1..][i - 1] != FILE; }
      }
    }
  }
}
