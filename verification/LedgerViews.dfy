/** Directory lists, ledger projections and recorded actions, said member by member. */
module LedgerViews {
  import opened Wrappers
  import opened Bytes
  import opened Json
  import opened Order
  import opened EventLog
  import opened Transition
  import opened Workspaces
  import opened LedgerReplay
  import Shapes

  // ----- Directories -----

  /** d is the path up to one of its slashes. */
  ghost predicate CutAt(p: string, d: string) {
    exists i :: 0 <= i < |p| && p[i] == '/' && p[..i] == d
  }

  /** The directories above a path are its cuts. */
  lemma {:induction false} ParentsExactly(p: string, d: string)
    ensures d in Parents(p) <==> CutAt(p, d)
    decreases |p|
  {
    if '/' in p {
      var k := LastSlash(p);
      ParentsExactly(Parent(p), d);
      assert forall j :: k < j < |p| ==> p[j] == p[k + 1..][j - k - 1];
      if CutAt(Parent(p), d) {
        var i :| 0 <= i < k && p[..k][i] == '/' && p[..k][..i] == d;
        assert p[i] == '/' && p[..i] == d;
      }
      if CutAt(p, d) {
        var i :| 0 <= i < |p| && p[i] == '/' && p[..i] == d;
        if i < k {
          assert p[..k][i] == '/' && p[..k][..i] == d;
        }
      }
    }
  }

  /** A list names its safe entries and the directories above them. */
  lemma {:induction false} ListedExactly(ds: seq<string>, d: string)
    ensures d in Listed(ds) <==> exists i :: 0 <= i < |ds| && SafePath(ds[i]) && (ds[i] == d || d in Parents(ds[i]))
    decreases |ds|
  {
    hide SafePath, Parents;
    if ds != [] {
      var m := |ds| - 1;
      ListedExactly(ds[..m], d);
      if i :| 0 <= i < m && SafePath(ds[..m][i]) && (ds[..m][i] == d || d in Parents(ds[..m][i])) {
        assert SafePath(ds[i]) && (ds[i] == d || d in Parents(ds[i]));
      }
      if i :| 0 <= i < |ds| && SafePath(ds[i]) && (ds[i] == d || d in Parents(ds[i])) {
        assert i < m ==> ds[..m][i] == ds[i];
      }
    }
  }

  /** The directories a workspace lists after a recount: cuts of its files' paths, safe entries listed before, and cuts of those. */
  lemma {:induction false} DirectoriesExactly(s: Space, d: string)
    ensures d in Recalculated(s).directories <==>
            || (exists p :: p in s.files && CutAt(p, d))
            || (exists i :: 0 <= i < |s.directories| && SafePath(s.directories[i]) && (s.directories[i] == d || CutAt(s.directories[i], d)))
    ensures Increasing(Recalculated(s).directories) && Recalculated(s).files == s.files
  {
    hide SafePath, Parents, Listed, CutAt, Above;
    ListedExactly(s.directories, d);
    AboveExactly(s.files.Keys, d);
    forall p ensures d in Parents(p) <==> CutAt(p, d) {
      ParentsExactly(p, d);
    }
  }

  // ----- The projection -----

  /** The entry that describes this file. */
  ghost predicate Describes(c: Codecs, files: Files, e: Entry) {
    e.path in files && e.size == |files[e.path]| && e.sha256 == c.sha(files[e.path]) && e.language == c.language(e.path)
  }

  /**
   * A projection has one entry for every file, in order of path, each with its size, content hash
   * and language; the directories above them, in order; the two counts; and the hash of all that.
   */
  lemma {:induction false} ViewExactly(c: Codecs, hash: View -> string, files: Files)
    ensures var v := ViewOf(c, hash, files);
            && (forall e :: e in v.files ==> Describes(c, files, e))
            && (forall p :: p in files ==> exists e :: e in v.files && e.path == p)
            && (forall i, j :: 0 <= i < j < |v.files| ==> Less(v.files[i].path, v.files[j].path))
            && Increasing(v.directories) && (forall d :: d in v.directories <==> exists p :: p in files && CutAt(p, d))
            && v.fileCount == |v.files| && v.directoryCount == |v.directories|
            && v.hash == hash(v.(hash := ""))
  {
    hide SortedKeys, Parents, CutAt, Less, Above, Describes;
    var v := ViewOf(c, hash, files);
    EntriesExactly(c, files, SortedKeys(files.Keys));
    forall d ensures d in v.directories <==> exists p :: p in files && CutAt(p, d) {
      AboveExactly(files.Keys, d);
    }
  }

  lemma {:induction false} AboveExactly(paths: set<string>, d: string)
    ensures d in Above(paths) <==> exists p :: p in paths && CutAt(p, d)
  {
    hide Parents, CutAt;
    forall p ensures d in Parents(p) <==> CutAt(p, d) {
      ParentsExactly(p, d);
    }
  }

  lemma {:induction false} EntriesExactly(c: Codecs, files: Files, paths: seq<string>)
    requires Increasing(paths) && forall p :: p in paths <==> p in files
    ensures var es := EntriesOf(c, files, paths);
            && (forall e :: e in es ==> Describes(c, files, e))
            && (forall p :: p in files ==> exists e :: e in es && e.path == p)
            && (forall i, j :: 0 <= i < j < |es| ==> Less(es[i].path, es[j].path))
  {
    hide Less;
    var es := EntriesOf(c, files, paths);
    assert forall i :: 0 <= i < |paths| ==> es[i] == EntryOf(c, paths[i], files[paths[i]]) && paths[i] in paths;
    forall p | p in files ensures exists e :: e in es && e.path == p {
      var i :| 0 <= i < |paths| && paths[i] == p;
      assert es[i] in es;
    }
  }

  // ----- The action of an event -----

  /** The result data of an accepted transition names this action, with these details. */
  ghost predicate Names(raw: Raw, action: string, details: map<string, Value>) {
    && raw.Json? && raw.v.Obj?
    && var m := raw.v.fields;
       && action != "" && "legacy_action" in m && m["legacy_action"] == Str(action)
       && Shapes.ObjectLike(m, "legacy_details") && details == Shapes.Within(m, "legacy_details")
  }

  /**
   * What an event is to a replay: if it is not of the authority's kind, its own action and details,
   * provided it was accepted; if it is, those that the result data of its transition name.
   */
  lemma {:induction false} ActionExactly(ev: Event, l: Legacy)
    ensures LegacyOf(ev) == Some(l) <==>
            ev.status == "accepted" &&
            if ev.kind != "transition.authority.accepted" then l == Legacy(ev.action, ev.details, ev.workspaceID)
            else
              ev.action == "transition.accepted" && "accepted_transition" in ev.details &&
              var t := DecodeAccepted(ev.details["accepted_transition"]);
              t.Some? && t.value.proposal.entity == l.workspace && Names(t.value.proposal.resultData, l.action, l.details)
  {
    hide DecodeAccepted;
    if ev.kind == ACCEPTED_KIND && DETAIL in ev.details && DecodeAccepted(ev.details[DETAIL]).Some? {
      var x := DecodeAccepted(ev.details[DETAIL]).value.proposal;
      ResultExactly(x.resultData, x.entity, l);
    }
    hide ResultOf, Names;
  }

  lemma {:induction false} ResultExactly(raw: Raw, workspace: string, l: Legacy)
    ensures ResultOf(raw, workspace) == Some(l) <==> workspace == l.workspace && Names(raw, l.action, l.details)
  {
    if raw.Json? && raw.v.Obj? {
      var m := raw.v.fields;
      Shapes.FieldsExactly(m, "legacy_action");
      Shapes.FieldsExactly(m, "legacy_details");
    }
  }
}
