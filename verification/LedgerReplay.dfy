/** Replaying build-ledger files out of event history, and the projection both sides are compared by. */
module LedgerReplay {
  import opened Wrappers
  import opened Bytes
  import opened Json
  import opened Members
  import opened Order
  import opened EventLog
  import opened Transition
  import opened Workspaces

  const BASELINE := "build_ledger.baseline.recorded"

  const MUTATIONS := {
    "build_ledger.state.updated", "build_ledger.event.appended", "build_ledger.run.created",
    "build_ledger.receipt.created", "build_ledger.verification.created"}

  const LEDGER := "build-ledger/"

  // ----- Reading an event -----

  datatype Legacy = Legacy(action: string, details: map<string, Value>, workspace: string)

  /** The result data of an accepted transition as an action with details. */
  function ResultOf(raw: Raw, workspace: string): Option<Legacy> {
    if !raw.Json? || !raw.v.Obj? then None else
      var action, details := StrField(raw.v.fields, "legacy_action"), ObjField(raw.v.fields, "legacy_details");
      if action.None? || details.None? || action.value == "" then None
      else Some(Legacy(action.value, details.value, workspace))
  }

  /** legacyTransition: the typed envelope of the authority, or an event of the earlier kind as it is. */
  function LegacyOf(ev: Event): Option<Legacy> {
    if ev.kind != ACCEPTED_KIND then
      if ev.status != "accepted" then None else Some(Legacy(ev.action, ev.details, ev.workspaceID))
    else if ev.status != "accepted" || ev.action != ACTION || DETAIL !in ev.details then None
    else
      var accepted := DecodeAccepted(ev.details[DETAIL]);
      if accepted.None? then None else ResultOf(accepted.value.proposal.resultData, accepted.value.proposal.entity)
  }

  // ----- Replaying files -----

  type Files = map<string, seq<Byte>>

  /** The files of a baseline that decode and lie in the ledger. */
  function BaselineFiles(c: Codecs, m: map<string, Value>): Files {
    map p | p in m && m[p].Str? && HasPrefix(p, LEDGER) && c.unbase64(m[p].s).Some? :: c.unbase64(m[p].s).value
  }

  /** A string member; anything else reads as empty. */
  function TextOf(m: map<string, Value>, key: string): string {
    if key in m && m[key].Str? then m[key].s else ""
  }

  /** What one event of the workspace does to the files. */
  function Effect(c: Codecs, files: Files, l: Legacy): Files {
    if l.action == BASELINE then
      if "files" in l.details && l.details["files"].Obj? then files + BaselineFiles(c, l.details["files"].fields) else files
    else if l.action !in MUTATIONS then files
    else
      var p, text := TextOf(l.details, "path"), TextOf(l.details, "content_base64");
      if p == "" || text == "" || !HasPrefix(p, LEDGER) || c.unbase64(text).None? then files
      else files[p := c.unbase64(text).value]
  }

  function ReplayStep(c: Codecs, files: Files, ev: Event, workspace: string): Files {
    var l := LegacyOf(ev);
    if l.None? || l.value.workspace != workspace then files else Effect(c, files, l.value)
  }

  /** The files a history leaves a workspace with. */
  function ReplayFiles(c: Codecs, events: seq<Event>, workspace: string): Files {
    if events == [] then map[] else
      ReplayStep(c, ReplayFiles(c, events[..|events| - 1], workspace), events[|events| - 1], workspace)
  }

  /** The loop over the members of a baseline. */
  method AddBaseline(c: Codecs, before: Files, m: map<string, Value>) returns (files: Files)
    ensures files == before + BaselineFiles(c, m)
  {
    files := before;
    var todo := m.Keys;
    ghost var done: map<string, Value> := map[];
    assert before + BaselineFiles(c, done) == before;
    while todo != {}
      invariant todo <= m.Keys && done.Keys == m.Keys - todo && (forall p :: p in done ==> done[p] == m[p])
      invariant files == before + BaselineFiles(c, done)
      decreases todo
    {
      var p :| p in todo;
      todo := todo - {p};
      BaselineGrows(c, before, done, p, m[p]);
      done := done[p := m[p]];
      if m[p].Str? && HasPrefix(p, LEDGER) {
        var data := c.unbase64(m[p].s);
        if data.Some? {
          files := files[p := data.value];
        }
      }
    }
    assert done == m;
  }

  lemma {:induction false} BaselineGrows(c: Codecs, before: Files, done: map<string, Value>, p: string, v: Value)
    requires p !in done
    ensures before + BaselineFiles(c, done[p := v]) ==
            if v.Str? && HasPrefix(p, LEDGER) && c.unbase64(v.s).Some? then (before + BaselineFiles(c, done))[p := c.unbase64(v.s).value]
            else before + BaselineFiles(c, done)
  {
    hide HasPrefix;
  }

  /** BuildLedgerProjectionFromEvents, up to the projection of the files. */
  method BuildFiles(c: Codecs, events: seq<Event>, workspace: string) returns (files: Files)
    ensures files == ReplayFiles(c, events, workspace)
  {
    hide LegacyOf, BaselineFiles, HasPrefix;
    files := map[];
    var i := 0;
    while i < |events|
      invariant 0 <= i <= |events|
      invariant files == ReplayFiles(c, events[..i], workspace)
    {
      assert events[..i + 1][..i] == events[..i];
      var l := LegacyOf(events[i]);
      if l.Some? && l.value.workspace == workspace {
        files := ApplyLegacy(c, files, l.value);
      }
      i := i + 1;
    }
    assert events[..i] == events;
  }

  /** The switch on the action. */
  method ApplyLegacy(c: Codecs, before: Files, l: Legacy) returns (files: Files)
    ensures files == Effect(c, before, l)
  {
    hide BaselineFiles, HasPrefix;
    files := before;
    if l.action == BASELINE {
      if "files" in l.details && l.details["files"].Obj? {
        files := AddBaseline(c, files, l.details["files"].fields);
      }
      return;
    }
    if l.action !in MUTATIONS {
      return;
    }
    var p, text := TextOf(l.details, "path"), TextOf(l.details, "content_base64");
    if p == "" || text == "" {
      return;
    }
    if !HasPrefix(p, LEDGER) {
      return;
    }
    var data := c.unbase64(text);
    if data.None? {
      return;
    }
    files := files[p := data.value];
  }

  // ----- The projection -----

  datatype Entry = Entry(path: string, size: nat, sha256: string, language: string)

  datatype View = View(fileCount: nat, directoryCount: nat, files: seq<Entry>, directories: seq<string>, hash: string)

  function EntryOf(c: Codecs, p: string, data: seq<Byte>): Entry {
    Entry(p, |data|, c.sha(data), c.language(p))
  }

  function EntriesOf(c: Codecs, files: Files, paths: seq<string>): seq<Entry>
    requires forall p :: p in paths ==> p in files
  {
    seq(|paths|, i requires 0 <= i < |paths| => EntryOf(c, paths[i], files[paths[i]]))
  }

  /** The projection before it has a hash. */
  ghost function Unhashed(c: Codecs, files: Files): View {
    var paths, dirs := SortedKeys(files.Keys), SortedKeys(Above(files.Keys));
    View(|paths|, |dirs|, EntriesOf(c, files, paths), dirs, "")
  }

  /** BuildFromFiles. */
  ghost function ViewOf(c: Codecs, hash: View -> string, files: Files): View {
    Unhashed(c, files).(hash := hash(Unhashed(c, files)))
  }

  method BuildFromFiles(c: Codecs, hash: View -> string, files: Files) returns (v: View)
    ensures v == ViewOf(c, hash, files)
  {
    hide SortedKeys;
    var paths := Sort(files.Keys);
    var entries := [];
    var i := 0;
    while i < |paths|
      invariant 0 <= i <= |paths| && entries == EntriesOf(c, files, paths[..i])
    {
      var p := paths[i];
      entries := entries + [Entry(p, |files[p]|, c.sha(files[p]), c.language(p))];
      i := i + 1;
    }
    assert paths[..i] == paths;
    var dirs := AboveFiles(files.Keys);
    var list := Sort(dirs);
    v := View(|paths|, |list|, entries, list, "");
    v := v.(hash := hash(v));
  }

  /** The build-ledger part of a workspace. */
  function LedgerFiles(files: map<string, File>): Files {
    map p | p in files && HasPrefix(p, LEDGER) :: files[p].data
  }

  /** BuildLedgerFromWorkspace, up to the projection. */
  method CollectLedger(files: map<string, File>) returns (ledger: Files)
    ensures ledger == LedgerFiles(files)
  {
    ledger := map[];
    var todo := files.Keys;
    while todo != {}
      invariant todo <= files.Keys
      invariant ledger == map p | p in files && p !in todo && HasPrefix(p, LEDGER) :: files[p].data
      decreases todo
    {
      var p :| p in todo;
      todo := todo - {p};
      if HasPrefix(p, LEDGER) {
        ledger := ledger[p := files[p].data];
      }
    }
  }

  /** The hashes tell these two file maps apart: no collision of contents, none of the projections. */
  ghost predicate ToldApart(c: Codecs, hash: View -> string, a: Files, b: Files) {
    && (forall k :: k in a && k in b && c.sha(a[k]) == c.sha(b[k]) ==> a[k] == b[k])
    && (hash(Unhashed(c, a)) == hash(Unhashed(c, b)) ==> Unhashed(c, a) == Unhashed(c, b))
  }

  lemma {:induction false} EntriesDiffer(c: Codecs, a: Files, b: Files, k: string)
    requires k in SortedKeys(a.Keys) && Unhashed(c, a).files == Unhashed(c, b).files
    ensures k in b && c.sha(a[k]) == c.sha(b[k])
  {
    hide SortedKeys;
    var ks, ls := SortedKeys(a.Keys), SortedKeys(b.Keys);
    var i :| 0 <= i < |ks| && ks[i] == k;
    assert Unhashed(c, a).files[i] == EntryOf(c, k, a[k]);
    assert Unhashed(c, b).files[i] == EntryOf(c, ls[i], b[ls[i]]);
    assert ls[i] in ls;
  }

  /** Equivalent projections are projections of the same files, content for content. */
  lemma {:induction false} EquivalentExactly(c: Codecs, hash: View -> string, a: Files, b: Files)
    requires ToldApart(c, hash, a, b)
    ensures ViewOf(c, hash, a).hash == ViewOf(c, hash, b).hash <==> a == b
  {
    if ViewOf(c, hash, a).hash == ViewOf(c, hash, b).hash {
      assert Unhashed(c, a) == Unhashed(c, b);
      hide Unhashed, SortedKeys;
      forall k | k in a ensures k in b && a[k] == b[k] {
        assert k in SortedKeys(a.Keys);
        EntriesDiffer(c, a, b, k);
      }
      forall k | k in b ensures k in a {
        assert k in SortedKeys(b.Keys);
        EntriesDiffer(c, b, a, k);
      }
    }
  }

  // ----- How files change -----

  /** An upsert changes the ledger at one path, if that path is in it. */
  lemma {:induction false} LedgerAfter(c: Codecs, s: Space, p: string, data: seq<Byte>)
    requires Upsert(c, s, p, data).Some?
    ensures LedgerFiles(Upsert(c, s, p, data).value.files)
         == if HasPrefix(p, LEDGER) then LedgerFiles(s.files)[p := data] else LedgerFiles(s.files)
  {
    hide SafePath, HasPrefix, Upsert, NewFile, LedgerFiles;
    UpsertPuts(c, s, p, data);
    LedgerOfPut(s.files, p, NewFile(c, s.files, p, data));
  }

  lemma {:induction false} UpsertPuts(c: Codecs, s: Space, p: string, data: seq<Byte>)
    requires Upsert(c, s, p, data).Some?
    ensures Upsert(c, s, p, data).value.files == s.files[p := NewFile(c, s.files, p, data)]
    ensures NewFile(c, s.files, p, data).data == data
  {
    hide SafePath, SortedKeys, Directories, Utf8Decode;
  }

  lemma {:induction false} LedgerOfPut(files: map<string, File>, p: string, f: File)
    ensures LedgerFiles(files[p := f]) == if HasPrefix(p, LEDGER) then LedgerFiles(files)[p := f.data] else LedgerFiles(files)
  {
    hide HasPrefix;
  }

  lemma {:induction false} ReplayAppend(c: Codecs, events: seq<Event>, ev: Event, workspace: string)
    ensures ReplayFiles(c, events + [ev], workspace) == ReplayStep(c, ReplayFiles(c, events, workspace), ev, workspace)
  {
    hide ReplayStep;
    assert (events + [ev])[..|events|] == events;
  }

  /** A file that replaying this text at this path would set: it lies in the ledger and decodes. */
  predicate Sets(c: Codecs, p: string, text: string) {
    HasPrefix(p, LEDGER) && c.unbase64(text).Some?
  }

  /** The files already hold what replaying this action with these details would set, if it would set anything. */
  ghost predicate SetsNothingNew(c: Codecs, files: Files, action: string, details: map<string, Value>) {
    if action == BASELINE then
      "files" in details && details["files"].Obj? ==>
        var m := details["files"].fields;
        forall p :: p in m && m[p].Str? && Sets(c, p, m[p].s) ==> p in files && files[p] == c.unbase64(m[p].s).value
    else
      var p, text := TextOf(details, "path"), TextOf(details, "content_base64");
      action in MUTATIONS && text != "" && Sets(c, p, text) ==> p in files && files[p] == c.unbase64(text).value
  }

  /**
   * Exactly when an event of another kind leaves the replayed files of a workspace as they are:
   * it is not accepted, it is of another workspace, or what its action and details would set
   * is nothing (an action that is not replayed, no ledger path, undecodable content) or is
   * there already.
   */
  lemma {:induction false} OtherKindReplaysExactly(c: Codecs, events: seq<Event>, ev: Event, workspace: string)
    requires ev.kind != ACCEPTED_KIND
    ensures var files := ReplayFiles(c, events, workspace);
            ReplayFiles(c, events + [ev], workspace) == files <==>
            ev.status != "accepted" || ev.workspaceID != workspace || SetsNothingNew(c, files, ev.action, ev.details)
  {
    hide HasPrefix, Effect, SetsNothingNew;
    ReplayAppend(c, events, ev, workspace);
    EffectKeepsExactly(c, ReplayFiles(c, events, workspace), Legacy(ev.action, ev.details, ev.workspaceID));
    hide ReplayFiles;
  }

  /** The events that the authority admitted. */
  function AdmittedOnly(events: seq<Event>): seq<Event> {
    if events == [] then [] else
      var before, last := AdmittedOnly(events[..|events| - 1]), events[|events| - 1];
      if last.kind == ACCEPTED_KIND then before + [last] else before
  }

  /** The event at this place is admitted, or leaves the files of the workspace as they are. */
  ghost predicate QuietAt(c: Codecs, events: seq<Event>, workspace: string, k: nat)
    requires k < |events|
  {
    var ev := events[k];
    ev.kind == ACCEPTED_KIND || ev.status != "accepted" || ev.workspaceID != workspace
    || SetsNothingNew(c, ReplayFiles(c, events[..k], workspace), ev.action, ev.details)
  }

  /** At every moment of the history, replay sees the admitted events only. */
  ghost predicate SeesAdmittedOnly(c: Codecs, events: seq<Event>, workspace: string) {
    forall k :: 0 <= k <= |events| ==>
      ReplayFiles(c, events[..k], workspace) == ReplayFiles(c, AdmittedOnly(events[..k]), workspace)
  }

  /**
   * Exactly when the claim that events of other kinds cannot change the replayed files holds of
   * a history, all along: every one of them is quiet at its place.
   */
  lemma {:induction false} OtherKindsUnseenExactly(c: Codecs, events: seq<Event>, workspace: string)
    ensures SeesAdmittedOnly(c, events, workspace) <==> forall k: nat :: k < |events| ==> QuietAt(c, events, workspace, k)
    decreases |events|
  {
    hide ReplayFiles, AdmittedOnly, SetsNothingNew;
    if events == [] {
      NothingSeen(c, events, workspace);
    } else {
      var m := |events| - 1;
      var before := events[..m];
      OtherKindsUnseenExactly(c, before, workspace);
      LastSeen(c, before, events[m], workspace);
      assert events == before + [events[m]];
      assert events[..m] == before && events[..|events|] == events;
      forall k | 0 <= k <= m ensures before[..k] == events[..k] {
      }
      assert SeesAdmittedOnly(c, events, workspace) <==>
               SeesAdmittedOnly(c, before, workspace)
               && ReplayFiles(c, events, workspace) == ReplayFiles(c, AdmittedOnly(events), workspace);
      forall k: nat | k < m ensures QuietAt(c, events, workspace, k) <==> QuietAt(c, before, workspace, k) {
        assert before[k] == events[k] && before[..k] == events[..k];
      }
      assert (forall k: nat :: k < |events| ==> QuietAt(c, events, workspace, k)) <==>
               (forall k: nat :: k < m ==> QuietAt(c, before, workspace, k)) && QuietAt(c, events, workspace, m);
      if SeesAdmittedOnly(c, before, workspace) {
        assert before[..m] == before;
        assert ReplayFiles(c, before, workspace) == ReplayFiles(c, AdmittedOnly(before), workspace);
      }
    }
  }

  lemma {:induction false} NothingSeen(c: Codecs, events: seq<Event>, workspace: string)
    requires events == []
    ensures SeesAdmittedOnly(c, events, workspace)
  {
    assert AdmittedOnly(events) == [];
  }

  /** One more event, if replay saw admitted events only so far. */
  lemma {:induction false} LastSeen(c: Codecs, before: seq<Event>, ev: Event, workspace: string)
    ensures ReplayFiles(c, before, workspace) == ReplayFiles(c, AdmittedOnly(before), workspace) ==>
              (ReplayFiles(c, before + [ev], workspace) == ReplayFiles(c, AdmittedOnly(before + [ev]), workspace)
               <==> QuietAt(c, before + [ev], workspace, |before|))
  {
    hide ReplayFiles, ReplayStep, SetsNothingNew;
    assert (before + [ev])[..|before|] == before && (before + [ev])[|before|] == ev;
    ReplayAppend(c, before, ev, workspace);
    if ev.kind == ACCEPTED_KIND {
      ReplayAppend(c, AdmittedOnly(before), ev, workspace);
    } else {
      OtherKindReplaysExactly(c, before, ev, workspace);
    }
  }

  lemma {:induction false} EffectKeepsExactly(c: Codecs, files: Files, l: Legacy)
    ensures Effect(c, files, l) == files <==> SetsNothingNew(c, files, l.action, l.details)
  {
    PrefixNotEmpty(TextOf(l.details, "path"));
    hide HasPrefix;
    if l.action == BASELINE && "files" in l.details && l.details["files"].Obj? {
      BaselineKeepsExactly(c, files, l.details["files"].fields);
    } else if l.action != BASELINE && l.action in MUTATIONS {
      var p, text := TextOf(l.details, "path"), TextOf(l.details, "content_base64");
      if text != "" && Sets(c, p, text) {
        PutKeeps(files, p, c.unbase64(text).value);
      }
    }
  }

  lemma {:induction false} PutKeeps(files: Files, p: string, data: seq<Byte>)
    ensures files[p := data] == files <==> p in files && files[p] == data
  {
    assert p in files[p := data] && files[p := data][p] == data;
  }

  lemma {:induction false} BaselineKeepsExactly(c: Codecs, files: Files, m: map<string, Value>)
    ensures files + BaselineFiles(c, m) == files <==>
            forall p :: p in m && m[p].Str? && Sets(c, p, m[p].s) ==> p in files && files[p] == c.unbase64(m[p].s).value
  {
    hide HasPrefix;
    var more := BaselineFiles(c, m);
    if files + more == files {
      forall p | p in m && m[p].Str? && Sets(c, p, m[p].s) ensures p in files && files[p] == c.unbase64(m[p].s).value {
        assert p in more && (files + more)[p] == more[p];
      }
    }
  }

  /** An accepted event of another kind replays by its own action: it can set a ledger file although no transition was admitted. */
  lemma {:induction false} OpaqueEventReplays(c: Codecs, ev: Event, p: string, data: seq<Byte>)
    requires GoodCodecs(c) && ev.kind != ACCEPTED_KIND && ev.status == "accepted" && ev.action == "build_ledger.state.updated"
    requires ev.details == map["path" := Str(p)]["content_base64" := Str(c.base64(data))]
    requires HasPrefix(p, LEDGER) && data != []
    ensures ReplayFiles(c, [ev], ev.workspaceID) == map[p := data]
  {
    hide HasPrefix;
    assert |"path"| == 4 && |"content_base64"| == 14 && |BASELINE| == 30 && |ev.action| == 26;
    assert p != "" by { PrefixNotEmpty(p); }
    assert [ev][..0] == [];
    assert TextOf(ev.details, "path") == p && TextOf(ev.details, "content_base64") == c.base64(data);
    assert c.unbase64(c.base64(data)) == Some(data);
    assert ReplayFiles(c, [ev], ev.workspaceID) == ReplayStep(c, map[], ev, ev.workspaceID);
  }

  lemma {:induction false} PrefixNotEmpty(p: string)
    ensures HasPrefix(p, LEDGER) ==> p != ""
  {
    assert |LEDGER| == 13;
  }
}
