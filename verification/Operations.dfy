/** The mutating operations as they run: over the live authority and the live workspace. */
module Operations {
  import opened Wrappers
  import opened Bytes
  import opened Json
  import opened Decimal
  import opened EventLog
  import opened Transition
  import opened AuthorityService
  import opened AuthorityRestart
  import opened Workspaces
  import opened LedgerReplay
  import opened ServerOps
  import LogService
  import Text

  /** recordTransition, with a receipt that can be saved. */
  method RecordOn(a: Authority, workspace: string, action: string, details: map<string, Value>, req: Req) returns (ok: bool)
    requires a.Valid()
    modifies a, a.writer`sequence, a.writer`lastHash, a.writer`mirror, a.writer.recorder
    ensures a.Valid()
    ensures var (auth, log, n, r) :=
              ProposeStep(a.writer.p, a.writer.configured, a.policy, old(a.Model()), old(a.writer.Model()), old(a.writer.recorder.Model()),
                          ProposalOf(old(a.Model()), workspace, action, details, req), req.now, req.h);
            a.Model() == auth && a.writer.Model() == log && a.writer.recorder.Model() == n && ok == r.Success?
  {
    hide ProposeStep, ProposalOf;
    var r := a.Propose(ProposalOf(a.Model(), workspace, action, details, req), req.now, req.h);
    ok := r.Success?;
  }

  /** Candidate, transition, live file: what passed as a candidate cannot fail once it is admitted. */
  method MutateFile(a: Authority, ws: Workspace, id: string, action: string, details: map<string, Value>, req: Req, p: string, data: seq<Byte>)
    returns (f: Option<File>)
    requires a.Valid()
    modifies a, a.writer`sequence, a.writer`lastHash, a.writer`mirror, a.writer.recorder, ws
    ensures a.Valid()
    ensures var candidate := Upsert(ws.c, old(ws.Model()), p, data);
            var (auth, log, n, r) :=
              ProposeStep(a.writer.p, a.writer.configured, a.policy, old(a.Model()), old(a.writer.Model()), old(a.writer.recorder.Model()),
                          ProposalOf(old(a.Model()), id, action, details, req), req.now, req.h);
            if candidate.None? then
              f.None? && a.Model() == old(a.Model()) && a.writer.Model() == old(a.writer.Model())
              && a.writer.recorder.Model() == old(a.writer.recorder.Model()) && ws.Model() == old(ws.Model())
            else
              && a.Model() == auth && a.writer.Model() == log && a.writer.recorder.Model() == n && (f.Some? <==> r.Success?)
              && ws.Model() == (if r.Success? then candidate.value else old(ws.Model()))
              && (f.Some? ==> f.value == NewFile(ws.c, old(ws.files), p, data))
  {
    hide ProposeStep, ProposalOf, SafePath, NewFile, Recalculated;
    var copy := ws.Copy();
    f := copy.UpsertFile(p, data);
    if f.None? {
      return;
    }
    var ok := RecordOn(a, id, action, details, req);
    if !ok {
      return None;
    }
    var live := ws.UpsertFile(p, data);
    assert live == f;
  }

  /** opUpdateState, after the body has been validated. */
  method UpdateState(a: Authority, ws: Workspace, id: string, body: seq<Byte>, req: Req) returns (f: Option<File>)
    requires a.Valid()
    modifies a, a.writer`sequence, a.writer`lastHash, a.writer`mirror, a.writer.recorder, ws
    ensures a.Valid()
    ensures var details := WriteDetails(ws.c, old(ws.Model()), STATE_FILE, body, map["new_size" := Int(|body|)]);
            var candidate := Upsert(ws.c, old(ws.Model()), STATE_FILE, body);
            var (auth, log, n, r) :=
              ProposeStep(a.writer.p, a.writer.configured, a.policy, old(a.Model()), old(a.writer.Model()), old(a.writer.recorder.Model()),
                          ProposalOf(old(a.Model()), id, "build_ledger.state.updated", details, req), req.now, req.h);
            && candidate.Some?
            && a.Model() == auth && a.writer.Model() == log && a.writer.recorder.Model() == n && (f.Some? <==> r.Success?)
            && ws.Model() == (if r.Success? then candidate.value else old(ws.Model()))
            && (f.Some? ==> f.value == NewFile(ws.c, old(ws.files), STATE_FILE, body))
  {
    hide ProposeStep, ProposalOf, WriteDetails, Upsert, Dec, NewFile;
    LedgerFilesAreSafe(ws.c, ws.Model(), body);
    f := MutateFile(a, ws, id, "build_ledger.state.updated",
                    WriteDetails(ws.c, ws.Model(), STATE_FILE, body, map["new_size" := Int(|body|)]), req, STATE_FILE, body);
  }

  /** opAppendEvent, after the line has been validated. */
  method AppendEvent(a: Authority, ws: Workspace, id: string, line: seq<Byte>, eventID: Value, req: Req) returns (f: Option<File>)
    requires a.Valid()
    modifies a, a.writer`sequence, a.writer`lastHash, a.writer`mirror, a.writer.recorder, ws
    ensures a.Valid()
    ensures var data := Appended(DataOf(old(ws.Model()), EVENTS_FILE), line);
            var details := WriteDetails(ws.c, old(ws.Model()), EVENTS_FILE, data, map["event" := eventID]);
            var candidate := AppendTo(ws.c, old(ws.Model()), EVENTS_FILE, line);
            var (auth, log, n, r) :=
              ProposeStep(a.writer.p, a.writer.configured, a.policy, old(a.Model()), old(a.writer.Model()), old(a.writer.recorder.Model()),
                          ProposalOf(old(a.Model()), id, "build_ledger.event.appended", details, req), req.now, req.h);
            && candidate.Some?
            && a.Model() == auth && a.writer.Model() == log && a.writer.recorder.Model() == n && (f.Some? <==> r.Success?)
            && ws.Model() == (if r.Success? then candidate.value else old(ws.Model()))
            && (f.Some? ==> f.value == NewFile(ws.c, old(ws.files), EVENTS_FILE, data))
  {
    hide ProposeStep, ProposalOf, WriteDetails, Upsert, Appended, DataOf, SafePath, NewFile, AppendTo;
    LedgerFilesAreSafe(ws.c, ws.Model(), line);
    var copy := ws.Copy();
    f := copy.AppendToFile(EVENTS_FILE, line);
    if f.None? {
      return;
    }
    var ok := RecordOn(a, id, "build_ledger.event.appended",
                       WriteDetails(ws.c, ws.Model(), EVENTS_FILE, f.value.data, map["event" := eventID]), req);
    if !ok {
      return None;
    }
    var live := ws.AppendToFile(EVENTS_FILE, line);
    assert live == f;
  }

  /** A path of three plain segments is safe. */
  lemma {:induction false} ThreeSegmentsAreSafe(a: string, b: string, c: string)
    requires '/' !in a && '/' !in b && '/' !in c && a != "" && b != "" && c != "" && a != "." && b != "." && c != "."
    requires var p := a + ['/'] + (b + ['/'] + c); 0 as char !in p && !HasDots(p)
    ensures SafePath(a + ['/'] + (b + ['/'] + c))
  {
    hide HasDots;
    var pieces := [a, b, c];
    Text.SplitJoin(pieces, '/');
    assert pieces[1..] == [b, c] && [b, c][1..] == [c];
    assert Text.Join([b, c], '/') == b + ['/'] + c;
    assert Text.Join(pieces, '/') == a + ['/'] + (b + ['/'] + c);
  }

  /** The two fixed ledger paths are safe, so a candidate for them never fails. */
  lemma {:induction false} LedgerFilesAreSafe(cs: Codecs, s: Space, data: seq<Byte>)
    ensures SafePath(STATE_FILE) && SafePath(EVENTS_FILE)
    ensures Upsert(cs, s, STATE_FILE, data).Some? && AppendTo(cs, s, EVENTS_FILE, data).Some?
  {
    StatePath();
    EventsPath();
    hide SafePath, Directories, Appended;
  }

  lemma {:induction false} StatePath()
    ensures SafePath(STATE_FILE)
  {
    var a, b, c := "build-ledger", "current", "state.yaml";
    assert STATE_FILE == a + ['/'] + (b + ['/'] + c);
    assert |STATE_FILE| == 31 && forall i :: 0 <= i < 31 && STATE_FILE[i] == '.' ==> i == 26;
    hide SafePath;
    ThreeSegmentsAreSafe(a, b, c);
  }

  lemma {:induction false} EventsPath()
    ensures SafePath(EVENTS_FILE)
  {
    var a, b, c := "build-ledger", "events", "ledger.jsonl";
    assert EVENTS_FILE == a + ['/'] + (b + ['/'] + c);
    assert |EVENTS_FILE| == 32 && forall i :: 0 <= i < 32 && EVENTS_FILE[i] == '.' ==> i == 26;
    hide SafePath;
    ThreeSegmentsAreSafe(a, b, c);
  }

  /** opCreateDocument, after the document has been validated. */
  method CreateDocument(a: Authority, ws: Workspace, id: string, kind: Kind, docID: string, body: seq<Byte>, req: Req) returns (f: Option<File>)
    requires a.Valid()
    modifies a, a.writer`sequence, a.writer`lastHash, a.writer`mirror, a.writer.recorder, ws
    ensures a.Valid()
    ensures var p := DocumentPath(kind, docID);
            var details := WriteDetails(ws.c, old(ws.Model()), p, body, map["doc_id" := Str(docID)]);
            var candidate := Upsert(ws.c, old(ws.Model()), p, body);
            var (auth, log, n, r) :=
              ProposeStep(a.writer.p, a.writer.configured, a.policy, old(a.Model()), old(a.writer.Model()), old(a.writer.recorder.Model()),
                          ProposalOf(old(a.Model()), id, CreatedBy(kind), details, req), req.now, req.h);
            if candidate.None? then
              f.None? && a.Model() == old(a.Model()) && a.writer.Model() == old(a.writer.Model())
              && a.writer.recorder.Model() == old(a.writer.recorder.Model()) && ws.Model() == old(ws.Model())
            else
              && a.Model() == auth && a.writer.Model() == log && a.writer.recorder.Model() == n && (f.Some? <==> r.Success?)
              && ws.Model() == (if r.Success? then candidate.value else old(ws.Model()))
              && (f.Some? ==> f.value == NewFile(ws.c, old(ws.files), p, body))
  {
    hide ProposeStep, ProposalOf, WriteDetails, Upsert, DocumentPath, CreatedBy, NewFile;
    var p := DocumentPath(kind, docID);
    f := MutateFile(a, ws, id, CreatedBy(kind), WriteDetails(ws.c, ws.Model(), p, body, map["doc_id" := Str(docID)]), req, p, body);
  }

  /** opVerifyReplay: None when the history cannot be read or does not rebuild. */
  method VerifyReplay(writer: LogService.Service, policy: (Normal, Projection) -> bool, cs: Codecs, hash: View -> string,
                      ws: Workspace, id: string, reachable: bool) returns (same: Option<bool>)
    requires writer.Valid()
    modifies writer`sequence, writer`lastHash
    ensures var events := Refresh(writer.p, writer.configured, old(writer.Model()), writer.recorder.Model(), reachable).1;
            && (same.Some? <==> events.Some? && Rebuild(writer.p, events.value).Some?)
            && (same.Some? ==> (same.value <==> ViewOf(cs, hash, LedgerFiles(ws.files)).hash == ViewOf(cs, hash, ReplayFiles(cs, events.value, id)).hash))
  {
    hide Refresh, Rebuild, ViewOf, ReplayFiles, LedgerFiles;
    var events := writer.RustAcknowledgedEvents(reachable);
    if events.None? {
      return None;
    }
    var rebuilt := RebuildAuthority(events.value, writer, policy);
    if rebuilt.None? {
      return None;
    }
    var ledger := CollectLedger(ws.files);
    var current := BuildFromFiles(cs, hash, ledger);
    var files := BuildFiles(cs, events.value, id);
    var replayed := BuildFromFiles(cs, hash, files);
    return Some(current.hash == replayed.hash);
  }
}
