/**
 * The two operations that can leave replay behind the live ledger: exactly when each does, and
 * for each a run from the start that does.
 */
module ReplayGaps {
  import opened Wrappers
  import opened Bytes
  import opened Json
  import opened RecordCodec
  import opened Ledger
  import opened LedgerTheory
  import opened EventLog
  import opened EventLogTheory
  import opened Transition
  import TransitionTheory
  import opened Protocol
  import opened Safety
  import opened Recovery
  import opened LostReplies
  import opened Restarts
  import Text
  import opened Workspaces
  import opened LedgerReplay
  import opened ServerOps
  import opened ReplayEquivalence

  // ----- Exactly when -----

  /** The operation is admitted: its transitions succeed and, for a blob, its path is safe and its workspace known. */
  ghost predicate TakesEffect(c: Config, cs: Codecs, s: Server, op: Op)
    requires s.sys.auth.Some?
  {
    match op
    case AdmitBlob(id, target, data, details, req) =>
      id in s.spaces && SafePath(target) && RecordTransition(c, s.sys, id, "quarantine.blob.admitted", details, req).1
    case Import(id, space, action, details, first, second) =>
      var (sys, ok) := RecordTransition(c, s.sys, id, action, details, first);
      ok && (LedgerFiles(space.files) == map[] || RecordTransition(c, sys, id, BASELINE, BaselineDetails(cs, LedgerFiles(space.files)), second).1)
    case _ => true
  }

  lemma {:induction false} UpsertSafe(cs: Codecs, s: Space, p: string, data: seq<Byte>)
    ensures Upsert(cs, s, p, data).Some? <==> SafePath(p)
  {
    hide SafePath, Directories;
  }

  /** Replaying a silent action changes nothing. */
  lemma {:induction false} SilentReplays(cs: Codecs, es: seq<Event>, ev: Event, l: Legacy, id: string)
    requires LegacyOf(ev) == Some(l) && Silent(l.action)
    ensures ReplayFiles(cs, es + [ev], id) == ReplayFiles(cs, es, id)
  {
    hide LegacyOf, ReplayFiles, Effect, Silent;
    ReplayEquivalence.ReplayNext(cs, es, ev, l, id);
    SilentEffect(cs, ReplayFiles(cs, es, id), l);
  }

  /** The ledger of a workspace, live. */
  ghost function LiveLedger(s: Server, id: string): Files {
    LedgerFiles(SpaceOf(s, id).files)
  }

  /**
   * Admitting a blob: replay sees nothing of it, the live ledger gets it if it takes effect at
   * a ledger path.  So replay stays faithful exactly if it is refused or leaves the ledger as it is.
   */
  lemma {:induction false} AdmitBlobStepExactly(c: Config, cs: Codecs, s: Server, op: Op, rs: seq<Record>, es: seq<Event>)
    returns (rs': seq<Record>, es': seq<Event>)
    requires c.configured && Good(c.p.rust) && InStep(c, s.sys, rs, es) && s.sys.auth.Some? && Faithful(cs, s, es)
    requires op.AdmitBlob? && op.id != "" && BenignOp(c, cs, s, op)
    ensures var t := OpStep(c, cs, s, op);
            && InStep(c, t.sys, rs', es') && t.sys.auth.Some?
            && (FaithfulAt(cs, t, es', op.id) <==> !TakesEffect(c, cs, s, op) || LeavesLedger(SpaceOf(s, op.id), op.target, op.data))
            && ReplayFiles(cs, es', op.id) == ReplayFiles(cs, es, op.id)
            && LiveLedger(t, op.id) == (if TakesEffect(c, cs, s, op) && HasPrefix(op.target, LEDGER)
                                        then LiveLedger(s, op.id)[op.target := op.data] else LiveLedger(s, op.id))
  {
    hide InStep, RecordTransition, BenignRecord, LegacyOf, Details, SafePath, Upsert, LeavesLedger, FaithfulAt, SpaceOf, LedgerFiles, ReplayFiles,
         HasPrefix, Silent;
    rs', es' := rs, es;
    assert FaithfulAt(cs, s, es, op.id);
    var space := SpaceOf(s, op.id);
    UpsertSafe(cs, space, op.target, op.data);
    if op.id in s.spaces && SafePath(op.target) {
      rs', es' := RecordOutcome(c, s.sys, op.id, "quarantine.blob.admitted", op.details, op.req, rs, es);
      var (sys, ok) := RecordTransition(c, s.sys, op.id, "quarantine.blob.admitted", op.details, op.req);
      var candidate := Upsert(cs, space, op.target, op.data).value;
      MutatedSpaces(s, sys, op.id, candidate, op.id);
      if ok {
        var l := Legacy("quarantine.blob.admitted", Details(op.details), EntityOf(op.id));
        var ev :| es' == es + [ev] && LegacyOf(ev) == Some(l);
        AdmitBlobExactly(cs, s, sys, es, ev, op.id, op.details, op.target, op.data);
        LedgerAfter(cs, space, op.target, op.data);
        assert Silent(l.action) by { Actions(); }
        SilentReplays(cs, es, ev, l, op.id);
      } else {
        SameSpaces(cs, s, sys, es);
        assert FaithfulAt(cs, s.(sys := sys), es, op.id);
      }
    }
  }

  /**
   * An import: replay adds the new ledger to what it has, the live ledger is the new one.  So
   * replay stays faithful exactly if the import is refused or covers what the ledger held.
   */
  lemma {:induction false} ImportStepExactly(c: Config, cs: Codecs, s: Server, op: Op, rs: seq<Record>, es: seq<Event>)
    returns (rs': seq<Record>, es': seq<Event>)
    requires c.configured && Good(c.p.rust) && InStep(c, s.sys, rs, es) && s.sys.auth.Some? && Faithful(cs, s, es) && GoodCodecs(cs)
    requires op.Import? && Proper(op) && BenignOp(c, cs, s, op)
    ensures var t := OpStep(c, cs, s, op);
            && InStep(c, t.sys, rs', es') && t.sys.auth.Some?
            && (FaithfulAt(cs, t, es', op.id) <==> !TakesEffect(c, cs, s, op) || Covers(s, op.id, op.space))
            && (if TakesEffect(c, cs, s, op) then
                  ReplayFiles(cs, es', op.id) == LiveLedger(s, op.id) + LedgerFiles(op.space.files)
                  && LiveLedger(t, op.id) == LedgerFiles(op.space.files)
                else ReplayFiles(cs, es', op.id) == LiveLedger(s, op.id) == LiveLedger(t, op.id))
  {
    hide InStep, RecordTransition, BenignRecord, Faithful, BaselineDetails, LedgerFiles, GoodCodecs, Silent, SpaceOf, Covers, ReplayFiles;
    rs', es' := NoteKeeps(c, cs, s, op.id, op.action, op.details, op.first, rs, es);
    var (sys, ok) := RecordTransition(c, s.sys, op.id, op.action, op.details, op.first);
    var mid := s.(sys := sys);
    FaithfulHas(cs, mid, es', op.id);
    MutatedSpaces(s, sys, op.id, op.space, op.id);
    if ok {
      CoversIgnoresSys(s, sys, op.id, op.space);
      if LedgerFiles(op.space.files) == map[] {
        EmptyImportExactly(cs, mid, sys, es', op.id, op.space);
        assert LiveLedger(s, op.id) + map[] == LiveLedger(s, op.id);
      } else {
        var sys2 := RecordTransition(c, sys, op.id, BASELINE, BaselineDetails(cs, LedgerFiles(op.space.files)), op.second).0;
        MutatedSpaces(s, sys2, op.id, op.space, op.id);
        rs', es' := BaselineStepExactly(c, cs, mid, op.id, op.space, op.second, rs', es');
      }
    }
  }

  lemma {:induction false} FaithfulHas(cs: Codecs, s: Server, es: seq<Event>, id: string)
    requires Faithful(cs, s, es) && id != ""
    ensures FaithfulAt(cs, s, es, id)
  {
    hide FaithfulAt;
  }

  /** Replaying a recorded baseline adds its files. */
  lemma {:induction false} BaselineReplays(cs: Codecs, es: seq<Event>, ev: Event, id: string, space: Space)
    requires GoodCodecs(cs) && LegacyOf(ev) == Some(Legacy(BASELINE, Details(BaselineDetails(cs, LedgerFiles(space.files))), id))
    ensures ReplayFiles(cs, es + [ev], id) == ReplayFiles(cs, es, id) + LedgerFiles(space.files)
  {
    hide LegacyOf, ReplayFiles, Effect, LedgerFiles, BaselineDetails, Details, GoodCodecs, HasPrefix;
    var ledger := LedgerFiles(space.files);
    LedgerPaths(space.files);
    EffectOfBaseline(cs, ReplayFiles(cs, es, id), ledger, id);
    ReplayEquivalence.ReplayNext(cs, es, ev, Legacy(BASELINE, Details(BaselineDetails(cs, ledger)), id), id);
  }

  lemma {:induction false} BaselineStepExactly(c: Config, cs: Codecs, s: Server, id: string, space: Space, req: Req, rs: seq<Record>, es: seq<Event>)
    returns (rs': seq<Record>, es': seq<Event>)
    requires c.configured && Good(c.p.rust) && InStep(c, s.sys, rs, es) && s.sys.auth.Some? && Faithful(cs, s, es) && GoodCodecs(cs)
    requires id != "" && BenignRecord(c, s.sys, id, BASELINE, BaselineDetails(cs, LedgerFiles(space.files)), req)
    ensures var (sys, ok) := RecordTransition(c, s.sys, id, BASELINE, BaselineDetails(cs, LedgerFiles(space.files)), req);
            var t := Server(sys, if ok then s.spaces[id := space] else s.spaces);
            && InStep(c, t.sys, rs', es') && t.sys.auth.Some?
            && (FaithfulAt(cs, t, es', id) <==> !ok || Covers(s, id, space))
            && ReplayFiles(cs, es', id) == (if ok then LiveLedger(s, id) + LedgerFiles(space.files) else LiveLedger(s, id))
  {
    assert |BASELINE| == 30;
    hide InStep, RecordTransition, BenignRecord, LegacyOf, Faithful, Details, BaselineDetails, LedgerFiles, Covers, GoodCodecs, SpaceOf, ReplayFiles;
    var details := BaselineDetails(cs, LedgerFiles(space.files));
    rs', es' := RecordOutcome(c, s.sys, id, BASELINE, details, req, rs, es);
    var (sys, ok) := RecordTransition(c, s.sys, id, BASELINE, details, req);
    FaithfulHas(cs, s, es, id);
    if ok {
      var ev :| es' == es + [ev] && LegacyOf(ev) == Some(Legacy(BASELINE, Details(details), EntityOf(id)));
      BaselineExactly(cs, s, sys, es, ev, id, space);
      BaselineReplays(cs, es, ev, id, space);
    } else {
      SameSpaces(cs, s, sys, es);
      FaithfulHas(cs, s.(sys := sys), es, id);
    }
  }

  // ----- A transition that is admitted -----

  const STATE_ID := "semantic-state"

  /** Every rebuilt projection has the one id. */
  lemma {:induction false} RebuiltKeepsID(p: Params, events: seq<Event>)
    requires Rebuild(p, events).Some?
    ensures Rebuild(p, events).value.state.id == STATE_ID
    decreases |events|
  {
    hide Rebuild, Replayed, ValidAck;
    if events == [] {
      assert Rebuild(p, []) == Some(Fresh(p)) by { TransitionTheory.NothingTracks(p); }
    } else {
      var m := |events| - 1;
      TransitionTheory.RebuildLast(p, events);
      RebuiltKeepsID(p, events[..m]);
      var a := Rebuild(p, events[..m]).value;
      if events[m].kind == ACCEPTED_KIND {
        var n, dup := TransitionTheory.ReplayedFacts(p, a, events[m]);
      } else {
        assert Replayed(p, a, events[m]) == Some(a) by { TransitionTheory.OtherKindsPass(p, a, events[m]); }
      }
    }
  }

  /** An accepted id is bound to a record. */
  lemma {:induction false} AcceptedIsBound(p: Params, rs: seq<Record>, es: seq<Event>, id: string)
    requires HistoryOf(p, rs) == Some(es) && Rebuild(p, es).Some?
    ensures id in Rebuild(p, es).value.accepted ==> !Unbound(rs, id)
  {
    RebuiltOnLedger(p, rs);
    hide HistoryOf, Rebuild, StoredPayload, SamePayload;
    var a := Rebuild(p, es).value;
    if id in a.accepted {
      assert OnLedger(p, rs, id, a.accepted[id].accepted);
      var k := a.accepted[id].accepted.durable.sequence - 1;
      assert EvidenceId(rs[k].evidence) == Some(id);
    }
  }

  /** Everything is allowed, every literal survives, and text hashes look like hashes. */
  ghost predicate Permissive(c: Config) {
    && c.configured && Good(c.p.rust) && (forall n, x :: c.policy(n, x)) && (forall d :: c.p.reload(d) == d)
    && (forall t :: IsSha256(c.p.textHash(t)))
  }

  lemma {:induction false} ReloadSame(f: Numeral -> Numeral, v: Value)
    requires forall d :: f(d) == d
    ensures Reload(f, v) == v
    decreases v
  {
    match v
    case Arr(items) =>
      forall i | 0 <= i < |items| ensures Reload(f, items[i]) == items[i] {
        ReloadSame(f, items[i]);
      }
    case Obj(fields) =>
      forall k | k in fields ensures Reload(f, fields[k]) == fields[k] {
        ReloadSame(f, fields[k]);
      }
    case _ =>
  }

  lemma {:induction false} AllStable(p: Params, details: map<string, Value>)
    requires forall d :: p.reload(d) == d
    ensures EventLogTheory.Stable(p, details)
  {
    hide Reload;
    forall k | k in details ensures Reload(p.reload, details[k]) == details[k] {
      ReloadSame(p.reload, details[k]);
    }
  }

  /** A request with these ids that nothing goes wrong with. */
  function Plain(id: string): Req {
    Req(id, id, id, "", Smooth)
  }

  lemma {:induction false} HashNotBlank(h: string)
    requires IsSha256(h)
    ensures !Blank(h)
  {
    assert HexChar(h[0]);
  }

  /** Such a request gets as far as its append. */
  lemma {:induction false} PlainIsProposed(c: Config, a: Auth, workspace: string, action: string, details: map<string, Value>, id: string)
    requires Permissive(c) && a.state.id == STATE_ID && a.state.hash == HashProjection(c.p, a.state) && id !in a.accepted
    requires !Blank(id) && !Blank(workspace) && !Blank(action)
    ensures Proposed(c, a, ProposalOf(a, workspace, action, details, Plain(id))).Some?
    ensures Proposed(c, a, ProposalOf(a, workspace, action, details, Plain(id))).value.transitionID == id
  {
    hide HashProjection, Clone, ResultValue, Details, HasPrefix;
    assert STATE_ID[0] == 's';
    assert IsSha256(a.state.hash) by { HashLooksRight(c, a.state); }
    HashNotBlank(a.state.hash);
    hide IsSha256, Blank;
    assert !Blank(STATE_ID) by { StateIDNotBlank(); }
  }

  lemma {:induction false} StateIDNotBlank()
    ensures !Blank(STATE_ID)
  {
    assert STATE_ID[0] == 's';
  }

  lemma {:induction false} HashLooksRight(c: Config, x: Projection)
    requires Permissive(c)
    ensures IsSha256(HashProjection(c.p, x))
  {
    hide IsSha256, Clone, Canonical;
  }

  /** A proposal under a new id, with nothing in its way, is admitted. */
  lemma {:induction false} SmoothAdmits(c: Config, a: Auth, x: Normal, log: Log, n: Node, asked: Proposal, now: string,
                                        rs: seq<Record>, es: seq<Event>)
    returns (r: Record, ev: Event)
    requires Permissive(c) && Readable(c.p, n, rs, es) && Aligned(log, rs, es) && Rebuild(c.p, es) == Some(a)
    requires Proposed(c, a, asked) == Some(x) && Unbound(rs, x.transitionID)
    ensures var (a', log', n', res) := ProposeStep(c.p, c.configured, c.policy, a, log, n, asked, now, Smooth);
            && res.Success? && Readable(c.p, n', rs + [r], es + [ev]) && Aligned(log', rs + [r], es + [ev])
            && Rebuild(c.p, es + [ev]) == Some(a')
    ensures ev == SavedEvent(c.p, n, Prepared(log, c.p, ProposedEvent(c.p, a, x), now)) && EvidenceId(r.evidence) == Some(x.transitionID)
  {
    hide Prepared, AppendEvent, Sound, Clean, HistoryOf, NextRecord, Evidence, Rebuild, EventLogTheory.Stable, SavedEvent, EvidenceId,
         ProposeStep, ProposedEvent, TransitionTheory.Admitted, ValidAck, Unbound, Normalize, LineOf, Intact, Proposed;
    var pe := ProposedEvent(c.p, a, x);
    var e := Prepared(log, c.p, pe, now);
    AllStable(c.p, e.details);
    AdmittedKind(c.p, a, x, log, now);
    IdNotEmpty(rs, x.transitionID);
    var rs', tail' := AppendOutcome(c.p, log, n, rs, es, pe, now, Smooth);
    r := NextRecord(c.p.rust, n.accepted, Evidence(e));
    ev := SavedEvent(c.p, n, e);
    RecordID(c.p.rust, n.accepted, e);
    OneMoreReads(c.p, n, log, rs, es, pe, now);
    ProposedFacts(c, a, asked, x);
    AdmissionRebuilds(c, a, x, asked, log, n, now, rs', es, ev);
    ProposeCases(c, a, log, n, asked, now, Smooth);
  }

  lemma {:induction false} ProposedFacts(c: Config, a: Auth, asked: Proposal, x: Normal)
    requires Proposed(c, a, asked) == Some(x)
    ensures Normalize(asked) == Success(x) && x.transitionID !in a.accepted && x.prior == Ref(a.state)
  {
    hide Normalize;
  }

  /** Such a request is recorded, and reads back as its action. */
  lemma {:induction false} PlainCommits(c: Config, s: Sys, workspace: string, action: string, details: map<string, Value>, id: string,
                                        rs: seq<Record>, es: seq<Event>)
    returns (r: Record, ev: Event)
    requires Permissive(c) && InStep(c, s, rs, es) && s.auth.Some? && Unbound(rs, id)
    requires !Blank(id) && !Blank(workspace) && !Blank(action) && action != ""
    ensures var (s', ok) := RecordTransition(c, s, workspace, action, details, Plain(id));
            && ok && InStep(c, s', rs + [r], es + [ev]) && s'.auth.Some? && EvidenceId(r.evidence) == Some(id)
            && LegacyOf(ev) == Some(Legacy(action, Details(details), EntityOf(workspace)))
  {
    var a, n := s.auth.value, s.rust.node;
    var proposal := ProposalOf(a, workspace, action, details, Plain(id));
    hide Prepared, Rebuild, SavedEvent, Readable, Aligned, EvidenceId, ProposeStep, ProposedEvent, LegacyOf, Details, Proposed, ProposalOf,
         HashProjection, Blank, Unbound, ResultValue, Permissive;
    RebuiltKeepsID(c.p, es);
    RebuiltSealed(c.p, es);
    ReadableReads(c.p, n, rs, es);
    AcceptedIsBound(c.p, rs, es, id);
    PlainIsProposed(c, a, workspace, action, details, id);
    var x := Proposed(c, a, proposal).value;
    r, ev := SmoothAdmits(c, a, x, s.log, n, proposal, "", rs, es);
    ProposalFields(a, workspace, action, details, Plain(id));
    ProposedIs(c, a, proposal);
    LegacyOfSaved(c.p, a, x, s.log, n, "", action, Details(details));
  }

  lemma {:induction false} ReadableReads(p: Params, n: Node, rs: seq<Record>, es: seq<Event>)
    requires Readable(p, n, rs, es)
    ensures HistoryOf(p, rs) == Some(es)
  {
    hide HistoryOf, Sound, Clean;
  }

  lemma {:induction false} IdNotEmpty(rs: seq<Record>, id: string)
    requires Unbound(rs, id)
    ensures id != ""
  {
  }

  lemma {:induction false} RecordID(w: World, s: State, e: Event)
    ensures e.id != "" ==> EvidenceId(NextRecord(w, s, Evidence(e)).evidence) == Some(e.id)
  {
    EventLogTheory.EvidenceIds(e);
    hide Evidence, EvidenceId;
  }

  lemma {:induction false} ProposalFields(a: Auth, workspace: string, action: string, details: map<string, Value>, req: Req)
    ensures var x := ProposalOf(a, workspace, action, details, req);
            x.prior == Ref(a.state) && x.resultData == Json(ResultValue(action, Details(details))) && x.entity == EntityOf(workspace)
  {
  }

  lemma {:induction false} RebuiltSealed(p: Params, es: seq<Event>)
    requires Rebuild(p, es).Some?
    ensures var a := Rebuild(p, es).value; a.state.hash == HashProjection(p, a.state)
  {
    TransitionTheory.RebuildTracks(p, es);
    hide Rebuild, HashProjection;
  }

  // ----- Runs from the start that leave replay behind -----

  const WORKSPACE := "w"
  const IMPORTED := "workspace.imported_zip"
  const BLOB := LEDGER + "b"

  lemma {:induction false} NamesAreGood()
    ensures !Blank(WORKSPACE) && !Blank(IMPORTED) && !Blank(BASELINE) && !Blank("quarantine.blob.admitted")
    ensures !Blank("t1") && !Blank("t2") && !Blank("t3")
    ensures Silent(IMPORTED) && BASELINE != "" && WORKSPACE != ""
  {
    assert WORKSPACE[0] == 'w' && IMPORTED[0] == 'w' && BASELINE[0] == 'b' && "quarantine.blob.admitted"[0] == 'q';
    assert "t1"[0] == 't' && "t2"[0] == 't' && "t3"[0] == 't';
    assert forall a :: a in MUTATIONS ==> a[0] == 'b';
  }

  lemma {:induction false} BlobIsSafe()
    ensures SafePath(BLOB) && HasPrefix(BLOB, LEDGER)
  {
    var pieces := ["build-ledger", "b"];
    Text.SplitJoin(pieces, '/');
    assert pieces[1..] == ["b"];
    assert Text.Join(pieces, '/') == "build-ledger" + ['/'] + "b" == BLOB;
    assert |BLOB| == 14 && forall i :: 0 <= i < 14 ==> BLOB[i] != '.' && BLOB[i] != 0 as char;
    assert BLOB[..|LEDGER|] == LEDGER;
  }

  /** A new record leaves other ids unbound. */
  lemma {:induction false} StillUnbound(rs: seq<Record>, r: Record, id: string, other: string)
    requires Unbound(rs, other) && EvidenceId(r.evidence) == Some(id) && id != other
    ensures Unbound(rs + [r], other)
  {
    hide EvidenceId;
    FindNew(rs, r, other);
  }

  /** Such requests are benign. */
  lemma {:induction false} PlainIsBenign(c: Config, s: Sys, workspace: string, action: string, details: map<string, Value>, id: string)
    requires Permissive(c)
    ensures BenignRecord(c, s, workspace, action, details, Plain(id))
  {
    hide EventLogTheory.Stable, ProposedEvent, ProposalOf, Normalize;
    if s.auth.Some? {
      var x := ProposalOf(s.auth.value, workspace, action, details, Plain(id));
      if Normalize(x).Success? {
        AllStable(c.p, ProposedEvent(c.p, s.auth.value, Normalize(x).value).details);
      }
    }
  }

  /** The import of this workspace, under the first two ids. */
  function ImportOf(space: Space): Op {
    Op.Import(WORKSPACE, space, IMPORTED, map[], Plain("t1"), Plain("t2"))
  }

  /** The first import of a workspace, whatever is in it, succeeds and leaves replay faithful. */
  lemma {:induction false} FirstImport(c: Config, cs: Codecs, space: Space)
    returns (rs: seq<Record>, es: seq<Event>)
    requires Permissive(c) && GoodCodecs(cs)
    ensures var s := OpStep(c, cs, StartServing(c.p), ImportOf(space));
            && InStep(c, s.sys, rs, es) && s.sys.auth.Some? && Faithful(cs, s, es) && s.spaces == map[WORKSPACE := space] && Unbound(rs, "t3")
  {
    hide InStep, RecordTransition, LegacyOf, Details, BaselineDetails, LedgerFiles, GoodCodecs, Silent, SpaceOf, Permissive, Blank, EvidenceId, Faithful,
         Protocol.Start;
    NamesAreGood();
    var s0 := StartServing(c.p);
    StartIsUp(c.p);
    StartInStep(c) by { PermissiveIsGood(c); }
    StartIsFaithful(cs, c.p);
    var r, ev := PlainCommits(c, s0.sys, WORKSPACE, IMPORTED, map[], "t1", [], []);
    var sys1 := RecordTransition(c, s0.sys, WORKSPACE, IMPORTED, map[], Plain("t1")).0;
    rs, es := [] + [r], [] + [ev];
    SilentKeeps(cs, s0, sys1, [], ev, Legacy(IMPORTED, Details(map[]), WORKSPACE));
    StillUnbound([], r, "t1", "t2");
    StillUnbound([], r, "t1", "t3");
    var mid := s0.(sys := sys1);
    NothingToCover(mid, WORKSPACE, space);
    var ledger := LedgerFiles(space.files);
    if ledger == map[] {
      EmptyImportExactly(cs, mid, sys1, es, WORKSPACE, space);
    } else {
      var r2, ev2 := PlainCommits(c, sys1, WORKSPACE, BASELINE, BaselineDetails(cs, ledger), "t2", rs, es);
      var sys2 := RecordTransition(c, sys1, WORKSPACE, BASELINE, BaselineDetails(cs, ledger), Plain("t2")).0;
      BaselineExactly(cs, mid, sys2, es, ev2, WORKSPACE, space);
      StillUnbound(rs, r2, "t2", "t3");
      rs, es := rs + [r2], es + [ev2];
    }
  }

  lemma {:induction false} PermissiveIsGood(c: Config)
    requires Permissive(c)
    ensures Good(c.p.rust) && c.configured
  {
  }

  lemma {:induction false} NothingToCover(s: Server, id: string, space: Space)
    requires id !in s.spaces
    ensures ReplayEquivalence.Covers(s, id, space)
  {
    hide HasPrefix;
    assert LedgerFiles(map[]) == map[];
  }

  lemma {:induction false} EmptyLedger(s: Server, id: string)
    requires id in s.spaces && s.spaces[id] == Space(map[], [])
    ensures LiveLedger(s, id) == map[]
  {
    hide HasPrefix;
  }

  lemma {:induction false} ReplayIsLive(cs: Codecs, s: Server, es: seq<Event>, id: string)
    requires Faithful(cs, s, es) && id != ""
    ensures ReplayFiles(cs, es, id) == LiveLedger(s, id)
  {
    FaithfulHas(cs, s, es, id);
    hide ReplayFiles, LedgerFiles;
  }

  /** A blob admitted at a new ledger path: import an empty workspace, then admit it.  Replay does not have the file. */
  lemma {:induction false} BlobGap(c: Config, cs: Codecs, data: seq<Byte>)
    returns (rs: seq<Record>, es: seq<Event>)
    requires Permissive(c) && GoodCodecs(cs)
    ensures var s := OpStep(c, cs, StartServing(c.p), ImportOf(Space(map[], [])));
            s.sys.auth.Some? &&
            var t := OpStep(c, cs, s, AdmitBlob(WORKSPACE, BLOB, data, map[], Plain("t3")));
            && InStep(c, t.sys, rs, es) && !Faithful(cs, t, es)
            && BLOB in LiveLedger(t, WORKSPACE) && BLOB !in ReplayFiles(cs, es, WORKSPACE)
  {
    hide InStep, RecordTransition, OpStep, GoodCodecs, Permissive, Blank, BenignRecord, SafePath, HasPrefix, FaithfulAt, LiveLedger, ReplayFiles;
    NamesAreGood();
    BlobIsSafe();
    PermissiveIsGood(c);
    var space := Space(map[], []);
    var rs1, es1 := FirstImport(c, cs, space);
    var s := OpStep(c, cs, StartServing(c.p), ImportOf(space));
    var op := AdmitBlob(WORKSPACE, BLOB, data, map[], Plain("t3"));
    PlainIsBenign(c, s.sys, WORKSPACE, "quarantine.blob.admitted", map[], "t3");
    var _, _ := PlainCommits(c, s.sys, WORKSPACE, "quarantine.blob.admitted", map[], "t3", rs1, es1);
    EmptyLedger(s, WORKSPACE);
    ReplayIsLive(cs, s, es1, WORKSPACE);
    rs, es := AdmitBlobStepExactly(c, cs, s, op, rs1, es1);
  }

  /** An import with such requests is benign. */
  lemma {:induction false} ImportIsBenign(c: Config, cs: Codecs, s: Server, space: Space, first: string, second: string)
    requires Permissive(c) && s.sys.auth.Some?
    ensures BenignOp(c, cs, s, Op.Import(WORKSPACE, space, IMPORTED, map[], Plain(first), Plain(second)))
  {
    hide RecordTransition, Permissive, BenignRecord, BaselineDetails, LedgerFiles;
    PlainIsBenign(c, s.sys, WORKSPACE, IMPORTED, map[], first);
    var sys := RecordTransition(c, s.sys, WORKSPACE, IMPORTED, map[], Plain(first)).0;
    PlainIsBenign(c, sys, WORKSPACE, BASELINE, BaselineDetails(cs, LedgerFiles(space.files)), second);
  }

  lemma {:induction false} EmptyCoversNothing(s: Server, f: Workspaces.File)
    requires s.spaces == map[WORKSPACE := Space(map[BLOB := f], [])]
    ensures !ReplayEquivalence.Covers(s, WORKSPACE, Space(map[], [])) && LedgerFiles(map[]) == map[] && BLOB in LiveLedger(s, WORKSPACE)
  {
    BlobIsSafe();
    hide HasPrefix, SafePath;
    assert BLOB in LedgerFiles(SpaceOf(s, WORKSPACE).files).Keys;
  }

  /** An import over a ledger: import a workspace with one ledger file, then an empty one.  Replay still has the file. */
  lemma {:induction false} ImportGap(c: Config, cs: Codecs, f: Workspaces.File)
    returns (rs: seq<Record>, es: seq<Event>)
    requires Permissive(c) && GoodCodecs(cs)
    ensures var s := OpStep(c, cs, StartServing(c.p), ImportOf(Space(map[BLOB := f], [])));
            s.sys.auth.Some? &&
            var t := OpStep(c, cs, s, Op.Import(WORKSPACE, Space(map[], []), IMPORTED, map[], Plain("t3"), Plain("t4")));
            && InStep(c, t.sys, rs, es) && !Faithful(cs, t, es)
            && BLOB !in LiveLedger(t, WORKSPACE) && BLOB in ReplayFiles(cs, es, WORKSPACE)
  {
    hide InStep, RecordTransition, OpStep, GoodCodecs, Permissive, Blank, BenignOp, FaithfulAt, Silent, SpaceOf, LedgerFiles,
         ReplayEquivalence.Covers, BaselineDetails, LiveLedger, ReplayFiles;
    NamesAreGood();
    PermissiveIsGood(c);
    var space := Space(map[BLOB := f], []);
    var rs1, es1 := FirstImport(c, cs, space);
    var s := OpStep(c, cs, StartServing(c.p), ImportOf(space));
    var op := Op.Import(WORKSPACE, Space(map[], []), IMPORTED, map[], Plain("t3"), Plain("t4"));
    ImportIsBenign(c, cs, s, Space(map[], []), "t3", "t4");
    EmptyCoversNothing(s, f);
    var _, _ := PlainCommits(c, s.sys, WORKSPACE, IMPORTED, map[], "t3", rs1, es1);
    rs, es := ImportStepExactly(c, cs, s, op, rs1, es1);
  }
}
