/** Replay equivalence: the recorder's history alone gives back every live build-ledger. */
module ReplayEquivalence {
  import opened Wrappers
  import opened Bytes
  import opened Json
  import opened Decimal
  import opened RecordCodec
  import opened Ledger
  import opened EventLog
  import opened Transition
  import opened Protocol
  import opened Recovery
  import opened Workspaces
  import opened LedgerReplay
  import opened ServerOps

  /** Replay gives every workspace's live ledger; a workspace that was never imported has none. */
  ghost predicate Faithful(cs: Codecs, s: Server, es: seq<Event>) {
    "" !in s.spaces && forall id :: id != "" ==> FaithfulAt(cs, s, es, id)
  }

  ghost predicate FaithfulAt(cs: Codecs, s: Server, es: seq<Event>, id: string) {
    ReplayFiles(cs, es, id) == LedgerFiles(SpaceOf(s, id).files)
  }

  predicate Silent(action: string) {
    action != "" && action != BASELINE && action !in MUTATIONS
  }

  /** Admitting a blob leaves the ledger as it is. */
  predicate LeavesLedger(s: Space, target: string, data: seq<Byte>) {
    HasPrefix(target, LEDGER) ==> target in s.files && s.files[target].data == data
  }

  /** An import covers what the workspace's ledger already holds; the first import of a workspace always does. */
  predicate Covers(s: Server, id: string, space: Space) {
    LedgerFiles(SpaceOf(s, id).files).Keys <= LedgerFiles(space.files).Keys
  }

  /** What the operation records, besides an import's baseline. */
  function Recorded(cs: Codecs, s: Server, op: Op): (string, map<string, Value>, Req) {
    match op
    case Import(_, _, action, details, first, _) => (action, details, first)
    case UpdateState(id, body, req) =>
      ("build_ledger.state.updated", WriteDetails(cs, SpaceOf(s, id), STATE_FILE, body, map["new_size" := Int(|body|)]), req)
    case AppendLine(id, line, eventID, req) =>
      ("build_ledger.event.appended",
       WriteDetails(cs, SpaceOf(s, id), EVENTS_FILE, Appended(DataOf(SpaceOf(s, id), EVENTS_FILE), line), map["event" := eventID]), req)
    case CreateDocument(id, kind, docID, body, req) =>
      (CreatedBy(kind), WriteDetails(cs, SpaceOf(s, id), DocumentPath(kind, docID), body, map["doc_id" := Str(docID)]), req)
    case AdmitBlob(_, _, _, details, req) => ("quarantine.blob.admitted", details, req)
    case Note(_, action, details, req) => (action, details, req)
  }

  /** The appends of the operation commit everywhere or nowhere, and its numbers keep their spelling. */
  ghost predicate BenignOp(c: Config, cs: Codecs, s: Server, op: Op)
    requires s.sys.auth.Some?
  {
    var (action, details, req) := Recorded(cs, s, op);
    && BenignRecord(c, s.sys, op.id, action, details, req)
    && (op.Import? ==>
          var (sys, ok) := RecordTransition(c, s.sys, op.id, action, details, req);
          BenignRecord(c, sys, op.id, BASELINE, BaselineDetails(cs, LedgerFiles(op.space.files)), op.second))
  }

  /** What the callers guarantee: bodies are not empty, other actions do not look like ledger mutations. */
  predicate Proper(op: Op) {
    match op
    case Import(id, _, action, _, _, _) => id != "" && Silent(action)
    case UpdateState(_, body, _) => body != []
    case CreateDocument(_, _, _, body, _) => body != []
    case Note(_, action, _, _) => Silent(action)
    case _ => true
  }

  /** The two ways an operation can change the ledger behind replay's back. */
  predicate Tracked(s: Server, op: Op) {
    match op
    case Import(id, space, _, _, _, _) => Covers(s, id, space)
    case AdmitBlob(id, target, data, _, _) => LeavesLedger(SpaceOf(s, id), target, data)
    case _ => true
  }

  // ----- Effects -----

  lemma {:induction false} DetailKeys()
    ensures |"path"| == 4 && |"content_base64"| == 14 && |"authority_source"| == 16 && |"files"| == 5 && |"file_count"| == 10
  {
  }

  /** Replaying a recorded write sets the file it wrote. */
  lemma {:induction false} EffectOfWrite(cs: Codecs, files: Files, s: Space, p: string, data: seq<Byte>, extra: map<string, Value>,
                                         action: string, id: string)
    requires GoodCodecs(cs) && action in MUTATIONS && action != BASELINE && p != "" && data != [] && HasPrefix(p, LEDGER)
    ensures Effect(cs, files, Legacy(action, Details(WriteDetails(cs, s, p, data, extra)), id)) == files[p := data]
  {
    DetailKeys();
    hide HasPrefix;
    var d := Details(WriteDetails(cs, s, p, data, extra));
    assert TextOf(d, "path") == p;
    assert TextOf(d, "content_base64") == cs.base64(data);
    assert cs.unbase64(cs.base64(data)) == Some(data);
  }

  lemma {:induction false} LedgerPaths(files: map<string, Workspaces.File>)
    ensures forall p :: p in LedgerFiles(files) ==> HasPrefix(p, LEDGER)
  {
    hide HasPrefix;
  }

  lemma {:induction false} EncodedReads(cs: Codecs, ledger: Files)
    requires GoodCodecs(cs) && forall p :: p in ledger ==> HasPrefix(p, LEDGER)
    ensures BaselineFiles(cs, Encoded(cs, ledger)) == ledger
  {
    hide HasPrefix;
    var m := Encoded(cs, ledger);
    forall p | p in ledger ensures p in m && m[p].Str? && cs.unbase64(m[p].s) == Some(ledger[p]) {
      assert m[p] == Str(cs.base64(ledger[p]));
    }
  }

  /** Replaying a recorded baseline adds its files. */
  lemma {:induction false} EffectOfBaseline(cs: Codecs, files: Files, ledger: Files, id: string)
    requires GoodCodecs(cs) && forall p :: p in ledger ==> HasPrefix(p, LEDGER)
    ensures Effect(cs, files, Legacy(BASELINE, Details(BaselineDetails(cs, ledger)), id)) == files + ledger
  {
    DetailKeys();
    EncodedReads(cs, ledger);
    hide HasPrefix, Encoded, BaselineFiles, Dec;
    var d := Details(BaselineDetails(cs, ledger));
    assert "files" in d && d["files"] == Obj(Encoded(cs, ledger));
  }

  lemma {:induction false} SilentEffect(cs: Codecs, files: Files, l: Legacy)
    requires Silent(l.action)
    ensures Effect(cs, files, l) == files
  {
  }

  /** One more event read as this action of this workspace. */
  lemma {:induction false} ReplayNext(cs: Codecs, es: seq<Event>, ev: Event, l: Legacy, id: string)
    requires LegacyOf(ev) == Some(l)
    ensures ReplayFiles(cs, es + [ev], id) ==
            if l.workspace == id then Effect(cs, ReplayFiles(cs, es, id), l) else ReplayFiles(cs, es, id)
  {
    ReplayAppend(cs, es, ev, id);
    hide Effect, LegacyOf, ReplayFiles;
  }

  // ----- One mutation of a file -----

  /** A successful mutation: the workspace it names changes to the candidate, the others do not. */
  lemma {:induction false} MutatedSpaces(s: Server, sys: Sys, id: string, candidate: Space, other: string)
    ensures SpaceOf(Server(sys, s.spaces[id := candidate]), other) == if other == id then candidate else SpaceOf(s, other)
    ensures SpaceOf(Server(sys, s.spaces), other) == SpaceOf(s, other)
  {
  }

  /** If replaying the recorded event does to the ledger what the candidate does, every workspace stays faithful. */
  lemma {:induction false} MutationKeeps(cs: Codecs, s: Server, sys: Sys, es: seq<Event>, ev: Event, l: Legacy, id: string, candidate: Space)
    requires Faithful(cs, s, es) && LegacyOf(ev) == Some(l) && l.workspace == id != ""
    requires Effect(cs, LedgerFiles(SpaceOf(s, id).files), l) == LedgerFiles(candidate.files)
    ensures Faithful(cs, Server(sys, s.spaces[id := candidate]), es + [ev])
  {
    hide LegacyOf, ReplayFiles, Effect, LedgerFiles, SpaceOf;
    var t := Server(sys, s.spaces[id := candidate]);
    forall other | other != "" ensures FaithfulAt(cs, t, es + [ev], other) {
      assert FaithfulAt(cs, s, es, other);
      ReplayNext(cs, es, ev, l, other);
      MutatedSpaces(s, sys, id, candidate, other);
    }
  }

  /** A silent action changes no ledger. */
  lemma {:induction false} SilentKeeps(cs: Codecs, s: Server, sys: Sys, es: seq<Event>, ev: Event, l: Legacy)
    requires Faithful(cs, s, es) && LegacyOf(ev) == Some(l) && Silent(l.action)
    ensures Faithful(cs, s.(sys := sys), es + [ev])
  {
    hide LegacyOf, ReplayFiles, Effect, LedgerFiles, Silent;
    var t := s.(sys := sys);
    forall other | other != "" ensures FaithfulAt(cs, t, es + [ev], other) {
      assert FaithfulAt(cs, s, es, other);
      ReplayNext(cs, es, ev, l, other);
      SilentEffect(cs, ReplayFiles(cs, es, other), l);
    }
  }

  lemma {:induction false} SameSpaces(cs: Codecs, s: Server, sys: Sys, es: seq<Event>)
    requires Faithful(cs, s, es)
    ensures Faithful(cs, s.(sys := sys), es)
  {
    hide ReplayFiles, LedgerFiles;
    forall other | other != "" ensures FaithfulAt(cs, s.(sys := sys), es, other) {
      assert FaithfulAt(cs, s, es, other);
    }
  }

  /** A mutation whose recorded details say what the candidate does to the ledger. */
  lemma {:induction false} MutateKeeps(c: Config, cs: Codecs, s: Server, id: string, action: string, details: map<string, Value>, req: Req,
                                       candidate: Option<Space>, rs: seq<Record>, es: seq<Event>)
    returns (rs': seq<Record>, es': seq<Event>)
    requires c.configured && Good(c.p.rust) && InStep(c, s.sys, rs, es) && s.sys.auth.Some? && Faithful(cs, s, es) && action != ""
    requires BenignRecord(c, s.sys, id, action, details, req)
    requires candidate.Some? && id != "" ==>
               Effect(cs, LedgerFiles(SpaceOf(s, id).files), Legacy(action, Details(details), id)) == LedgerFiles(candidate.value.files)
    ensures var t := Mutate(c, s, id, action, details, req, candidate);
            InStep(c, t.sys, rs', es') && t.sys.auth.Some? && Faithful(cs, t, es')
  {
    hide InStep, RecordTransition, BenignRecord, LegacyOf, Effect, LedgerFiles, SpaceOf, FaithfulAt, Details;
    rs', es' := rs, es;
    if id in s.spaces && candidate.Some? {
      rs', es' := RecordOutcome(c, s.sys, id, action, details, req, rs, es);
      var (sys, ok) := RecordTransition(c, s.sys, id, action, details, req);
      if ok {
        var ev :| es' == es + [ev] && LegacyOf(ev) == Some(Legacy(action, Details(details), EntityOf(id)));
        MutationKeeps(cs, s, sys, es, ev, Legacy(action, Details(details), id), id, candidate.value);
      } else {
        SameSpaces(cs, s, sys, es);
      }
    }
  }

  // ----- Each operation -----

  lemma {:induction false} WriteKeeps(c: Config, cs: Codecs, s: Server, id: string, action: string, p: string, data: seq<Byte>,
                                      extra: map<string, Value>, req: Req, rs: seq<Record>, es: seq<Event>)
    returns (rs': seq<Record>, es': seq<Event>)
    requires c.configured && Good(c.p.rust) && InStep(c, s.sys, rs, es) && s.sys.auth.Some? && Faithful(cs, s, es) && GoodCodecs(cs)
    requires action in MUTATIONS && action != BASELINE && action != "" && p != "" && data != [] && HasPrefix(p, LEDGER)
    requires BenignRecord(c, s.sys, id, action, WriteDetails(cs, SpaceOf(s, id), p, data, extra), req)
    ensures var t := Mutate(c, s, id, action, WriteDetails(cs, SpaceOf(s, id), p, data, extra), req, Upsert(cs, SpaceOf(s, id), p, data));
            InStep(c, t.sys, rs', es') && t.sys.auth.Some? && Faithful(cs, t, es')
  {
    hide InStep, BenignRecord, Effect, LedgerFiles, SpaceOf, Faithful, Details, WriteDetails, HasPrefix, Mutate, GoodCodecs, Upsert;
    var space := SpaceOf(s, id);
    EffectOfWrite(cs, LedgerFiles(space.files), space, p, data, extra, action, id);
    if Upsert(cs, space, p, data).Some? {
      LedgerAfter(cs, space, p, data);
    }
    rs', es' := MutateKeeps(c, cs, s, id, action, WriteDetails(cs, space, p, data, extra), req, Upsert(cs, space, p, data), rs, es);
  }

  lemma {:induction false} Actions()
    ensures "build_ledger.state.updated" in MUTATIONS && "build_ledger.event.appended" in MUTATIONS
    ensures forall k: Kind :: CreatedBy(k) in MUTATIONS && CreatedBy(k) != BASELINE && CreatedBy(k) != ""
    ensures "build_ledger.state.updated" != BASELINE && "build_ledger.event.appended" != BASELINE
    ensures Silent("quarantine.blob.admitted")
  {
    assert |BASELINE| == 30 && |"build_ledger.state.updated"| == 26 && |"build_ledger.event.appended"| == 27;
    assert |"build_ledger.run.created"| == 24 && |"build_ledger.receipt.created"| == 28 && |"build_ledger.verification.created"| == 33;
    assert "quarantine.blob.admitted"[0] == 'q' && BASELINE[0] == 'b';
    assert forall a :: a in MUTATIONS ==> a[0] == 'b';
  }

  lemma {:induction false} LedgerPath(rest: string)
    ensures HasPrefix(LEDGER + rest, LEDGER) && LEDGER + rest != ""
  {
    assert |LEDGER| == 13;
    assert (LEDGER + rest)[..|LEDGER|] == LEDGER;
  }

  /** The three ledger writes keep replay faithful. */
  lemma {:induction false} UpdateStateKeeps(c: Config, cs: Codecs, s: Server, op: Op, rs: seq<Record>, es: seq<Event>)
    returns (rs': seq<Record>, es': seq<Event>)
    requires c.configured && Good(c.p.rust) && InStep(c, s.sys, rs, es) && s.sys.auth.Some? && Faithful(cs, s, es) && GoodCodecs(cs)
    requires op.UpdateState? && Proper(op) && BenignOp(c, cs, s, op)
    ensures var t := OpStep(c, cs, s, op); InStep(c, t.sys, rs', es') && t.sys.auth.Some? && Faithful(cs, t, es')
  {
    hide InStep, BenignRecord, SpaceOf, Faithful, WriteDetails, HasPrefix, Mutate, GoodCodecs, Upsert, Dec;
    Actions();
    LedgerPath("current/state.yaml");
    rs', es' := WriteKeeps(c, cs, s, op.id, "build_ledger.state.updated", STATE_FILE, op.body, map["new_size" := Int(|op.body|)], op.req, rs, es);
  }

  lemma {:induction false} AppendLineKeeps(c: Config, cs: Codecs, s: Server, op: Op, rs: seq<Record>, es: seq<Event>)
    returns (rs': seq<Record>, es': seq<Event>)
    requires c.configured && Good(c.p.rust) && InStep(c, s.sys, rs, es) && s.sys.auth.Some? && Faithful(cs, s, es) && GoodCodecs(cs)
    requires op.AppendLine? && BenignOp(c, cs, s, op)
    ensures var t := OpStep(c, cs, s, op); InStep(c, t.sys, rs', es') && t.sys.auth.Some? && Faithful(cs, t, es')
  {
    hide InStep, BenignRecord, SpaceOf, Faithful, WriteDetails, HasPrefix, Mutate, GoodCodecs, Upsert, DataOf;
    Actions();
    LedgerPath("events/ledger.jsonl");
    var before := DataOf(SpaceOf(s, op.id), EVENTS_FILE);
    AppendKeeps(before, op.line);
    hide Appended;
    rs', es' := WriteKeeps(c, cs, s, op.id, "build_ledger.event.appended", EVENTS_FILE, Appended(before, op.line), map["event" := op.eventID],
                           op.req, rs, es);
  }

  lemma {:induction false} CreateDocumentKeeps(c: Config, cs: Codecs, s: Server, op: Op, rs: seq<Record>, es: seq<Event>)
    returns (rs': seq<Record>, es': seq<Event>)
    requires c.configured && Good(c.p.rust) && InStep(c, s.sys, rs, es) && s.sys.auth.Some? && Faithful(cs, s, es) && GoodCodecs(cs)
    requires op.CreateDocument? && Proper(op) && BenignOp(c, cs, s, op)
    ensures var t := OpStep(c, cs, s, op); InStep(c, t.sys, rs', es') && t.sys.auth.Some? && Faithful(cs, t, es')
  {
    hide InStep, BenignRecord, SpaceOf, Faithful, WriteDetails, HasPrefix, Mutate, GoodCodecs, Upsert, CreatedBy;
    Actions();
    LedgerPath(DirOf(op.kind) + "/" + op.docID + ".yaml");
    rs', es' := WriteKeeps(c, cs, s, op.id, CreatedBy(op.kind), DocumentPath(op.kind, op.docID), op.body, map["doc_id" := Str(op.docID)],
                           op.req, rs, es);
  }

  /** What admitting a blob does to the ledger: nothing exactly if it leaves the ledger as it is. */
  lemma {:induction false} BlobLedger(cs: Codecs, s: Space, target: string, data: seq<Byte>)
    requires Upsert(cs, s, target, data).Some?
    ensures LedgerFiles(Upsert(cs, s, target, data).value.files) == LedgerFiles(s.files) <==> LeavesLedger(s, target, data)
  {
    LedgerAfter(cs, s, target, data);
    hide HasPrefix, Upsert, SafePath;
    var ledger := LedgerFiles(s.files);
    if HasPrefix(target, LEDGER) {
      assert target in ledger <==> target in s.files;
      if ledger[target := data] == ledger {
        assert target in ledger && ledger[target] == data;
      }
    }
  }

  /** An admitted blob leaves replay faithful for its workspace exactly if it leaves the ledger as it is. */
  lemma {:induction false} AdmitBlobExactly(cs: Codecs, s: Server, sys: Sys, es: seq<Event>, ev: Event, id: string,
                                            details: map<string, Value>, target: string, data: seq<Byte>)
    requires Faithful(cs, s, es) && id != "" && Upsert(cs, SpaceOf(s, id), target, data).Some?
    requires LegacyOf(ev) == Some(Legacy("quarantine.blob.admitted", Details(details), id))
    ensures var t := Server(sys, s.spaces[id := Upsert(cs, SpaceOf(s, id), target, data).value]);
            FaithfulAt(cs, t, es + [ev], id) <==> LeavesLedger(SpaceOf(s, id), target, data)
  {
    hide ReplayFiles, LedgerFiles, SpaceOf, Upsert, LegacyOf, Details, LeavesLedger, Effect;
    Actions();
    var space := SpaceOf(s, id);
    var l := Legacy("quarantine.blob.admitted", Details(details), id);
    assert FaithfulAt(cs, s, es, id);
    ReplayNext(cs, es, ev, l, id);
    SilentEffect(cs, ReplayFiles(cs, es, id), l);
    MutatedSpaces(s, sys, id, Upsert(cs, space, target, data).value, id);
    BlobLedger(cs, space, target, data);
  }

  lemma {:induction false} AdmitBlobKeeps(c: Config, cs: Codecs, s: Server, op: Op, rs: seq<Record>, es: seq<Event>)
    returns (rs': seq<Record>, es': seq<Event>)
    requires c.configured && Good(c.p.rust) && InStep(c, s.sys, rs, es) && s.sys.auth.Some? && Faithful(cs, s, es)
    requires op.AdmitBlob? && BenignOp(c, cs, s, op) && Tracked(s, op)
    ensures var t := OpStep(c, cs, s, op); InStep(c, t.sys, rs', es') && t.sys.auth.Some? && Faithful(cs, t, es')
  {
    hide InStep, BenignRecord, SpaceOf, Faithful, Mutate, Upsert, LedgerFiles, LeavesLedger, Effect, Details;
    Actions();
    var space := SpaceOf(s, op.id);
    var l := Legacy("quarantine.blob.admitted", Details(op.details), op.id);
    SilentEffect(cs, LedgerFiles(space.files), l);
    if Upsert(cs, space, op.target, op.data).Some? {
      BlobLedger(cs, space, op.target, op.data);
    }
    rs', es' := MutateKeeps(c, cs, s, op.id, "quarantine.blob.admitted", op.details, op.req, Upsert(cs, space, op.target, op.data), rs, es);
  }

  lemma {:induction false} NoteKeeps(c: Config, cs: Codecs, s: Server, id: string, action: string, details: map<string, Value>, req: Req,
                                     rs: seq<Record>, es: seq<Event>)
    returns (rs': seq<Record>, es': seq<Event>)
    requires c.configured && Good(c.p.rust) && InStep(c, s.sys, rs, es) && s.sys.auth.Some? && Faithful(cs, s, es)
    requires Silent(action) && BenignRecord(c, s.sys, id, action, details, req)
    ensures var t := s.(sys := RecordTransition(c, s.sys, id, action, details, req).0);
            InStep(c, t.sys, rs', es') && t.sys.auth.Some? && Faithful(cs, t, es')
  {
    assert action != "";
    hide InStep, RecordTransition, BenignRecord, LegacyOf, Faithful, Details, Silent;
    rs', es' := RecordOutcome(c, s.sys, id, action, details, req, rs, es);
    var (sys, ok) := RecordTransition(c, s.sys, id, action, details, req);
    if ok {
      var l := Legacy(action, Details(details), EntityOf(id));
      var ev :| es' == es + [ev] && LegacyOf(ev) == Some(l);
      SilentKeeps(cs, s, sys, es, ev, l);
    } else {
      SameSpaces(cs, s, sys, es);
    }
  }

  lemma {:induction false} CoverIsUnion(old_: Files, new_: Files)
    ensures old_ + new_ == new_ <==> old_.Keys <= new_.Keys
  {
    if old_ + new_ == new_ {
      assert forall k :: k in old_ ==> k in old_ + new_;
    }
  }

  /** The baseline of an import, recorded: faithful for the new workspace exactly if it covers the old ledger. */
  lemma {:induction false} BaselineExactly(cs: Codecs, s: Server, sys: Sys, es: seq<Event>, ev: Event, id: string, space: Space)
    requires GoodCodecs(cs) && Faithful(cs, s, es) && id != ""
    requires LegacyOf(ev) == Some(Legacy(BASELINE, Details(BaselineDetails(cs, LedgerFiles(space.files))), id))
    ensures var t := Server(sys, s.spaces[id := space]);
            && (FaithfulAt(cs, t, es + [ev], id) <==> Covers(s, id, space))
            && (Covers(s, id, space) ==> Faithful(cs, t, es + [ev]))
  {
    hide LegacyOf, ReplayFiles, Effect, LedgerFiles, SpaceOf, BaselineDetails, Details, GoodCodecs, HasPrefix;
    var ledger := LedgerFiles(space.files);
    var l := Legacy(BASELINE, Details(BaselineDetails(cs, ledger)), id);
    LedgerPaths(space.files);
    assert FaithfulAt(cs, s, es, id);
    EffectOfBaseline(cs, LedgerFiles(SpaceOf(s, id).files), ledger, id);
    CoverIsUnion(LedgerFiles(SpaceOf(s, id).files), ledger);
    ReplayNext(cs, es, ev, l, id);
    MutatedSpaces(s, sys, id, space, id);
    if Covers(s, id, space) {
      MutationKeeps(cs, s, sys, es, ev, l, id, space);
    }
  }

  /** A workspace without a ledger replaces one without a ledger. */
  lemma {:induction false} EmptyImportExactly(cs: Codecs, s: Server, sys: Sys, es: seq<Event>, id: string, space: Space)
    requires Faithful(cs, s, es) && id != "" && LedgerFiles(space.files) == map[]
    ensures var t := Server(sys, s.spaces[id := space]);
            && (FaithfulAt(cs, t, es, id) <==> Covers(s, id, space))
            && (Covers(s, id, space) ==> Faithful(cs, t, es))
  {
    hide ReplayFiles, LedgerFiles, SpaceOf;
    var t := Server(sys, s.spaces[id := space]);
    assert FaithfulAt(cs, s, es, id);
    MutatedSpaces(s, sys, id, space, id);
    var old_ := LedgerFiles(SpaceOf(s, id).files);
    CoverIsUnion(old_, map[]);
    assert old_ + map[] == old_;
    if Covers(s, id, space) {
      forall other | other != "" ensures FaithfulAt(cs, t, es, other) {
        assert FaithfulAt(cs, s, es, other);
        MutatedSpaces(s, sys, id, space, other);
      }
    }
  }

  /** The second transition of an import. */
  lemma {:induction false} BaselineKeeps(c: Config, cs: Codecs, s: Server, id: string, space: Space, req: Req, rs: seq<Record>, es: seq<Event>)
    returns (rs': seq<Record>, es': seq<Event>)
    requires c.configured && Good(c.p.rust) && InStep(c, s.sys, rs, es) && s.sys.auth.Some? && Faithful(cs, s, es) && GoodCodecs(cs)
    requires id != "" && Covers(s, id, space)
    requires BenignRecord(c, s.sys, id, BASELINE, BaselineDetails(cs, LedgerFiles(space.files)), req)
    ensures var (sys, ok) := RecordTransition(c, s.sys, id, BASELINE, BaselineDetails(cs, LedgerFiles(space.files)), req);
            var t := Server(sys, if ok then s.spaces[id := space] else s.spaces);
            InStep(c, t.sys, rs', es') && t.sys.auth.Some? && Faithful(cs, t, es')
  {
    assert |BASELINE| == 30;
    hide InStep, RecordTransition, BenignRecord, LegacyOf, Faithful, Details, BaselineDetails, LedgerFiles, Covers, GoodCodecs;
    var details := BaselineDetails(cs, LedgerFiles(space.files));
    rs', es' := RecordOutcome(c, s.sys, id, BASELINE, details, req, rs, es);
    var (sys, ok) := RecordTransition(c, s.sys, id, BASELINE, details, req);
    if ok {
      var ev :| es' == es + [ev] && LegacyOf(ev) == Some(Legacy(BASELINE, Details(details), EntityOf(id)));
      BaselineExactly(cs, s, sys, es, ev, id, space);
    } else {
      SameSpaces(cs, s, sys, es);
    }
  }

  lemma {:induction false} ImportKeeps(c: Config, cs: Codecs, s: Server, op: Op, rs: seq<Record>, es: seq<Event>)
    returns (rs': seq<Record>, es': seq<Event>)
    requires c.configured && Good(c.p.rust) && InStep(c, s.sys, rs, es) && s.sys.auth.Some? && Faithful(cs, s, es) && GoodCodecs(cs)
    requires op.Import? && Proper(op) && BenignOp(c, cs, s, op) && Tracked(s, op)
    ensures var t := OpStep(c, cs, s, op); InStep(c, t.sys, rs', es') && t.sys.auth.Some? && Faithful(cs, t, es')
  {
    hide InStep, RecordTransition, BenignRecord, Faithful, BaselineDetails, LedgerFiles, GoodCodecs, Silent, SpaceOf;
    rs', es' := NoteKeeps(c, cs, s, op.id, op.action, op.details, op.first, rs, es);
    var (sys, ok) := RecordTransition(c, s.sys, op.id, op.action, op.details, op.first);
    if ok {
      var mid := s.(sys := sys);
      CoversIgnoresSys(s, sys, op.id, op.space);
      if LedgerFiles(op.space.files) == map[] {
        EmptyImportExactly(cs, mid, sys, es', op.id, op.space);
      } else {
        rs', es' := BaselineKeeps(c, cs, mid, op.id, op.space, op.second, rs', es');
      }
    }
  }

  lemma {:induction false} CoversIgnoresSys(s: Server, sys: Sys, id: string, space: Space)
    ensures Covers(s.(sys := sys), id, space) <==> Covers(s, id, space)
  {
    hide LedgerFiles;
  }

  // ----- Runs of the server -----

  /** An operation, or upkeep that touches no workspace. */
  datatype Act = Serve(op: Op) | Upkeep(step: Step)

  predicate IsUpkeep(a: Step) {
    a.Reread? || a.RestartRust? || a.RustCheckpoint?
  }

  ghost function ActStep(c: Config, cs: Codecs, s: Server, a: Act): Server
    requires s.sys.auth.Some?
  {
    match a
    case Serve(op) => OpStep(c, cs, s, op)
    case Upkeep(step) => if IsUpkeep(step) then s.(sys := Next(c, s.sys, step)) else s
  }

  ghost predicate Allowed(c: Config, cs: Codecs, s: Server, a: Act)
    requires s.sys.auth.Some?
  {
    match a
    case Serve(op) => Proper(op) && BenignOp(c, cs, s, op) && Tracked(s, op)
    case Upkeep(step) => BenignStep(c, s.sys, step)
  }

  lemma {:induction false} ActKeeps(c: Config, cs: Codecs, s: Server, a: Act, rs: seq<Record>, es: seq<Event>)
    returns (rs': seq<Record>, es': seq<Event>)
    requires c.configured && Good(c.p.rust) && InStep(c, s.sys, rs, es) && s.sys.auth.Some? && Faithful(cs, s, es) && GoodCodecs(cs)
    requires Allowed(c, cs, s, a)
    ensures var t := ActStep(c, cs, s, a); InStep(c, t.sys, rs', es') && t.sys.auth.Some? && Faithful(cs, t, es')
  {
    hide InStep, BenignOp, Faithful, GoodCodecs, OpStep, Tracked, Proper, BenignStep;
    match a
    case Upkeep(step) => rs', es' := UpkeepKeeps(c, cs, s, step, rs, es);
    case Serve(op) =>
      match op {
        case Import(_, _, _, _, _, _) => rs', es' := ImportKeeps(c, cs, s, op, rs, es);
        case UpdateState(_, _, _) => rs', es' := UpdateStateKeeps(c, cs, s, op, rs, es);
        case AppendLine(_, _, _, _) => rs', es' := AppendLineKeeps(c, cs, s, op, rs, es);
        case CreateDocument(_, _, _, _, _) => rs', es' := CreateDocumentKeeps(c, cs, s, op, rs, es);
        case AdmitBlob(_, _, _, _, _) => rs', es' := AdmitBlobKeeps(c, cs, s, op, rs, es);
        case Note(_, _, _, _) => rs', es' := NoteOpKeeps(c, cs, s, op, rs, es);
      }
  }

  lemma {:induction false} NoteOpKeeps(c: Config, cs: Codecs, s: Server, op: Op, rs: seq<Record>, es: seq<Event>)
    returns (rs': seq<Record>, es': seq<Event>)
    requires c.configured && Good(c.p.rust) && InStep(c, s.sys, rs, es) && s.sys.auth.Some? && Faithful(cs, s, es)
    requires op.Note? && Proper(op) && BenignOp(c, cs, s, op)
    ensures var t := OpStep(c, cs, s, op); InStep(c, t.sys, rs', es') && t.sys.auth.Some? && Faithful(cs, t, es')
  {
    hide InStep, BenignRecord, Faithful, RecordTransition, Silent;
    rs', es' := NoteKeeps(c, cs, s, op.id, op.action, op.details, op.req, rs, es);
  }

  lemma {:induction false} UpkeepKeeps(c: Config, cs: Codecs, s: Server, step: Step, rs: seq<Record>, es: seq<Event>)
    returns (rs': seq<Record>, es': seq<Event>)
    requires c.configured && Good(c.p.rust) && InStep(c, s.sys, rs, es) && s.sys.auth.Some? && Faithful(cs, s, es)
    requires BenignStep(c, s.sys, step)
    ensures var t := if IsUpkeep(step) then s.(sys := Next(c, s.sys, step)) else s;
            InStep(c, t.sys, rs', es') && t.sys.auth.Some? && Faithful(cs, t, es')
  {
    hide Faithful, Rebuild, Readable, Refresh;
    rs', es' := rs, es;
    if IsUpkeep(step) {
      if step.Reread? {
        RefreshInStep(c.p, s.sys.log, s.sys.rust.node, rs, es);
        RefreshElsewhere(c.p, s.sys.log, s.sys.rust.node);
      } else {
        RustInStep(c, s.sys, step, rs, es);
      }
      SameSpaces(cs, s, Next(c, s.sys, step), es);
    }
  }

  ghost function Serving(c: Config, cs: Codecs, s: Server, acts: seq<Act>): Server
    decreases |acts|
  {
    if acts == [] || s.sys.auth.None? then s else Serving(c, cs, ActStep(c, cs, s, acts[0]), acts[1..])
  }

  ghost predicate AllAllowed(c: Config, cs: Codecs, s: Server, acts: seq<Act>)
    decreases |acts|
  {
    acts == [] || (s.sys.auth.Some? && Allowed(c, cs, s, acts[0]) && AllAllowed(c, cs, ActStep(c, cs, s, acts[0]), acts[1..]))
  }

  lemma {:induction false} ServingKeeps(c: Config, cs: Codecs, s: Server, acts: seq<Act>, rs: seq<Record>, es: seq<Event>)
    returns (rs': seq<Record>, es': seq<Event>)
    requires c.configured && Good(c.p.rust) && InStep(c, s.sys, rs, es) && s.sys.auth.Some? && Faithful(cs, s, es) && GoodCodecs(cs)
    requires AllAllowed(c, cs, s, acts)
    ensures var t := Serving(c, cs, s, acts); InStep(c, t.sys, rs', es') && t.sys.auth.Some? && Faithful(cs, t, es')
    decreases |acts|
  {
    hide InStep, Faithful, GoodCodecs, ActStep, Allowed;
    rs', es' := rs, es;
    if acts != [] {
      rs', es' := ActKeeps(c, cs, s, acts[0], rs, es);
      rs', es' := ServingKeeps(c, cs, ActStep(c, cs, s, acts[0]), acts[1..], rs', es');
    }
  }

  ghost function StartServing(p: Params): Server {
    Server(Protocol.Start(p), map[])
  }

  lemma {:induction false} StartIsFaithful(cs: Codecs, p: Params)
    ensures Faithful(cs, StartServing(p), [])
  {
    hide HasPrefix;
    assert LedgerFiles(map[]) == map[];
  }

  /**
   * Replay equivalence over all runs of the server: read the recorder's history back, and for
   * every workspace that was imported the replayed ledger projection has the hash of the live
   * one, so the server's replay check reports no difference.
   */
  lemma {:induction false} ReplayIsEquivalent(c: Config, cs: Codecs, hash: View -> string, acts: seq<Act>, log: Log, id: string)
    returns (es: seq<Event>)
    requires c.configured && Good(c.p.rust) && GoodCodecs(cs) && AllAllowed(c, cs, StartServing(c.p), acts)
    ensures var s := Serving(c, cs, StartServing(c.p), acts);
            && Refresh(c.p, true, log, s.sys.rust.node, true).1 == Some(es) && Rebuild(c.p, es).Some?
            && (id in s.spaces ==>
                  ReplayFiles(cs, es, id) == LedgerFiles(s.spaces[id].files)
                  && ViewOf(cs, hash, ReplayFiles(cs, es, id)).hash == ViewOf(cs, hash, LedgerFiles(s.spaces[id].files)).hash)
  {
    hide Readable, Rebuild, ReplayFiles, LedgerFiles, GoodCodecs, Serving, AllAllowed, Refresh, ViewOf, Protocol.Start;
    StartInStep(c);
    StartIsFaithful(cs, c.p);
    StartIsUp(c.p);
    var rs;
    rs, es := ServingKeeps(c, cs, StartServing(c.p), acts, [], []);
    var s := Serving(c, cs, StartServing(c.p), acts);
    RefreshInStep(c.p, log, s.sys.rust.node, rs, es);
    if id in s.spaces {
      assert FaithfulAt(cs, s, es, id);
    }
  }

  lemma {:induction false} StartIsUp(p: Params)
    ensures Protocol.Start(p).auth.Some?
  {
  }
}
