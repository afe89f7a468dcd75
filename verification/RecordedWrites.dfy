/** What a recorded server operation leaves behind: the transition the authority holds, and an event from which the write can be undone. */
module RecordedWrites {
  import opened Wrappers
  import opened Bytes
  import opened Json
  import opened Decimal
  import opened RecordCodec
  import opened Ledger
  import opened EventLog
  import opened Transition
  import ProposalAnswers
  import opened Protocol
  import opened Recovery
  import opened Workspaces
  import opened LedgerReplay
  import opened ServerOps
  import opened ReplayEquivalence

  // ----- The transition -----

  /** The proposal that stands for one request on this state. */
  predicate StandsFor(x: Normal, a: Auth, workspace: string, action: string, details: map<string, Value>, req: Req) {
    && x.transitionID == req.transitionID && x.proposalID == req.proposalID && x.requestID == req.requestID && x.prior == Ref(a.state)
    && x.entity == (if workspace != "" then workspace else "global") && x.node == action
    && x.operation == (if "workspace.imported_" <= action then "import" else "upsert")
    && x.resultData.Obj? && x.resultData.fields.Keys == {"legacy_action", "legacy_details"}
    && x.resultData.fields["legacy_action"] == Str(action)
    && x.resultData.fields["legacy_details"] == Obj(details["authority_source" := Str("explicit_authority_token")])
    && x.admissionData == Obj(map[])
  }

  /** A request under a new id that succeeds leaves the authority holding the transition that stands for it. */
  lemma {:induction false} HeldForRequest(c: Config, s: Sys, workspace: string, action: string, details: map<string, Value>, req: Req)
    requires s.auth.Some? && req.transitionID !in s.auth.value.accepted
    ensures var (t, ok) := RecordTransition(c, s, workspace, action, details, req);
            && t.auth.Some? && (!ok ==> t.auth == s.auth)
            && (ok ==> req.transitionID in t.auth.value.accepted
                       && StandsFor(t.auth.value.accepted[req.transitionID].accepted.proposal, s.auth.value, workspace, action, details, req))
  {
    hide ProposeStep, Normalize, Request, StandsFor;
    var a := s.auth.value;
    var x := ProposalOf(a, workspace, action, details, req);
    ProposalAnswers.NormalExactly(x);
    ProposalAnswers.RefusalKeeps(c.p, c.configured, c.policy, a, s.log, s.rust.node, x, req.now, Reaching(s.rust, req.h));
    if Normalize(x).Success? {
      ProposalAnswers.SuccessExactly(c.p, c.configured, c.policy, a, s.log, s.rust.node, x, req.now, Reaching(s.rust, req.h));
      ProposalAnswers.NewRecordExactly(c.p, c.configured, c.policy, a, s.log, s.rust.node, x, req.now, Reaching(s.rust, req.h));
      NormalStandsFor(a, workspace, action, details, req, Normalize(x).value);
    } else {
      ProposalAnswers.MalformedAnswer(c.p, c.configured, c.policy, a, s.log, s.rust.node, x, req.now, Reaching(s.rust, req.h));
    }
  }

  lemma {:induction false} NormalStandsFor(a: Auth, workspace: string, action: string, details: map<string, Value>, req: Req, n: Normal)
    requires var x := ProposalOf(a, workspace, action, details, req);
             && AsProposal(n) == x.(resultData := AsProposal(n).resultData, admissionData := AsProposal(n).admissionData)
             && Raw.Json(n.resultData) == x.resultData && n.admissionData == Obj(map[])
    ensures StandsFor(n, a, workspace, action, details, req)
  {
    assert |"legacy_action"| == 13 && |"legacy_details"| == 14;
  }

  /** What is newly held has the operation of its entrance: a restoration and an import their own, whatever the proposal says. */
  lemma {:induction false} EntranceDecides(c: Config, s: Sys, entrance: Entrance, x: Proposal, now: string, h: Hazards)
    requires s.auth.Some? && x.transitionID !in s.auth.value.accepted
    ensures var t := Next(c, s, Admit(entrance, x, now, h));
            && t.auth.Some?
            && (x.transitionID in t.auth.value.accepted ==>
                  t.auth.value.accepted[x.transitionID].accepted.proposal.operation ==
                  match entrance case Propose => x.operation case Restore => "restore" case Import => "import")
  {
    hide ProposeStep, Normalize, Request;
    var a, y, reached := s.auth.value, Entered(entrance, x), Reaching(s.rust, h);
    ProposalAnswers.NormalExactly(y);
    ProposalAnswers.RefusalKeeps(c.p, c.configured, c.policy, a, s.log, s.rust.node, y, now, reached);
    if Normalize(y).Success? {
      ProposalAnswers.SuccessExactly(c.p, c.configured, c.policy, a, s.log, s.rust.node, y, now, reached);
      ProposalAnswers.NewRecordExactly(c.p, c.configured, c.policy, a, s.log, s.rust.node, y, now, reached);
      var n := Normalize(y).value;
      assert AsProposal(n).operation == y.operation && AsProposal(n).transitionID == x.transitionID;
    } else {
      ProposalAnswers.MalformedAnswer(c.p, c.configured, c.policy, a, s.log, s.rust.node, y, now, reached);
    }
  }

  // ----- The event -----

  predicate IsWrite(op: Op) {
    op.UpdateState? || op.AppendLine? || op.CreateDocument?
  }

  /** The one file that a write writes. */
  function Written(op: Op): string
    requires IsWrite(op)
  {
    match op
    case UpdateState(_, _, _) => "build-ledger/current/state.yaml"
    case AppendLine(_, _, _, _) => "build-ledger/events/ledger.jsonl"
    case CreateDocument(_, kind, docID, _, _) =>
      match kind
      case Run => "build-ledger/runs/" + docID + ".yaml"
      case Receipt => "build-ledger/receipts/" + docID + ".yaml"
      case Verification => "build-ledger/verification/" + docID + ".yaml"
  }

  /** The details hold a file's bytes from before and after, and their hashes: enough to undo the write, or to do it again. */
  ghost predicate Tells(cs: Codecs, details: map<string, Value>, before: Space, after: Space, p: string) {
    && {"path", "content_base64", "old_content_base64", "new_sha", "old_sha", "authority_source"} <= details.Keys
    && p in after.files && details["path"] == Str(p)
    && details["content_base64"].Str? && cs.unbase64(details["content_base64"].s) == Some(after.files[p].data)
    && details["new_sha"] == Str(cs.sha(after.files[p].data))
    && details["old_content_base64"].Str? && details["old_sha"] == Str(if p in before.files then before.files[p].sha256 else "")
    && (if p in before.files then cs.unbase64(details["old_content_base64"].s) == Some(before.files[p].data)
        else details["old_content_base64"].s == "")
    && details["authority_source"] == Str("explicit_authority_token")
    && (forall q :: q != p ==> (q in before.files <==> q in after.files) && (q in after.files ==> after.files[q] == before.files[q]))
  }

  lemma {:induction false} DetailsTell(cs: Codecs, s: Space, p: string, data: seq<Byte>, extra: map<string, Value>)
    requires GoodCodecs(cs) && Upsert(cs, s, p, data).Some?
    ensures Tells(cs, Details(WriteDetails(cs, s, p, data, extra)), s, Upsert(cs, s, p, data).value, p)
  {
    DetailNames();
    hide Upsert, NewFile, SafePath;
    UpsertPuts(cs, s, p, data);
    assert cs.unbase64(cs.base64(data)) == Some(data);
    assert p in s.files ==> cs.unbase64(cs.base64(s.files[p].data)) == Some(s.files[p].data);
  }

  lemma {:induction false} DetailNames()
    ensures |"path"| == 4 && |"content_base64"| == 14 && |"authority_source"| == 16 && |"old_content_base64"| == 18
    ensures "new_sha" != "old_sha" && |"new_sha"| == 7 && |"old_sha"| == 7
  {
    assert "new_sha"[0] == 'n' && "old_sha"[0] == 'o';
  }

  /** Nothing happened, or the workspace changed at this one file and the history has one more event, of this action, that tells it. */
  ghost predicate ToldOrNothing(cs: Codecs, s: Server, t: Server, id: string, action: string, p: string, es: seq<Event>, es': seq<Event>) {
    if es' == es then t.spaces == s.spaces
    else
      && id in s.spaces && id in t.spaces && t.spaces == s.spaces[id := t.spaces[id]]
      && exists ev, details :: && es' == es + [ev] && LegacyOf(ev) == Some(Legacy(action, details, EntityOf(id)))
                               && Tells(cs, details, s.spaces[id], t.spaces[id], p)
  }

  lemma {:induction false} MutateTells(c: Config, cs: Codecs, s: Server, id: string, action: string, p: string, data: seq<Byte>,
                                       extra: map<string, Value>, req: Req, rs: seq<Record>, es: seq<Event>)
    returns (rs': seq<Record>, es': seq<Event>)
    requires c.configured && Good(c.p.rust) && InStep(c, s.sys, rs, es) && s.sys.auth.Some? && GoodCodecs(cs) && action != ""
    requires BenignRecord(c, s.sys, id, action, WriteDetails(cs, SpaceOf(s, id), p, data, extra), req)
    ensures var t := Mutate(c, s, id, action, WriteDetails(cs, SpaceOf(s, id), p, data, extra), req, Upsert(cs, SpaceOf(s, id), p, data));
            InStep(c, t.sys, rs', es') && ToldOrNothing(cs, s, t, id, action, p, es, es')
  {
    hide InStep, RecordTransition, BenignRecord, LegacyOf, Details, WriteDetails, Tells, Upsert, GoodCodecs, EntityOf;
    var space := SpaceOf(s, id);
    var details := WriteDetails(cs, space, p, data, extra);
    rs', es' := rs, es;
    if id in s.spaces && Upsert(cs, space, p, data).Some? {
      rs', es' := RecordOutcome(c, s.sys, id, action, details, req, rs, es);
      DetailsTell(cs, space, p, data, extra);
      assert RecordTransition(c, s.sys, id, action, details, req).1 ==> |es'| == |es| + 1;
    }
  }

  /**
   * Every write to a ledger that succeeds, and none that fails, adds one event, and that event
   * tells the file, its bytes before and its bytes after: it can be undone from the history.
   */
  lemma {:induction false} WritesAreTold(c: Config, cs: Codecs, s: Server, op: Op, rs: seq<Record>, es: seq<Event>)
    returns (rs': seq<Record>, es': seq<Event>)
    requires c.configured && Good(c.p.rust) && InStep(c, s.sys, rs, es) && s.sys.auth.Some? && GoodCodecs(cs)
    requires IsWrite(op) && BenignOp(c, cs, s, op)
    ensures var t := OpStep(c, cs, s, op);
            InStep(c, t.sys, rs', es') && ToldOrNothing(cs, s, t, op.id, Recorded(cs, s, op).0, Written(op), es, es')
  {
    hide InStep, BenignRecord, ToldOrNothing, WriteDetails, Mutate, GoodCodecs, Upsert, DataOf, Appended, SpaceOf;
    Actions();
    WrittenIs(op);
    var space := SpaceOf(s, op.id);
    match op
    case UpdateState(id, body, req) =>
      rs', es' := MutateTells(c, cs, s, id, "build_ledger.state.updated", STATE_FILE, body, map["new_size" := Int(|body|)], req, rs, es);
    case AppendLine(id, line, eventID, req) =>
      rs', es' := MutateTells(c, cs, s, id, "build_ledger.event.appended", EVENTS_FILE, Appended(DataOf(space, EVENTS_FILE), line),
                              map["event" := eventID], req, rs, es);
    case CreateDocument(id, kind, docID, body, req) =>
      rs', es' := MutateTells(c, cs, s, id, CreatedBy(kind), DocumentPath(kind, docID), body, map["doc_id" := Str(docID)], req, rs, es);
  }

  lemma {:induction false} WrittenIs(op: Op)
    requires IsWrite(op)
    ensures Written(op) == match op
                           case UpdateState(_, _, _) => STATE_FILE
                           case AppendLine(_, _, _, _) => EVENTS_FILE
                           case CreateDocument(_, kind, docID, _, _) => DocumentPath(kind, docID)
                           case _ => ""
  {
    if op.CreateDocument? {
      Regroup(LEDGER, DirOf(op.kind), "/", op.docID, ".yaml");
      Directories();
    } else {
      LedgerFile();
    }
  }

  lemma {:induction false} Regroup(a: string, b: string, c: string, d: string, e: string)
    ensures a + (b + c + d + e) == (a + b + c) + d + e
  {
  }

  lemma {:induction false} Directories()
    ensures LEDGER + "runs" + "/" == "build-ledger/runs/"
    ensures LEDGER + "receipts" + "/" == "build-ledger/receipts/"
    ensures LEDGER + "verification" + "/" == "build-ledger/verification/"
  {
  }

  lemma {:induction false} LedgerFile()
    ensures STATE_FILE == "build-ledger/current/state.yaml" && EVENTS_FILE == "build-ledger/events/ledger.jsonl"
  {
  }

  /** Different documents are different files, and none is the state or the event file. */
  lemma {:induction false} DocumentsApart(a: Op, b: Op)
    requires a.CreateDocument? && b.CreateDocument?
    ensures Written(a) == Written(b) <==> a.kind == b.kind && a.docID == b.docID
    ensures Written(a) != "build-ledger/current/state.yaml" && Written(a) != "build-ledger/events/ledger.jsonl"
  {
    var x, y := Written(a), Written(b);
    assert x[14] == (match a.kind case Run => 'u' case Receipt => 'e' case Verification => 'e');
    assert x[13] == (match a.kind case Run => 'r' case Receipt => 'r' case Verification => 'v');
    assert y[14] == (match b.kind case Run => 'u' case Receipt => 'e' case Verification => 'e');
    assert y[13] == (match b.kind case Run => 'r' case Receipt => 'r' case Verification => 'v');
    if x == y && a.kind == b.kind {
      var k := |x| - |a.docID| - 5;
      assert |a.docID| == |b.docID| && a.docID == x[k..|x| - 5] && b.docID == y[k..|y| - 5];
    }
    assert "build-ledger/current/state.yaml"[13] == 'c' && "build-ledger/events/ledger.jsonl"[13] == 'e';
  }

  /** The details of an import's baseline count its ledger files and hold the bytes of each. */
  lemma {:induction false} BaselineTells(cs: Codecs, files: Files)
    requires GoodCodecs(cs)
    ensures var d := Details(BaselineDetails(cs, files));
            && d.Keys == {"file_count", "files", "authority_source"}
            && NatValue(d["file_count"]) == Some(|files|) && d["files"].Obj? && d["files"].fields.Keys == files.Keys
            && forall p :: p in files ==> d["files"].fields[p].Str? && cs.unbase64(d["files"].fields[p].s) == Some(files[p])
  {
    DetailKeys();
    IntRoundTrip(|files|);
    hide Dec;
    forall p | p in files ensures cs.unbase64(cs.base64(files[p])) == Some(files[p]) {
    }
  }
}
