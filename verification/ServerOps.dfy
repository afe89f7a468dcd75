/**
 * The server's mutating operations over the authority: each builds a candidate, records a
 * transition, and only then changes the live workspace.  Replaying the recorder's history
 * gives every workspace's live build-ledger files back.
 */
module ServerOps {
  import opened Wrappers
  import opened Bytes
  import opened Json
  import opened Decimal
  import opened RecordCodec
  import opened Ledger
  import opened EventLog
  import opened EventLogTheory
  import opened Transition
  import opened TransitionTheory
  import opened Protocol
  import opened Safety
  import opened Recovery
  import opened Workspaces
  import opened LedgerReplay

  /** What a request brings: its ids, the time, and what goes wrong around its one append. */
  datatype Req = Req(transitionID: string, proposalID: string, requestID: string, now: string, h: Hazards)

  datatype Server = Server(sys: Sys, spaces: map<string, Space>)

  // ----- Recording a transition -----

  /** withAuthoritySource. */
  function Details(d: map<string, Value>): map<string, Value> {
    d["authority_source" := Str("explicit_authority_token")]
  }

  function ResultValue(action: string, details: map<string, Value>): Value {
    Obj(map["legacy_action" := Str(action)]["legacy_details" := Obj(details)])
  }

  function EntityOf(workspace: string): string {
    if workspace == "" then "global" else workspace
  }

  /** What proposeTransition hands to the authority: always on top of the current state. */
  function ProposalOf(a: Auth, workspace: string, action: string, details: map<string, Value>, req: Req): Proposal {
    Proposal(req.transitionID, req.proposalID, req.requestID, Ref(a.state),
             if HasPrefix(action, "workspace.imported_") then "import" else "upsert",
             EntityOf(workspace), action, Json(ResultValue(action, Details(details))), Missing)
  }

  /** recordTransition, with a receipt that can be saved: the system afterwards and whether it succeeded. */
  ghost function RecordTransition(c: Config, s: Sys, workspace: string, action: string, details: map<string, Value>, req: Req): (Sys, bool)
    requires s.auth.Some?
  {
    var (a, log, n, r) :=
      ProposeStep(c.p, c.configured, c.policy, s.auth.value, s.log, s.rust.node,
                  ProposalOf(s.auth.value, workspace, action, details, req), req.now, Reaching(s.rust, req.h));
    (Sys(s.rust.(node := n), log, Some(a)), r.Success?)
  }

  // ----- Operations -----

  const STATE_FILE := LEDGER + "current/state.yaml"
  const EVENTS_FILE := LEDGER + "events/ledger.jsonl"

  /** The three kinds of document: directory and action. */
  datatype Kind = Run | Receipt | Verification

  function DirOf(k: Kind): string {
    match k
    case Run => "runs"
    case Receipt => "receipts"
    case Verification => "verification"
  }

  function CreatedBy(k: Kind): string {
    match k
    case Run => "build_ledger.run.created"
    case Receipt => "build_ledger.receipt.created"
    case Verification => "build_ledger.verification.created"
  }

  /** An operation whose validation of the body has passed. */
  datatype Op =
    | Import(id: string, space: Space, action: string, details: map<string, Value>, first: Req, second: Req)
    | UpdateState(id: string, body: seq<Byte>, req: Req)
    | AppendLine(id: string, line: seq<Byte>, eventID: Value, req: Req)
    | CreateDocument(id: string, kind: Kind, docID: string, body: seq<Byte>, req: Req)
    | AdmitBlob(id: string, target: string, data: seq<Byte>, details: map<string, Value>, req: Req)
    | Note(id: string, action: string, details: map<string, Value>, req: Req)

  function DocumentPath(k: Kind, docID: string): string {
    LEDGER + (DirOf(k) + "/" + docID + ".yaml")
  }

  /** The details of an upsert of one ledger file. */
  function WriteDetails(cs: Codecs, s: Space, p: string, data: seq<Byte>, extra: map<string, Value>): map<string, Value> {
    extra["old_sha" := Str(if p in s.files then s.files[p].sha256 else "")]["new_sha" := Str(cs.sha(data))]
         ["old_content_base64" := Str(if p in s.files then cs.base64(s.files[p].data) else "")]
         ["path" := Str(p)]["content_base64" := Str(cs.base64(data))]
  }

  /** A mutation of one file: candidate, transition, then the live file. */
  ghost function Mutate(c: Config, s: Server, id: string, action: string, details: map<string, Value>, req: Req, candidate: Option<Space>): Server
    requires s.sys.auth.Some?
  {
    if id !in s.spaces || candidate.None? then s else
      var (sys, ok) := RecordTransition(c, s.sys, id, action, details, req);
      Server(sys, if ok then s.spaces[id := candidate.value] else s.spaces)
  }

  function SpaceOf(s: Server, id: string): Space {
    if id in s.spaces then s.spaces[id] else Space(map[], [])
  }

  /** The ledger files of an import, in base64. */
  function Encoded(cs: Codecs, files: Files): map<string, Value> {
    map p | p in files :: Str(cs.base64(files[p]))
  }

  function BaselineDetails(cs: Codecs, files: Files): map<string, Value> {
    map["file_count" := Int(|files|)]["files" := Obj(Encoded(cs, files))]
  }

  /** opImportZip and opImportEnvelope: the workspace appears only after its baseline is recorded. */
  ghost function ImportStep(c: Config, cs: Codecs, s: Server, op: Op): Server
    requires s.sys.auth.Some? && op.Import?
  {
    var (sys, ok) := RecordTransition(c, s.sys, op.id, op.action, op.details, op.first);
    if !ok then s.(sys := sys)
    else
      var ledger := LedgerFiles(op.space.files);
      if ledger == map[] then Server(sys, s.spaces[op.id := op.space])
      else
        var (sys', ok') := RecordTransition(c, sys, op.id, BASELINE, BaselineDetails(cs, ledger), op.second);
        Server(sys', if ok' then s.spaces[op.id := op.space] else s.spaces)
  }

  ghost function OpStep(c: Config, cs: Codecs, s: Server, op: Op): Server
    requires s.sys.auth.Some?
  {
    match op
    case Import(_, _, _, _, _, _) => ImportStep(c, cs, s, op)
    case UpdateState(id, body, req) =>
      Mutate(c, s, id, "build_ledger.state.updated",
             WriteDetails(cs, SpaceOf(s, id), STATE_FILE, body, map["new_size" := Int(|body|)]), req,
             Upsert(cs, SpaceOf(s, id), STATE_FILE, body))
    case AppendLine(id, line, eventID, req) =>
      var data := Appended(DataOf(SpaceOf(s, id), EVENTS_FILE), line);
      Mutate(c, s, id, "build_ledger.event.appended",
             WriteDetails(cs, SpaceOf(s, id), EVENTS_FILE, data, map["event" := eventID]), req,
             AppendTo(cs, SpaceOf(s, id), EVENTS_FILE, line))
    case CreateDocument(id, kind, docID, body, req) =>
      var p := DocumentPath(kind, docID);
      Mutate(c, s, id, CreatedBy(kind), WriteDetails(cs, SpaceOf(s, id), p, body, map["doc_id" := Str(docID)]), req,
             Upsert(cs, SpaceOf(s, id), p, body))
    case AdmitBlob(id, target, data, details, req) =>
      Mutate(c, s, id, "quarantine.blob.admitted", details, req, Upsert(cs, SpaceOf(s, id), target, data))
    case Note(id, action, details, req) =>
      s.(sys := RecordTransition(c, s.sys, id, action, details, req).0)
  }

  // ----- What a recorded transition is in the history -----

  /** No accepted transition was made on top of the current state. */
  ghost predicate OnOlderStates(a: Auth) {
    forall id :: id in a.accepted ==> a.accepted[id].accepted.proposal.prior.version < a.state.version
  }

  lemma {:induction false} RebuiltOnOlderStates(p: Params, events: seq<Event>)
    requires Rebuild(p, events).Some?
    ensures OnOlderStates(Rebuild(p, events).value)
    decreases |events|
  {
    hide Rebuild, Replayed, ValidAck;
    if events == [] {
      NothingTracks(p);
    } else {
      var m := |events| - 1;
      RebuildLast(p, events);
      RebuiltOnOlderStates(p, events[..m]);
      var a := Rebuild(p, events[..m]).value;
      if events[m].kind == ACCEPTED_KIND {
        var n, dup := ReplayedFacts(p, a, events[m]);
        SteppedOnOlderStates(p, a, n, events[m], dup);
      } else {
        assert Replayed(p, a, events[m]) == Some(a) by { OtherKindsPass(p, a, events[m]); }
      }
    }
  }

  lemma {:induction false} SteppedOnOlderStates(p: Params, a: Auth, n: Normal, ev: Event, dup: bool)
    requires OnOlderStates(a) && n.prior == Ref(a.state)
    ensures OnOlderStates(Stepped(p, a, n, ev, dup))
  {
    hide Request, HashProjection, Put;
  }

  /** A transition id that is used again on top of the current state is a conflict, never a duplicate. */
  lemma {:induction false} ReusedIdConflicts(p: Params, events: seq<Event>, a: Auth, n: Normal)
    requires Rebuild(p, events) == Some(a) && n.transitionID in a.accepted && n.prior == Ref(a.state)
    ensures a.accepted[n.transitionID].request != Request(n)
  {
    RebuildTracks(p, events);
    RebuiltOnOlderStates(p, events);
    var r := a.accepted[n.transitionID];
    assert BindsEvent(events, n.transitionID, r);
    RequestInjective(r.accepted.proposal, n);
    hide Rebuild, Request, Settled, Says, ValidAck, WellFormed, Covers;
  }

  /** On the current state, a proposal that succeeds was admitted just now. */
  lemma {:induction false} SuccessIsNew(c: Config, events: seq<Event>, a: Auth, log: Log, n: Node, proposal: Proposal, now: string, h: Hazards)
    requires Rebuild(c.p, events) == Some(a) && proposal.prior == Ref(a.state)
    ensures ProposeStep(c.p, c.configured, c.policy, a, log, n, proposal, now, h).3.Success? ==> Proposed(c, a, proposal).Some?
  {
    hide Rebuild, Request, Apply, AppendEvent, Clone, ValidAck, TransitionEvent;
    if Normalize(proposal).Success? {
      var x := Normalize(proposal).value;
      assert x.prior == proposal.prior;
      hide Normalize;
      if x.transitionID in a.accepted {
        ReusedIdConflicts(c.p, events, a, x);
      }
    }
  }

  /** Reading the event of a recorded transition gives back its action, details and workspace. */
  lemma {:induction false} LegacyOfSaved(p: Params, a: Auth, x: Normal, log: Log, n: Node, now: string, action: string, details: map<string, Value>)
    requires x.resultData == ResultValue(action, details) && action != ""
    ensures LegacyOf(SavedEvent(p, n, Prepared(log, p, ProposedEvent(p, a, x), now))) == Some(Legacy(action, details, x.entity))
  {
    var result := Ref(Apply(p, a.state, x));
    var ev := SavedEvent(p, n, Prepared(log, p, ProposedEvent(p, a, x), now));
    PreparedFields(log, p, ProposedEvent(p, a, x), now);
    SavedFields(p, a, x, log, n, now);
    PayloadRoundTrip(x, result);
    hide Apply, Payload, Prepared, NextRecord, Evidence, DecodeAccepted;
    assert |"accepted"| == 8 && |ACTION| == 19;
    assert ev.details[DETAIL] == Payload(x, result);
    ResultReads(action, details, x.entity);
    hide ResultOf, ResultValue;
  }

  lemma {:induction false} ResultReads(action: string, details: map<string, Value>, workspace: string)
    requires action != ""
    ensures ResultOf(Json(ResultValue(action, details)), workspace) == Some(Legacy(action, details, workspace))
  {
    assert |"legacy_action"| == 13 && |"legacy_details"| == 14;
  }

  // ----- One recorded transition -----

  /** The request's append is benign and its payload stable. */
  ghost predicate BenignRecord(c: Config, s: Sys, workspace: string, action: string, details: map<string, Value>, req: Req) {
    s.auth.Some? ==> Benign(req.h) && StableProposal(c, s.auth.value, ProposalOf(s.auth.value, workspace, action, details, req))
  }

  lemma {:induction false} ProposedIs(c: Config, a: Auth, x: Proposal)
    requires Proposed(c, a, x).Some? && x.resultData.Json?
    ensures var n := Proposed(c, a, x).value; n.resultData == x.resultData.v && n.entity == x.entity
  {
  }

  /** Recording adds exactly the event that reads back as this action, or nothing when it fails. */
  lemma {:induction false} RecordOutcome(c: Config, s: Sys, workspace: string, action: string, details: map<string, Value>, req: Req,
                                         rs: seq<Record>, es: seq<Event>)
    returns (rs': seq<Record>, es': seq<Event>)
    requires c.configured && Good(c.p.rust) && InStep(c, s, rs, es) && s.auth.Some? && action != ""
    requires BenignRecord(c, s, workspace, action, details, req)
    ensures var (s', ok) := RecordTransition(c, s, workspace, action, details, req);
            && InStep(c, s', rs', es') && s'.auth.Some? && rs <= rs'
            && (if ok then exists ev :: es' == es + [ev] && LegacyOf(ev) == Some(Legacy(action, Details(details), EntityOf(workspace)))
                else es' == es)
  {
    hide ProposeStep, AppendEvent, Rebuild, Readable, ProposedEvent, SavedEvent, Aligned, Normalize, StableProposal, LegacyOf, ResultValue,
         Details, Proposed;
    var a := s.auth.value;
    var proposal := ProposalOf(a, workspace, action, details, req);
    SuccessIsNew(c, es, a, s.log, s.rust.node, proposal, req.now, req.h);
    rs', es' := AdmitInStep(c, a, s.log, s.rust.node, proposal, req.now, req.h, rs, es);
    if Proposed(c, a, proposal).Some? {
      var x := Proposed(c, a, proposal).value;
      ProposedIs(c, a, proposal);
      LegacyOfSaved(c.p, a, x, s.log, s.rust.node, req.now, action, Details(details));
    }
  }
}
