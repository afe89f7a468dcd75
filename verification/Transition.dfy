/**
 * The transition authority as values: proposals and their canonical form, the projection
 * they advance, what an accepted transition looks like in an event, and replay.
 */
module Transition {
  import opened Wrappers
  import opened Json
  import opened Decimal
  import opened Members
  import opened Order
  import opened Ledger
  import opened EventLog

  datatype Reject = Malformed | Invalid | Stale | Policy | Durable | Conflict | ReplayCorruption

  /** A versioned semantic predecessor. */
  datatype StateRef = StateRef(id: string, version: nat, hash: string)

  /** A json.RawMessage: no bytes, bytes that are not one JSON value, or a value. */
  datatype Raw = Missing | BadJson | Json(v: Value)

  datatype Proposal = Proposal(
    transitionID: string, proposalID: string, requestID: string, prior: StateRef, operation: string,
    entity: string, node: string, resultData: Raw, admissionData: Raw)

  /** A proposal whose data has been put into canonical form. */
  datatype Normal = Normal(
    transitionID: string, proposalID: string, requestID: string, prior: StateRef, operation: string,
    entity: string, node: string, resultData: Value, admissionData: Value)

  datatype Binding = Binding(eventID: string, sequence: nat, eventHash: string, rustAck: Option<RustAck>)

  const NoBinding := Binding("", 0, "", None)

  datatype Accepted = Accepted(proposal: Normal, result: StateRef, admission: Raw, durable: Binding, duplicate: bool)

  datatype AcceptedRecord = AcceptedRecord(request: string, accepted: Accepted)

  datatype NodeState = NodeState(entity: string, node: string, data: Value)

  /** Nodes is None for Go's nil slice, which marshals as null, not as an empty array. */
  datatype Projection = Projection(id: string, version: nat, nodes: Option<seq<NodeState>>, hash: string)

  datatype Auth = Auth(state: Projection, accepted: map<string, AcceptedRecord>)

  // ----- Canonical form of a proposal -----

  predicate Space(c: char) {
    var n := c as int;
    9 <= n <= 13 || n == 32 || n == 0x85 || n == 0xA0 || n == 0x1680 || 0x2000 <= n <= 0x200A
    || n == 0x2028 || n == 0x2029 || n == 0x202F || n == 0x205F || n == 0x3000
  }

  /** strings.TrimSpace(s) == "". */
  predicate Blank(s: string) {
    forall i :: 0 <= i < |s| ==> Space(s[i])
  }

  predicate SupportedOperation(op: string) {
    op == "upsert" || op == "restore" || op == "import"
  }

  predicate MissingIdentity(p: Proposal) {
    Blank(p.transitionID) || Blank(p.proposalID) || Blank(p.requestID) || Blank(p.entity) || Blank(p.node)
    || Blank(p.prior.id) || Blank(p.prior.hash)
  }

  /** canonicalProposal, without the request bytes. */
  function Normalize(p: Proposal): Result<Normal, Reject> {
    if MissingIdentity(p) then Failure(Malformed)
    else if !SupportedOperation(p.operation) then Failure(Invalid)
    else if !p.resultData.Json? then Failure(Malformed)
    else if p.admissionData.BadJson? then Failure(Malformed)
    else
      Success(Normal(p.transitionID, p.proposalID, p.requestID, p.prior, p.operation, p.entity, p.node, p.resultData.v,
                     if p.admissionData.Missing? then Obj(map[]) else p.admissionData.v))
  }

  /** The same request before normalization. */
  function AsProposal(n: Normal): Proposal {
    Proposal(n.transitionID, n.proposalID, n.requestID, n.prior, n.operation, n.entity, n.node,
             Json(n.resultData), Json(n.admissionData))
  }

  const REF_KEYS: seq<string> := ["id", "version", "hash"]

  function RefValue(r: StateRef): Value {
    Obj(Collect(REF_KEYS, [Some(Str(r.id)), Some(Int(r.version)), Some(Str(r.hash))]))
  }

  const PROPOSAL_KEYS: seq<string> :=
    ["transition_id", "proposal_id", "request_id", "prior", "operation", "entity", "node", "result_data", "admission_data"]

  function ProposalSlots(n: Normal): seq<Option<Value>> {
    [Some(Str(n.transitionID)), Some(Str(n.proposalID)), Some(Str(n.requestID)), Some(RefValue(n.prior)),
     Some(Str(n.operation)), Some(Str(n.entity)), Some(Str(n.node)), Some(n.resultData), Some(n.admissionData)]
  }

  function ProposalValue(n: Normal): Value {
    Obj(Collect(PROPOSAL_KEYS, ProposalSlots(n)))
  }

  /** The canonical request bytes that a retry is compared by. */
  ghost function Request(n: Normal): string {
    Canonical(ProposalValue(n), true)
  }

  // ----- The projection -----

  predicate KeyLess(a: NodeState, b: NodeState) {
    if a.entity == b.entity then Less(a.node, b.node) else Less(a.entity, b.entity)
  }

  predicate SameKey(a: NodeState, b: NodeState) {
    a.entity == b.entity && a.node == b.node
  }

  /** Strictly ordered by (entity, node). */
  ghost predicate Ordered(nodes: seq<NodeState>) {
    forall i, j :: 0 <= i < j < |nodes| ==> KeyLess(nodes[i], nodes[j])
  }

  /** The nodes with one key set: replaced in place, or put where the order wants it. */
  function Put(nodes: seq<NodeState>, x: NodeState): seq<NodeState> {
    if nodes == [] then [x]
    else if SameKey(nodes[0], x) then [x] + nodes[1..]
    else if KeyLess(x, nodes[0]) then [x] + nodes
    else [nodes[0]] + Put(nodes[1..], x)
  }

  function List(p: Projection): seq<NodeState> {
    if p.nodes.Some? then p.nodes.value else []
  }

  /** cloneProjection: appending nothing to a nil slice leaves it nil. */
  function Clone(p: Projection): Projection {
    p.(nodes := if List(p) == [] then None else Some(List(p)))
  }

  const NODE_KEYS: seq<string> := ["entity", "node", "data"]

  function NodeValue(n: NodeState): Value {
    Obj(Collect(NODE_KEYS, [Some(Str(n.entity)), Some(Str(n.node)), Some(n.data)]))
  }

  const PROJECTION_KEYS: seq<string> := ["id", "version", "nodes", "hash"]

  function NodesValue(nodes: Option<seq<NodeState>>): Value {
    if nodes.None? then Null else Arr(seq(|nodes.value|, i requires 0 <= i < |nodes.value| => NodeValue(nodes.value[i])))
  }

  function ProjectionValue(p: Projection): Value {
    Obj(Collect(PROJECTION_KEYS, [Some(Str(p.id)), Some(Int(p.version)), Some(NodesValue(p.nodes)), Some(Str(p.hash))]))
  }

  /** hashProjection: over the canonical text of a clone with no hash. */
  ghost function HashProjection(p: Params, x: Projection): string {
    p.textHash(Canonical(ProjectionValue(Clone(x).(hash := "")), true))
  }

  ghost function Sealed(p: Params, x: Projection): Projection {
    x.(hash := HashProjection(p, x))
  }

  ghost function Initial(p: Params): Projection {
    Sealed(p, Projection("semantic-state", 0, Some([]), ""))
  }

  function Ref(x: Projection): StateRef {
    StateRef(x.id, x.version, x.hash)
  }

  /** apply: one key set, one version further, hash recomputed. */
  ghost function Apply(p: Params, current: Projection, n: Normal): Projection {
    Sealed(p, Projection(current.id, current.version + 1, Some(Put(List(current), NodeState(n.entity, n.node, n.resultData))), current.hash))
  }

  // ----- Accepted transitions in events -----

  const DURABLE_KEYS: seq<string> := ["event_id", "sequence", "event_hash"]

  const ACCEPTED_KEYS: seq<string> := ["proposal", "result", "admission_data", "durable"]

  /** A binding that has not been made yet. */
  function ZeroBinding(): map<string, Value> {
    Collect(DURABLE_KEYS, [Some(Str("")), Some(Int(0)), Some(Str(""))])
  }

  function AcceptedSlots(n: Normal, result: StateRef): seq<Option<Value>> {
    [Some(ProposalValue(n)), Some(RefValue(result)), Some(n.admissionData), Some(Obj(ZeroBinding()))]
  }

  /** The payload Propose hands to the log: the accepted transition before it has a binding. */
  function Payload(n: Normal, result: StateRef): Value {
    Obj(Collect(ACCEPTED_KEYS, AcceptedSlots(n, result)))
  }

  const DETAIL := "accepted_transition"
  const ACTION := "transition.accepted"

  function TransitionEvent(n: Normal, result: StateRef): Event {
    Event(n.transitionID, 0, "", ACCEPTED_KIND, n.entity, "", ACTION, "accepted", map[DETAIL := Payload(n, result)], "", "", "", None)
  }

  function BindingOf(ev: Event): Binding {
    Binding(ev.id, ev.sequence, ev.hash, ev.rustAck)
  }

  /** An object member; absent and null read as an empty struct. */
  function ObjField(m: map<string, Value>, key: string): Option<map<string, Value>> {
    if key !in m || m[key].Null? then Some(map[])
    else if m[key].Obj? then Some(m[key].fields)
    else None
  }

  function RawField(m: map<string, Value>, key: string): Raw {
    if key in m then Json(m[key]) else Missing
  }

  function DecodeRef(m: map<string, Value>): Option<StateRef> {
    var id, version, hash := StrField(m, "id"), NatField(m, "version"), StrField(m, "hash");
    if id.None? || version.None? || hash.None? then None else Some(StateRef(id.value, version.value, hash.value))
  }

  function DecodeProposal(m: map<string, Value>): Option<Proposal> {
    var t, pr, rq, op := StrField(m, "transition_id"), StrField(m, "proposal_id"), StrField(m, "request_id"), StrField(m, "operation");
    var en, no, prior := StrField(m, "entity"), StrField(m, "node"), ObjField(m, "prior");
    if t.None? || pr.None? || rq.None? || op.None? || en.None? || no.None? || prior.None? then None else
      var ref := DecodeRef(prior.value);
      if ref.None? then None else
        Some(Proposal(t.value, pr.value, rq.value, ref.value, op.value, en.value, no.value,
                      RawField(m, "result_data"), RawField(m, "admission_data")))
  }

  /** The shape of a decoded binding matters, its content is replaced. */
  predicate DurableField(m: map<string, Value>) {
    var d := ObjField(m, "durable");
    d.Some? && StrField(d.value, "event_id").Some? && NatField(d.value, "sequence").Some?
    && StrField(d.value, "event_hash").Some? && AckField(d.value)
  }

  predicate DuplicateField(m: map<string, Value>) {
    "duplicate" !in m || m["duplicate"].Null? || m["duplicate"].Bool?
  }

  datatype Decoded = Decoded(proposal: Proposal, result: StateRef, admission: Raw, duplicate: bool)

  /** json.Unmarshal of a payload into an accepted transition. */
  function DecodeAccepted(v: Value): Option<Decoded> {
    if !v.Obj? then None else
      var m := v.fields;
      var pm, rm := ObjField(m, "proposal"), ObjField(m, "result");
      if pm.None? || rm.None? || !DurableField(m) || !DuplicateField(m) then None else
        var proposal, result := DecodeProposal(pm.value), DecodeRef(rm.value);
        if proposal.None? || result.None? then None else
          Some(Decoded(proposal.value, result.value, RawField(m, "admission_data"), "duplicate" in m && m["duplicate"] == Bool(true)))
  }

  // ----- Replay -----

  predicate Enveloped(ev: Event) {
    ev.status == "accepted" && ev.action == ACTION && ev.id != "" && |ev.details| == 1 && DETAIL in ev.details
  }

  /** The checks of replay once the payload is decoded. */
  ghost function ReplayDecoded(p: Params, a: Auth, ev: Event, d: Decoded): Option<Auth> {
    var normal := Normalize(d.proposal);
    if normal.Failure? then None else
      var n := normal.value;
      if ev.id != n.transitionID || n.transitionID in a.accepted || n.prior != Ref(a.state) then None else
        var next := Apply(p, a.state, n);
        if d.result != Ref(next) || d.admission != Json(n.admissionData) then None else
          var accepted := Accepted(n, d.result, Json(n.admissionData), BindingOf(ev), d.duplicate);
          Some(Auth(next, a.accepted[n.transitionID := AcceptedRecord(Request(n), accepted)]))
  }

  /** Authority.replay; a failure is always ReplayCorruption. */
  ghost function Replayed(p: Params, a: Auth, ev: Event): Option<Auth> {
    if ev.kind != ACCEPTED_KIND then Some(a)
    else if !Enveloped(ev) then None
    else
      var decoded := DecodeAccepted(ev.details[DETAIL]);
      if decoded.None? then None else ReplayDecoded(p, a, ev, decoded.value)
  }

  ghost function ReplayAll(p: Params, a: Auth, events: seq<Event>): Option<Auth>
    decreases |events|
  {
    if events == [] then Some(a) else
      var next := Replayed(p, a, events[0]);
      if next.None? then None else ReplayAll(p, next.value, events[1..])
  }

  ghost function Fresh(p: Params): Auth {
    Auth(Initial(p), map[])
  }

  /** Rebuild: the whole history must be valid before any state is derived from it. */
  ghost function Rebuild(p: Params, events: seq<Event>): Option<Auth> {
    if ValidHistory(p, events) then ReplayAll(p, Fresh(p), events) else None
  }

  // ----- Admission -----

  /** Propose; unchanged state everywhere except after a durable, acknowledged append. */
  ghost function ProposeStep(p: Params, configured: bool, policy: (Normal, Projection) -> bool,
                             a: Auth, log: Log, node: Node, proposal: Proposal, now: string, h: Hazards)
    : (Auth, Log, Node, Result<Accepted, Reject>)
  {
    var normal := Normalize(proposal);
    if normal.Failure? then (a, log, node, Failure(normal.error))
    else
      var n := normal.value;
      if n.transitionID in a.accepted then
        var prior := a.accepted[n.transitionID];
        (a, log, node, if prior.request == Request(n) then Success(prior.accepted.(duplicate := true)) else Failure(Conflict))
      else if n.prior != Ref(a.state) then (a, log, node, Failure(Stale))
      else if !policy(n, Clone(a.state)) then (a, log, node, Failure(Policy))
      else
        var next := Apply(p, a.state, n);
        var (log', node', saved) := AppendEvent(p, configured, log, node, TransitionEvent(n, Ref(next)), now, h);
        if saved.None? || saved.value.id != n.transitionID || !ValidAck(saved.value) then (a, log', node', Failure(Durable))
        else
          var accepted := Accepted(n, Ref(next), Json(n.admissionData), BindingOf(saved.value), false);
          (Auth(next, a.accepted[n.transitionID := AcceptedRecord(Request(n), accepted)]), log', node', Success(accepted))
  }
}
