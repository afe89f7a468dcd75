/** What Propose answers, for every authority, proposal and hazard: which failure, which record, and when it counts as a duplicate. */
module ProposalAnswers {
  import opened Wrappers
  import opened Json
  import Ledger
  import opened EventLog
  import opened Transition
  import TransitionTheory
  import ProjectionTheory

  /** The authority holds this transition, under its id and with exactly this request. */
  ghost predicate HoldsRequest(a: Auth, n: Normal) {
    n.transitionID in a.accepted && a.accepted[n.transitionID].request == Request(n)
  }

  /** One call, from before to after. */
  datatype Call = Call(before: Auth, after: Auth, log: Log, node: Ledger.Node, log': Log, node': Ledger.Node, answer: Result<Accepted, Reject>)

  ghost function CallOf(p: Params, configured: bool, policy: (Normal, Projection) -> bool, a: Auth, log: Log, node: Ledger.Node,
                        proposal: Proposal, now: string, h: Hazards): Call
  {
    var (b, log', node', r) := ProposeStep(p, configured, policy, a, log, node, proposal, now, h);
    Call(a, b, log, node, log', node', r)
  }

  /**
   * The answer to a well-formed proposal: success exactly if the authority afterwards holds the
   * transition with this request; the answer is then the held record, marked as a duplicate
   * exactly if it was held before.
   */
  lemma {:induction false} SuccessExactly(p: Params, configured: bool, policy: (Normal, Projection) -> bool, a: Auth, log: Log, node: Ledger.Node,
                                          proposal: Proposal, now: string, h: Hazards)
    requires Normalize(proposal).Success?
    ensures var k, n := CallOf(p, configured, policy, a, log, node, proposal, now, h), Normalize(proposal).value;
            && (k.answer.Success? <==> HoldsRequest(k.after, n))
            && (k.answer.Success? ==>
                  var held := k.after.accepted[n.transitionID].accepted;
                  k.answer.value == held.(duplicate := k.answer.value.duplicate) && (k.answer.value.duplicate <==> HoldsRequest(a, n)))
  {
    hide Normalize, Apply, AppendEvent, Request, Clone, ValidAck, TransitionEvent;
  }

  /** A call that does not append leaves everything as it was, and so does every refused call but for what its append left in log and recorder. */
  lemma {:induction false} RefusalKeeps(p: Params, configured: bool, policy: (Normal, Projection) -> bool, a: Auth, log: Log, node: Ledger.Node,
                                        proposal: Proposal, now: string, h: Hazards)
    ensures var k := CallOf(p, configured, policy, a, log, node, proposal, now, h);
            && (k.answer.Failure? || k.answer.value.duplicate ==> k.after == a)
            && (k.answer.Success? && k.answer.value.duplicate ==> k.log' == log && k.node' == node)
            && (k.answer.Failure? && k.answer.error != Durable ==> k.log' == log && k.node' == node)
  {
    hide Normalize, Apply, AppendEvent, Request, Clone, ValidAck, TransitionEvent;
    NormalizeNotDurable(proposal);
  }

  lemma {:induction false} NormalizeNotDurable(proposal: Proposal)
    ensures Normalize(proposal).Failure? ==> Normalize(proposal).error == Malformed || Normalize(proposal).error == Invalid
  {
  }

  /** Which refusal: the first thing that is wrong, in this order. */
  lemma {:induction false} RefusalExactly(p: Params, configured: bool, policy: (Normal, Projection) -> bool, a: Auth, log: Log, node: Ledger.Node,
                                          proposal: Proposal, now: string, h: Hazards)
    requires Normalize(proposal).Success?
    ensures var k, n := CallOf(p, configured, policy, a, log, node, proposal, now, h), Normalize(proposal).value;
            var known, current, allowed := n.transitionID in a.accepted, n.prior == Ref(a.state), policy(n, Clone(a.state));
            && (k.answer == Failure(Conflict) <==> known && !HoldsRequest(a, n))
            && (k.answer == Failure(Stale) <==> !known && !current)
            && (k.answer == Failure(Policy) <==> !known && current && !allowed)
            && (k.answer.Failure? && !(k.answer.error.Conflict? || k.answer.error.Stale? || k.answer.error.Policy?) ==>
                  k.answer.error == Durable && !known && current && allowed)
  {
    hide Normalize, Apply, AppendEvent, Request, Clone, ValidAck, TransitionEvent;
  }

  /** A newly held transition is the one proposed: its proposal, its admission data, and as its result the state it made, one version on. */
  lemma {:induction false} NewRecordExactly(p: Params, configured: bool, policy: (Normal, Projection) -> bool, a: Auth, log: Log, node: Ledger.Node,
                                            proposal: Proposal, now: string, h: Hazards)
    requires Normalize(proposal).Success?
    ensures var k, n := CallOf(p, configured, policy, a, log, node, proposal, now, h), Normalize(proposal).value;
            k.answer.Success? && !HoldsRequest(a, n) ==>
              var held := k.after.accepted[n.transitionID].accepted;
              && held.proposal == n && held.admission == Raw.Json(n.admissionData) && held.result == Ref(k.after.state) && !held.duplicate
              && k.after.accepted == a.accepted[n.transitionID := k.after.accepted[n.transitionID]]
              && k.after.state.version == a.state.version + 1 && k.after.state.id == a.state.id
              && held.durable.eventID == n.transitionID && held.durable.rustAck.Some? && held.durable.rustAck.value.sequence == held.durable.sequence
  {
    hide Normalize, AppendEvent, Request, Clone, TransitionEvent, HashProjection, Put;
  }

  /** Every proposal is well formed or refused, for one of two reasons: something is missing or is not JSON, or the operation is unknown. */
  lemma {:induction false} NormalExactly(x: Proposal)
    ensures var named := forall s :: s in [x.transitionID, x.proposalID, x.requestID, x.entity, x.node, x.prior.id, x.prior.hash] ==> !Blank(s);
            var known := x.operation in ["upsert", "restore", "import"];
            var typed := x.resultData.Json? && !x.admissionData.BadJson?;
            && (Normalize(x).Success? <==> named && known && typed)
            && (Normalize(x) == Failure(Invalid) <==> named && !known)
            && (Normalize(x).Failure? ==> Normalize(x).error == Malformed || Normalize(x).error == Invalid)
            && (Normalize(x).Success? ==>
                  var n := Normalize(x).value;
                  && TransitionTheory.Settled(n)
                  && AsProposal(n) == x.(resultData := AsProposal(n).resultData, admissionData := AsProposal(n).admissionData)
                  && Raw.Json(n.resultData) == x.resultData
                  && (x.admissionData.Json? ==> Raw.Json(n.admissionData) == x.admissionData)
                  && (x.admissionData.Missing? ==> n.admissionData == Obj(map[])))
  {
    hide Blank;
    var parts := [x.transitionID, x.proposalID, x.requestID, x.entity, x.node, x.prior.id, x.prior.hash];
    assert parts[0] in parts && parts[1] in parts && parts[2] in parts && parts[3] in parts && parts[4] in parts && parts[5] in parts
        && parts[6] in parts;
  }

  /** A refused proposal that is not well formed is answered with that reason. */
  lemma {:induction false} MalformedAnswer(p: Params, configured: bool, policy: (Normal, Projection) -> bool, a: Auth, log: Log, node: Ledger.Node,
                                           proposal: Proposal, now: string, h: Hazards)
    requires Normalize(proposal).Failure?
    ensures CallOf(p, configured, policy, a, log, node, proposal, now, h)
         == Call(a, a, log, node, log, node, Failure(Normalize(proposal).error))
  {
    hide Normalize;
  }
}
