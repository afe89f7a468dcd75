/**
 * Retries over whole runs: what the authority holds stays held while it runs, so a transition is
 * admitted once, every later success under its id gives the same record marked as a duplicate,
 * and another request under its id is a conflict for good.
 */
module Retries {
  import opened Wrappers
  import opened Json
  import opened EventLog
  import opened Transition
  import LedgerTheory
  import opened Protocol
  import opened ProposalAnswers

  /** Everything that a holds, b holds too, as the same record. */
  ghost predicate Keeps(a: Auth, b: Auth) {
    forall id :: id in a.accepted ==> id in b.accepted && b.accepted[id] == a.accepted[id]
  }

  /** Go is not restarted. */
  predicate Lasting(steps: seq<Step>) {
    forall i :: 0 <= i < |steps| ==> !steps[i].RestartGo?
  }

  lemma {:induction false} StepKeeps(c: Config, s: Sys, a: Step)
    requires s.auth.Some? && !a.RestartGo?
    ensures Next(c, s, a).auth.Some? && Keeps(s.auth.value, Next(c, s, a).auth.value)
  {
    hide ProposeStep, AppendEvent, Refresh, LedgerTheory.Do, Normalize, Request;
    if a.Admit? {
      var x, reached := Entered(a.entrance, a.proposal), Reaching(s.rust, a.h);
      RefusalKeeps(c.p, c.configured, c.policy, s.auth.value, s.log, s.rust.node, x, a.now, reached);
      if Normalize(x).Success? {
        SuccessExactly(c.p, c.configured, c.policy, s.auth.value, s.log, s.rust.node, x, a.now, reached);
        RefusalExactly(c.p, c.configured, c.policy, s.auth.value, s.log, s.rust.node, x, a.now, reached);
        NewRecordExactly(c.p, c.configured, c.policy, s.auth.value, s.log, s.rust.node, x, a.now, reached);
      } else {
        MalformedAnswer(c.p, c.configured, c.policy, s.auth.value, s.log, s.rust.node, x, a.now, reached);
      }
    }
  }

  /** Over every run without a restart of Go, under any hazards, nothing that is held is lost or changed. */
  lemma {:induction false} RunKeepsHeld(c: Config, s: Sys, steps: seq<Step>)
    requires s.auth.Some? && Lasting(steps)
    ensures RunAll(c, s, steps).auth.Some? && Keeps(s.auth.value, RunAll(c, s, steps).auth.value)
    decreases |steps|
  {
    hide Next;
    if steps != [] {
      StepKeeps(c, s, steps[0]);
      RunKeepsHeld(c, Next(c, s, steps[0]), steps[1..]);
    }
  }

  /** The call that a proposal makes on a state of the system. */
  ghost function CallOn(c: Config, s: Sys, x: Proposal, now: string, h: Hazards): Call
    requires s.auth.Some?
  {
    CallOf(c.p, c.configured, c.policy, s.auth.value, s.log, s.rust.node, x, now, Reaching(s.rust, h))
  }

  /** Once held, always answered: after any further run, the same request gets the held record, marked as a duplicate, and changes nothing. */
  lemma {:induction false} RetryIsAnswered(c: Config, s: Sys, steps: seq<Step>, x: Proposal, now: string, h: Hazards)
    requires s.auth.Some? && Lasting(steps) && Normalize(x).Success? && HoldsRequest(s.auth.value, Normalize(x).value)
    ensures var t := RunAll(c, s, steps);
            && t.auth.Some?
            && var k := CallOn(c, t, x, now, h);
               && k.answer == Success(s.auth.value.accepted[x.transitionID].accepted.(duplicate := true))
               && k.after == t.auth.value && k.log' == t.log && k.node' == t.rust.node
  {
    hide RunAll, Normalize, Request, ProposeStep;
    RunKeepsHeld(c, s, steps);
    NormalExactly(x);
    var t, n := RunAll(c, s, steps), Normalize(x).value;
    assert AsProposal(n).transitionID == x.transitionID;
    SuccessExactly(c.p, c.configured, c.policy, t.auth.value, t.log, t.rust.node, x, now, Reaching(t.rust, h));
    RefusalKeeps(c.p, c.configured, c.policy, t.auth.value, t.log, t.rust.node, x, now, Reaching(t.rust, h));
    RefusalExactly(c.p, c.configured, c.policy, t.auth.value, t.log, t.rust.node, x, now, Reaching(t.rust, h));
  }

  /** Another request under a held id is a conflict, after any further run. */
  lemma {:induction false} OtherRequestConflicts(c: Config, s: Sys, steps: seq<Step>, x: Proposal, now: string, h: Hazards)
    requires s.auth.Some? && Lasting(steps) && Normalize(x).Success?
    requires x.transitionID in s.auth.value.accepted && !HoldsRequest(s.auth.value, Normalize(x).value)
    ensures var t := RunAll(c, s, steps);
            && t.auth.Some?
            && var k := CallOn(c, t, x, now, h);
               k.answer == Failure(Conflict) && k.after == t.auth.value && k.log' == t.log && k.node' == t.rust.node
  {
    hide RunAll, Normalize, Request, ProposeStep;
    RunKeepsHeld(c, s, steps);
    NormalExactly(x);
    var t, n := RunAll(c, s, steps), Normalize(x).value;
    assert AsProposal(n).transitionID == x.transitionID;
    RefusalKeeps(c.p, c.configured, c.policy, t.auth.value, t.log, t.rust.node, x, now, Reaching(t.rust, h));
    RefusalExactly(c.p, c.configured, c.policy, t.auth.value, t.log, t.rust.node, x, now, Reaching(t.rust, h));
  }

  // ----- Once -----

  /** What the proposal at this place of a run is answered. */
  ghost function AnswerAt(c: Config, s: Sys, steps: seq<Step>, k: nat): Result<Accepted, Reject>
    requires k < |steps| && steps[k].Admit? && RunAll(c, s, steps[..k]).auth.Some?
  {
    var a := steps[k];
    CallOn(c, RunAll(c, s, steps[..k]), Entered(a.entrance, a.proposal), a.now, a.h).answer
  }

  lemma {:induction false} RunOneMore(c: Config, s: Sys, steps: seq<Step>, k: nat)
    requires k < |steps|
    ensures RunAll(c, s, steps[..k + 1]) == Next(c, RunAll(c, s, steps[..k]), steps[k])
    decreases k
  {
    hide Next;
    if k == 0 {
      assert steps[..1] == [steps[0]] && steps[..1][1..] == [] && steps[..0] == [];
    } else {
      RunOneMore(c, Next(c, s, steps[0]), steps[1..], k - 1);
      assert steps[..k + 1][1..] == steps[1..][..k] && steps[..k][1..] == steps[1..][..k - 1];
    }
  }

  lemma {:induction false} RunGoesOn(c: Config, s: Sys, steps: seq<Step>, i: nat, j: nat)
    requires i <= j <= |steps|
    ensures RunAll(c, s, steps[..j]) == RunAll(c, RunAll(c, s, steps[..i]), steps[i..j])
    decreases j
  {
    hide Next;
    if i == j {
      assert steps[i..j] == [];
    } else {
      RunGoesOn(c, s, steps, i, j - 1);
      RunOneMore(c, s, steps, j - 1);
      var t, rest := RunAll(c, s, steps[..i]), steps[i..j];
      RunOneMore(c, t, rest, j - i - 1);
      assert rest[..j - i - 1] == steps[i..j - 1] && rest[..j - i] == rest;
    }
  }

  /** Over every run without a restart of Go: of two successes under one id, the second gives the record of the first, marked as a duplicate. */
  lemma {:induction false} AdmittedOnce(c: Config, s: Sys, steps: seq<Step>, i: nat, j: nat)
    requires s.auth.Some? && Lasting(steps) && i < j < |steps| && steps[i].Admit? && steps[j].Admit?
    requires steps[i].proposal.transitionID == steps[j].proposal.transitionID
    ensures RunAll(c, s, steps[..i]).auth.Some? && RunAll(c, s, steps[..j]).auth.Some?
    ensures AnswerAt(c, s, steps, i).Success? && AnswerAt(c, s, steps, j).Success? ==>
              AnswerAt(c, s, steps, j).value == AnswerAt(c, s, steps, i).value.(duplicate := true)
  {
    hide RunAll, Normalize, Request, ProposeStep;
    RunKeepsHeld(c, s, steps[..i]);
    RunKeepsHeld(c, s, steps[..j]);
    var t, u := RunAll(c, s, steps[..i]), RunAll(c, s, steps[..j]);
    var a, b := steps[i], steps[j];
    if AnswerAt(c, s, steps, i).Success? && AnswerAt(c, s, steps, j).Success? {
      SuccessHolds(c, t, Entered(a.entrance, a.proposal), a.now, a.h);
      RunOneMore(c, s, steps, i);
      RunGoesOn(c, s, steps, i + 1, j);
      var after := RunAll(c, s, steps[..i + 1]);
      assert after.auth == Some(CallOn(c, t, Entered(a.entrance, a.proposal), a.now, a.h).after);
      RunKeepsHeld(c, after, steps[i + 1..j]);
      SuccessHolds(c, u, Entered(b.entrance, b.proposal), b.now, b.h);
    }
  }

  /** A success gives the held record of its id, as a duplicate exactly if the id was held before. */
  lemma {:induction false} SuccessHolds(c: Config, s: Sys, x: Proposal, now: string, h: Hazards)
    requires s.auth.Some? && CallOn(c, s, x, now, h).answer.Success?
    ensures var k := CallOn(c, s, x, now, h);
            && x.transitionID in k.after.accepted
            && k.answer.value == k.after.accepted[x.transitionID].accepted.(duplicate := k.answer.value.duplicate)
            && (k.answer.value.duplicate <==> x.transitionID in s.auth.value.accepted) && Keeps(s.auth.value, k.after)
  {
    hide Normalize, Request, ProposeStep;
    NormalExactly(x);
    var reached := Reaching(s.rust, h);
    if Normalize(x).Success? {
      var n := Normalize(x).value;
      assert AsProposal(n).transitionID == x.transitionID;
      SuccessExactly(c.p, c.configured, c.policy, s.auth.value, s.log, s.rust.node, x, now, reached);
      RefusalExactly(c.p, c.configured, c.policy, s.auth.value, s.log, s.rust.node, x, now, reached);
      RefusalKeeps(c.p, c.configured, c.policy, s.auth.value, s.log, s.rust.node, x, now, reached);
      NewRecordExactly(c.p, c.configured, c.policy, s.auth.value, s.log, s.rust.node, x, now, reached);
    } else {
      MalformedAnswer(c.p, c.configured, c.policy, s.auth.value, s.log, s.rust.node, x, now, reached);
    }
  }
}
