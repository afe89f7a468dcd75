/** Building an authority from history or from a checkpoint, and verifying a checkpoint against history. */
module AuthorityRestart {
  import opened Wrappers
  import opened Json
  import opened RecordCodec
  import opened EventLog
  import opened Transition
  import opened TransitionTheory
  import opened Checkpoints
  import opened CheckpointTheory
  import opened AuthorityService
  import LogService

  /** Rebuild: nothing is derived from a history that does not check as a whole. */
  method RebuildAuthority(events: seq<Event>, writer: LogService.Service, policy: (Normal, Projection) -> bool)
    returns (a: Option<Authority>)
    requires writer.Valid()
    ensures a.Some? <==> Rebuild(writer.p, events).Some?
    ensures a.Some? ==> fresh(a.value) && a.value.Valid() && a.value.writer == writer && a.value.policy == policy
                        && a.value.Model() == Rebuild(writer.p, events).value
  {
    hide ValidHistory, Fresh, ReplayAll;
    var valid := writer.ValidateHistory(events);
    if !valid {
      return None;
    }
    var next := new Authority(writer, policy);
    var ok := next.ReplayEvents(events);
    if !ok {
      return None;
    }
    return Some(next);
  }

  /** NewFromEventLog: the restart path. */
  method NewFromEventLog(writer: LogService.Service, policy: (Normal, Projection) -> bool, reachable: bool) returns (a: Option<Authority>)
    requires writer.Valid()
    modifies writer`sequence, writer`lastHash
    ensures var (log, events) := Refresh(writer.p, writer.configured, old(writer.Model()), writer.recorder.Model(), reachable);
            && writer.Model() == log
            && (a.Some? <==> events.Some? && Rebuild(writer.p, events.value).Some?)
            && (a.Some? ==> a.value.Model() == Rebuild(writer.p, events.value).value)
    ensures writer.recorder.Model() == old(writer.recorder.Model())
    ensures a.Some? ==> fresh(a.value) && a.value.Valid() && a.value.writer == writer && a.value.policy == policy
  {
    hide Refresh, Rebuild;
    var events := writer.RustAcknowledgedEvents(reachable);
    if events.None? {
      return None;
    }
    a := RebuildAuthority(events.value, writer, policy);
  }

  /** authorityFromCheckpoint: the state as it is, and every entry with its binding checked. */
  method FromCheckpoint(cp: Snapshot, writer: LogService.Service, policy: (Normal, Projection) -> bool) returns (a: Option<Authority>)
    requires writer.Valid()
    ensures a.Some? <==> FromSnapshot(cp).Some?
    ensures a.Some? ==> fresh(a.value) && Sane(a.value) && (Ordered(List(cp.state)) ==> a.value.Valid()) && a.value.writer == writer && a.value.policy == policy
                        && a.value.Model() == FromSnapshot(cp).value
  {
    hide Ordered, Adopt, Named, Clone;
    var next := StartFrom(cp.state, writer, policy);
    assert cp.accepted[0..] == cp.accepted;
    var i := 0;
    while i < |cp.accepted|
      modifies next
      invariant 0 <= i <= |cp.accepted| && Sane(next) && next.state == Clone(cp.state)
      invariant AdoptAll(next.Model(), cp.accepted[i..]) == FromSnapshot(cp)
    {
      assert cp.accepted[i..][0] == cp.accepted[i] && cp.accepted[i..][1..] == cp.accepted[i + 1..];
      var ok := AdoptEntry(next, cp.accepted[i]);
      if !ok {
        return None;
      }
      i := i + 1;
    }
    CloneKeepsOrder(cp.state);
    return Some(next);
  }

  /** All that Valid asks but the order of the nodes, which a checkpoint need not have. */
  ghost predicate Sane(a: Authority)
    reads a
  {
    Named(a.Model()) && a.writer.Valid()
  }

  lemma {:induction false} CloneKeepsOrder(s: Projection)
    ensures Ordered(List(Clone(s))) <==> Ordered(List(s))
  {
    hide Ordered;
  }

  /** A new authority whose state is replaced. */
  method StartFrom(state: Projection, writer: LogService.Service, policy: (Normal, Projection) -> bool) returns (a: Authority)
    requires writer.Valid()
    ensures fresh(a) && Sane(a) && a.writer == writer && a.policy == policy && a.Model() == Auth(Clone(state), map[])
  {
    hide Ordered, Initial, Named;
    a := new Authority(writer, policy);
    a.state := Clone(state);
    NoneNamed(a.Model());
  }

  /** One turn of the entry loop. */
  method AdoptEntry(a: Authority, e: Entry) returns (ok: bool)
    requires Sane(a)
    modifies a`accepted
    ensures Sane(a)
    ensures ok <==> Adopt(old(a.Model()), e).Some?
    ensures ok ==> a.Model() == Adopt(old(a.Model()), e).value
  {
    hide Normalize, Ordered, Request, ValidBinding;
    var canonical := CanonicalProposal(e.proposal);
    if canonical.Failure? {
      return false;
    }
    var (request, n) := canonical.value;
    if n.transitionID in a.accepted {
      return false;
    }
    if e.durable.eventID != n.transitionID {
      return false;
    }
    if !ValidBinding(e.durable) {
      return false;
    }
    a.accepted := a.accepted[n.transitionID := AcceptedRecord(request, Accepted(n, e.result, e.admission, e.durable, e.duplicate))];
    return true;
  }

  lemma {:induction false} NoneNamed(a: Auth)
    requires a.accepted == map[]
    ensures Named(a)
  {
  }

  /** The prefix loop of VerifyCheckpoint. */
  method PrefixOf(history: seq<Event>, sequence: int) returns (prefix: seq<Event>)
    ensures prefix == Upto(history, sequence)
  {
    prefix := [];
    var i := 0;
    while i < |history|
      invariant 0 <= i <= |history|
      invariant prefix + Upto(history[i..], sequence) == Upto(history, sequence)
    {
      assert history[i..][0] == history[i] && history[i..][1..] == history[i + 1..];
      if history[i].sequence <= sequence {
        prefix := prefix + [history[i]];
      }
      i := i + 1;
    }
  }

  lemma {:induction false} RebuiltIsOrdered(p: Params, events: seq<Event>)
    requires Rebuild(p, events).Some?
    ensures Ordered(List(Rebuild(p, events).value.state))
  {
    RebuildTracks(p, events);
    hide Rebuild, Ordered, BindsAll, Covers, Sealed, Initial;
  }

  /** VerifyCheckpoint: the state at the durable head first, then the suffix against full replay. */
  method VerifyCheckpoint(cp: Snapshot, history: seq<Event>, writer: LogService.Service, policy: (Normal, Projection) -> bool)
    returns (v: Verdict)
    requires writer.Valid()
    ensures v == Verify(writer.p, cp, history)
  {
    hide Rebuild, ValidHistory, HashProjection, Upto, Beyond, SameProjection, SameAccepted, VerifySuffix, Ordered, Named;
    var valid := writer.ValidateHistory(history);
    if !valid {
      return BadHistory;
    }
    var hash := HashOf(writer.p, cp.state);
    if cp.state.hash != hash {
      return BadStateHash;
    }
    var prefix := PrefixOf(history, cp.historySequence);
    if cp.historySequence == 0 {
      if cp.historyHash != GENESIS {
        return BadHead;
      }
    } else if |prefix| == 0 || prefix[|prefix| - 1].sequence != cp.historySequence || prefix[|prefix| - 1].hash != cp.historyHash {
      return BadHead;
    }
    var rebuilt := RebuildAuthority(prefix, writer, policy);
    if rebuilt.None? {
      return PrefixFails;
    }
    var atHead := rebuilt.value;
    var sameState := SameText(atHead.state, cp.state);
    var sameEntries := atHead.SameAcceptedAs(cp.accepted);
    if !sameState || !sameEntries {
      return DiffersAtHead;
    }
    RebuiltIsOrdered(writer.p, prefix);
    SameProjectionIsEqual(atHead.state, cp.state);
    v := CheckSuffix(cp, history, writer, policy);
  }

  /** The second half of VerifyCheckpoint. */
  method CheckSuffix(cp: Snapshot, history: seq<Event>, writer: LogService.Service, policy: (Normal, Projection) -> bool)
    returns (v: Verdict)
    requires writer.Valid() && Ordered(List(cp.state))
    ensures v == VerifySuffix(writer.p, cp, history)
  {
    hide Rebuild, FromSnapshot, Beyond, ReplayAll, SameProjection, SameAccepted, Ordered, Named, AcceptedSlice;
    var restored := FromCheckpoint(cp, writer, policy);
    if restored.None? {
      return BadEntry;
    }
    var from := restored.value;
    var ok := from.ReplayBeyond(history, cp.historySequence);
    if !ok {
      return SuffixFails;
    }
    var rebuilt := RebuildAuthority(history, writer, policy);
    if rebuilt.None? {
      return FullFails;
    }
    var full := rebuilt.value;
    var sameState := SameText(from.state, full.state);
    var all := full.Slice();
    var sameEntries := from.SameAcceptedAs(all);
    if !sameState || !sameEntries {
      return FinalDiffers;
    }
    return Fine;
  }

  /** RebuildFromCheckpoint: verify, then replay only what lies above the checkpoint. */
  method RebuildFromCheckpoint(cp: Snapshot, history: seq<Event>, writer: LogService.Service, policy: (Normal, Projection) -> bool)
    returns (a: Option<Authority>)
    requires writer.Valid()
    ensures a.Some? <==> RebuildFrom(writer.p, cp, history).Some?
    ensures a.Some? ==> fresh(a.value) && a.value.Model() == RebuildFrom(writer.p, cp, history).value
  {
    hide Verify, FromSnapshot, Beyond, ReplayAll, Ordered, Named;
    var v := VerifyCheckpoint(cp, history, writer, policy);
    if v != Fine {
      return None;
    }
    VerifiedIsOrdered(writer.p, cp, history);
    var restored := FromCheckpoint(cp, writer, policy);
    if restored.None? {
      return None;
    }
    var ok := restored.value.ReplayBeyond(history, cp.historySequence);
    if !ok {
      return None;
    }
    return restored;
  }

  lemma {:induction false} VerifiedIsOrdered(p: Params, cp: Snapshot, history: seq<Event>)
    requires Verify(p, cp, history) == Fine
    ensures Ordered(List(cp.state))
  {
    hide Rebuild, ValidHistory, HashProjection, Upto, VerifySuffix, SameProjection, SameAccepted, Ordered, HeadPresent;
    var prefix := Upto(history, cp.historySequence);
    RebuiltIsOrdered(p, prefix);
    SameProjectionIsEqual(Rebuild(p, prefix).value.state, cp.state);
  }
}
