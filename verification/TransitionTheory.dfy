/** Replay gives back exactly what admission built, and what any rebuilt authority knows about its history. */
module TransitionTheory {
  import opened Wrappers
  import opened Json
  import opened JsonRoundTrip
  import opened Decimal
  import opened Members
  import opened RecordCodec
  import opened EventLog
  import opened EventLogTheory
  import opened Transition
  import opened ProjectionTheory

  // ----- Payloads survive decoding -----

  lemma {:induction false} RefRoundTrip(r: StateRef)
    ensures RefValue(r).Obj? && DecodeRef(RefValue(r).fields) == Some(r)
  {
    RefKeysDistinct();
    IntRoundTrip(r.version);
    hide Dec, NatOf;
    var slots := [Some(Str(r.id)), Some(Int(r.version)), Some(Str(r.hash))];
    CollectAt(REF_KEYS, slots, 0);
    CollectAt(REF_KEYS, slots, 1);
    CollectAt(REF_KEYS, slots, 2);
    hide Collect;
  }

  lemma {:induction false} ProposalKeysDistinct()
    ensures Distinct(PROPOSAL_KEYS) && |PROPOSAL_KEYS| == 9
  {
    var lengths := [13, 11, 10, 5, 9, 6, 4, 11, 14];
    assert forall i :: 0 <= i < 9 ==> |PROPOSAL_KEYS[i]| == lengths[i];
    assert PROPOSAL_KEYS[1][0] == 'p' && PROPOSAL_KEYS[7][0] == 'r';
  }

  lemma {:induction false} ProposalMember(n: Normal, i: nat)
    requires i < 9
    ensures ProposalValue(n).Obj? && |PROPOSAL_KEYS| == |ProposalSlots(n)| == 9
    ensures PROPOSAL_KEYS[i] in ProposalValue(n).fields
    ensures Some(ProposalValue(n).fields[PROPOSAL_KEYS[i]]) == ProposalSlots(n)[i]
  {
    ProposalKeysDistinct();
    CollectAt(PROPOSAL_KEYS, ProposalSlots(n), i);
  }

  lemma {:induction false} ProposalRoundTrip(n: Normal)
    ensures ProposalValue(n).Obj? && DecodeProposal(ProposalValue(n).fields) == Some(AsProposal(n))
  {
    ProposalMember(n, 0);
    ProposalMember(n, 1);
    ProposalMember(n, 2);
    ProposalMember(n, 3);
    ProposalMember(n, 4);
    ProposalMember(n, 5);
    ProposalMember(n, 6);
    ProposalMember(n, 7);
    ProposalMember(n, 8);
    RefRoundTrip(n.prior);
    hide ProposalValue, RefValue, DecodeRef;
  }

  /** Two requests have the same canonical bytes exactly when they are the same request. */
  lemma {:induction false} RequestInjective(a: Normal, b: Normal)
    ensures Request(a) == Request(b) <==> a == b
  {
    CanonicalInjective(ProposalValue(a), ProposalValue(b), true);
    if ProposalValue(a) == ProposalValue(b) {
      ProposalRoundTrip(a);
      ProposalRoundTrip(b);
    }
    hide Canonical, ProposalValue, DecodeProposal;
  }

  lemma {:induction false} AcceptedKeysDistinct()
    ensures Distinct(ACCEPTED_KEYS) && |ACCEPTED_KEYS| == 4
  {
    assert |ACCEPTED_KEYS[0]| == 8 && |ACCEPTED_KEYS[1]| == 6 && |ACCEPTED_KEYS[2]| == 14 && |ACCEPTED_KEYS[3]| == 7;
  }

  lemma {:induction false} DurableKeysDistinct()
    ensures Distinct(DURABLE_KEYS) && |DURABLE_KEYS| == 3
  {
    assert |DURABLE_KEYS[0]| == 8 && |DURABLE_KEYS[1]| == 8 && |DURABLE_KEYS[2]| == 10;
    assert DURABLE_KEYS[0][0] == 'e' && DURABLE_KEYS[1][0] == 's';
  }

  /** The zero binding inside a payload decodes. */
  lemma {:induction false} ZeroBindingDecodes()
    ensures var d := ZeroBinding();
            StrField(d, "event_id").Some? && NatField(d, "sequence").Some? && StrField(d, "event_hash").Some? && AckField(d)
  {
    DurableKeysDistinct();
    IntRoundTrip(0);
    hide Dec, NatOf;
    var slots := [Some(Str("")), Some(Int(0)), Some(Str(""))];
    CollectAt(DURABLE_KEYS, slots, 0);
    CollectAt(DURABLE_KEYS, slots, 1);
    CollectAt(DURABLE_KEYS, slots, 2);
    CollectKeys(DURABLE_KEYS, slots);
    hide Collect;
    assert "rust_ack" !in DURABLE_KEYS;
  }

  lemma {:induction false} PayloadMember(n: Normal, result: StateRef, i: nat)
    requires i < 4
    ensures Payload(n, result).Obj? && |ACCEPTED_KEYS| == |AcceptedSlots(n, result)| == 4
    ensures ACCEPTED_KEYS[i] in Payload(n, result).fields
    ensures Some(Payload(n, result).fields[ACCEPTED_KEYS[i]]) == AcceptedSlots(n, result)[i]
    ensures "duplicate" !in Payload(n, result).fields
  {
    AcceptedKeysDistinct();
    CollectAt(ACCEPTED_KEYS, AcceptedSlots(n, result), i);
    CollectKeys(ACCEPTED_KEYS, AcceptedSlots(n, result));
    hide Collect, AcceptedSlots;
    assert "duplicate" !in ACCEPTED_KEYS;
  }

  lemma {:induction false} PayloadMembers(n: Normal, result: StateRef)
    ensures var v := Payload(n, result);
            && v.Obj? && RawField(v.fields, "admission_data") == Json(n.admissionData)
            && ObjField(v.fields, "proposal") == Some(ProposalValue(n).fields)
            && ObjField(v.fields, "result") == Some(RefValue(result).fields)
            && DurableField(v.fields) && "duplicate" !in v.fields
  {
    ZeroBindingDecodes();
    PayloadMember(n, result, 0);
    PayloadMember(n, result, 1);
    PayloadMember(n, result, 2);
    PayloadMember(n, result, 3);
    hide Collect, AckField, StrField, NatField, Payload, ProposalValue, RefValue, ZeroBinding;
  }

  /** A payload decodes to the transition it was made from. */
  lemma {:induction false} PayloadRoundTrip(n: Normal, result: StateRef)
    ensures DecodeAccepted(Payload(n, result)) == Some(Decoded(AsProposal(n), result, Json(n.admissionData), false))
  {
    PayloadMembers(n, result);
    ProposalRoundTrip(n);
    RefRoundTrip(result);
    hide Payload, ProposalValue, RefValue, DecodeProposal, DecodeRef, DurableField;
  }

  /** A normalized proposal normalizes to itself. */
  predicate Settled(n: Normal) {
    Normalize(AsProposal(n)) == Success(n)
  }

  lemma {:induction false} NormalizeSettles(x: Proposal)
    requires Normalize(x).Success?
    ensures Settled(Normalize(x).value)
  {
  }

  // ----- Replay mirrors admission -----

  /** The authority after one accepted transition bound to an event. */
  ghost function Admitted(p: Params, a: Auth, n: Normal, ev: Event): Auth {
    var next := Apply(p, a.state, n);
    Auth(next, a.accepted[n.transitionID := AcceptedRecord(Request(n), Accepted(n, Ref(next), Json(n.admissionData), BindingOf(ev), false))])
  }

  /** Replaying the event of an admitted transition does what admitting it did. */
  lemma {:induction false} ReplayMirrors(p: Params, a: Auth, n: Normal, ev: Event)
    requires Settled(n) && n.transitionID !in a.accepted && n.prior == Ref(a.state)
    requires ev.kind == ACCEPTED_KIND && ev.status == "accepted" && ev.action == ACTION && ev.id == n.transitionID
    requires ev.details == map[DETAIL := Payload(n, Ref(Apply(p, a.state, n)))]
    ensures Replayed(p, a, ev) == Some(Admitted(p, a, n, ev))
  {
    PayloadRoundTrip(n, Ref(Apply(p, a.state, n)));
    SettledId(n);
    DecodedMirrors(p, a, n, ev);
    hide Payload, DecodeAccepted, ReplayDecoded;
    assert |ev.details| == 1 && Enveloped(ev);
  }

  lemma {:induction false} DecodedMirrors(p: Params, a: Auth, n: Normal, ev: Event)
    requires Settled(n) && n.transitionID !in a.accepted && n.prior == Ref(a.state) && ev.id == n.transitionID
    ensures ReplayDecoded(p, a, ev, Decoded(AsProposal(n), Ref(Apply(p, a.state, n)), Json(n.admissionData), false))
         == Some(Admitted(p, a, n, ev))
  {
    hide Apply, Request, Normalize, AsProposal;
  }

  lemma {:induction false} SettledId(n: Normal)
    requires Settled(n)
    ensures n.transitionID != ""
  {
  }

  lemma {:induction false} ReplayAllAppend(p: Params, a: Auth, x: seq<Event>, y: seq<Event>)
    ensures ReplayAll(p, a, x + y) ==
            var mid := ReplayAll(p, a, x);
            if mid.None? then None else ReplayAll(p, mid.value, y)
    decreases |x|
  {
    hide Replayed;
    if x == [] {
      assert x + y == y;
    } else {
      assert (x + y)[0] == x[0] && (x + y)[1..] == x[1..] + y;
      var next := Replayed(p, a, x[0]);
      if next.Some? {
        ReplayAllAppend(p, next.value, x[1..], y);
      }
    }
  }

  lemma {:induction false} ReplayOne(p: Params, a: Auth, ev: Event)
    ensures ReplayAll(p, a, [ev]) == Replayed(p, a, ev)
  {
    hide Replayed;
    assert [ev][1..] == [];
  }

  /** A rebuild goes through every prefix. */
  lemma {:induction false} RebuildPrefix(p: Params, events: seq<Event>, k: nat)
    requires k <= |events| && Rebuild(p, events).Some?
    ensures Rebuild(p, events[..k]).Some?
    ensures ReplayAll(p, Rebuild(p, events[..k]).value, events[k..]) == Rebuild(p, events)
  {
    hide Replayed, Fresh;
    assert events == events[..k] + events[k..];
    ReplayAllAppend(p, Fresh(p), events[..k], events[k..]);
    ValidAppend(p, GENESIS, 1, events[..k], events[k..]);
  }

  /** In a valid history the k-th event has sequence k + 1. */
  lemma {:induction false} ValidSequence(p: Params, prev: string, expected: nat, events: seq<Event>, k: nat)
    requires ValidFrom(p, prev, expected, events) && k < |events|
    ensures events[k].sequence == expected + k && (RequiresAck(events[k]) ==> ValidAck(events[k]))
    decreases k
  {
    if k > 0 {
      ValidSequence(p, events[0].hash, expected + 1, events[1..], k - 1);
    }
  }

  // ----- What a rebuilt authority knows -----

  /** The payload decodes to this accepted transition. */
  ghost predicate Says(v: Value, acc: Accepted) {
    var d := DecodeAccepted(v);
    && d.Some? && Normalize(d.value.proposal) == Success(acc.proposal)
    && d.value.result == acc.result && acc.admission == Json(acc.proposal.admissionData)
  }

  /** The entry binds the event at its sequence. */
  ghost predicate BindsEvent(events: seq<Event>, id: string, r: AcceptedRecord) {
    var acc := r.accepted;
    && acc.proposal.transitionID == id && Settled(acc.proposal) && r.request == Request(acc.proposal)
    && 1 <= acc.durable.sequence <= |events|
    && (var ev := events[acc.durable.sequence - 1];
        ev.id == id && ev.kind == ACCEPTED_KIND && acc.durable == BindingOf(ev) && ValidAck(ev)
        && DETAIL in ev.details && Says(ev.details[DETAIL], acc))
  }

  ghost predicate BindsAll(events: seq<Event>, a: Auth) {
    forall id :: id in a.accepted ==> BindsEvent(events, id, a.accepted[id])
  }

  /** Every accepted event has its entry. */
  ghost predicate Covers(events: seq<Event>, a: Auth) {
    forall k :: 0 <= k < |events| && events[k].kind == ACCEPTED_KIND ==>
      events[k].id in a.accepted && a.accepted[events[k].id].accepted.durable.sequence == k + 1
  }

  ghost predicate WellFormed(p: Params, a: Auth) {
    && Ordered(List(a.state)) && a.state == Sealed(p, a.state)
    && (a.accepted == map[] ==> a.state == Initial(p))
    && (a.accepted != map[] ==> List(a.state) != [] && a.state.nodes.Some?)
  }

  ghost predicate Tracks(p: Params, events: seq<Event>, a: Auth) {
    WellFormed(p, a) && BindsAll(events, a) && Covers(events, a)
  }

  lemma {:induction false} ApplyWellFormed(p: Params, s: Projection, n: Normal)
    requires Ordered(List(s))
    ensures var next := Apply(p, s, n);
            Ordered(List(next)) && next == Sealed(p, next) && List(next) != [] && next.nodes.Some?
  {
    PutOrdered(List(s), NodeState(n.entity, n.node, n.resultData));
    hide Canonical, ProjectionValue, Put;
    var unsealed := Projection(s.id, s.version + 1, Some(Put(List(s), NodeState(n.entity, n.node, n.resultData))), s.hash);
    HashIgnoresHash(p, unsealed, Sealed(p, unsealed));
  }

  lemma {:induction false} FreshWellFormed(p: Params)
    ensures WellFormed(p, Fresh(p))
  {
    hide Canonical, ProjectionValue;
    var unsealed := Projection("semantic-state", 0, Some([]), "");
    HashIgnoresHash(p, unsealed, Sealed(p, unsealed));
  }

  /** The authority after an accepted event was replayed. */
  ghost function Stepped(p: Params, a: Auth, n: Normal, ev: Event, dup: bool): Auth {
    var next := Apply(p, a.state, n);
    Auth(next, a.accepted[ev.id := AcceptedRecord(Request(n), Accepted(n, Ref(next), Json(n.admissionData), BindingOf(ev), dup))])
  }

  /** What a successful replay of an accepted event tells. */
  lemma {:induction false} ReplayedFacts(p: Params, a: Auth, ev: Event) returns (n: Normal, dup: bool)
    requires ev.kind == ACCEPTED_KIND && Replayed(p, a, ev).Some?
    ensures Settled(n) && ev.id == n.transitionID && ev.id !in a.accepted && n.prior == Ref(a.state)
    ensures Replayed(p, a, ev) == Some(Stepped(p, a, n, ev, dup))
    ensures DETAIL in ev.details && Says(ev.details[DETAIL], Stepped(p, a, n, ev, dup).accepted[ev.id].accepted)
  {
    var d := DecodeAccepted(ev.details[DETAIL]).value;
    n, dup := Normalize(d.proposal).value, d.duplicate;
    NormalizeSettles(d.proposal);
    hide DecodeAccepted, Apply, Request, Normalize;
  }

  lemma {:induction false} BindsStep(p: Params, events: seq<Event>, a: Auth, n: Normal, ev: Event, dup: bool)
    requires BindsAll(events, a) && Settled(n) && ev.id == n.transitionID
    requires ev.sequence == |events| + 1 && ev.kind == ACCEPTED_KIND && ValidAck(ev)
    requires DETAIL in ev.details && Says(ev.details[DETAIL], Stepped(p, a, n, ev, dup).accepted[ev.id].accepted)
    ensures BindsAll(events + [ev], Stepped(p, a, n, ev, dup))
  {
    hide Request, Apply, Settled, Says;
    var all, next := events + [ev], Stepped(p, a, n, ev, dup);
    BindsGrow(events, a, ev);
    assert all[|events|] == ev;
    forall id | id in next.accepted ensures BindsEvent(all, id, next.accepted[id]) {
      if id != ev.id {
        assert BindsEvent(all, id, a.accepted[id]);
      }
    }
  }

  lemma {:induction false} CoversStep(p: Params, events: seq<Event>, a: Auth, n: Normal, ev: Event, dup: bool)
    requires Covers(events, a) && ev.id !in a.accepted && ev.sequence == |events| + 1
    ensures Covers(events + [ev], Stepped(p, a, n, ev, dup))
  {
    hide Request, Apply;
    var all, next := events + [ev], Stepped(p, a, n, ev, dup);
    forall k | 0 <= k < |all| && all[k].kind == ACCEPTED_KIND
      ensures all[k].id in next.accepted && next.accepted[all[k].id].accepted.durable.sequence == k + 1
    {
      if k < |events| {
        assert all[k] == events[k];
      }
    }
  }

  /** One more event keeps an authority in step with its history. */
  lemma {:induction false} TracksStep(p: Params, events: seq<Event>, a: Auth, ev: Event)
    requires Tracks(p, events, a) && Replayed(p, a, ev).Some?
    requires ev.sequence == |events| + 1 && (RequiresAck(ev) ==> ValidAck(ev))
    ensures Tracks(p, events + [ev], Replayed(p, a, ev).value)
  {
    if ev.kind != ACCEPTED_KIND {
      BindsGrow(events, a, ev);
      CoversMore(events, a, ev);
    } else {
      var n, dup := ReplayedFacts(p, a, ev);
      ApplyWellFormed(p, a.state, n);
      BindsStep(p, events, a, n, ev, dup);
      CoversStep(p, events, a, n, ev, dup);
      hide Replayed, Request, Apply, Sealed, Initial, Settled, BindsAll, Covers;
      assert ev.id in Stepped(p, a, n, ev, dup).accepted;
    }
  }

  lemma {:induction false} CoversMore(events: seq<Event>, a: Auth, ev: Event)
    requires Covers(events, a) && ev.kind != ACCEPTED_KIND
    ensures Covers(events + [ev], a)
  {
    var all := events + [ev];
    forall k | 0 <= k < |all| && all[k].kind == ACCEPTED_KIND
      ensures all[k].id in a.accepted && a.accepted[all[k].id].accepted.durable.sequence == k + 1
    {
      assert all[k] == events[k];
    }
  }

  lemma {:induction false} BindsGrow(events: seq<Event>, a: Auth, ev: Event)
    requires BindsAll(events, a)
    ensures BindsAll(events + [ev], a)
  {
    forall id | id in a.accepted ensures BindsEvent(events + [ev], id, a.accepted[id]) {
      assert BindsEvent(events, id, a.accepted[id]);
    }
  }

  lemma {:induction false} LastSequence(p: Params, events: seq<Event>)
    requires events != [] && Rebuild(p, events).Some?
    ensures var last := events[|events| - 1];
            last.sequence == |events| && (RequiresAck(last) ==> ValidAck(last))
  {
    hide ReplayAll, ValidFrom, ValidAck, RequiresAck, Fresh;
    ValidSequence(p, GENESIS, 1, events, |events| - 1);
  }

  /** The last step of a rebuild. */
  lemma {:induction false} RebuildLast(p: Params, events: seq<Event>)
    requires events != [] && Rebuild(p, events).Some?
    ensures var m := |events| - 1;
            && Rebuild(p, events[..m]).Some?
            && Replayed(p, Rebuild(p, events[..m]).value, events[m]) == Rebuild(p, events)
            && events[m].sequence == |events| && (RequiresAck(events[m]) ==> ValidAck(events[m]))
  {
    hide Rebuild, Replayed, ValidAck, ReplayAll;
    var m := |events| - 1;
    LastSequence(p, events);
    RebuildPrefix(p, events, m);
    assert events[m..] == [events[m]];
    ReplayOne(p, Rebuild(p, events[..m]).value, events[m]);
  }

  lemma {:induction false} OtherKindsPass(p: Params, a: Auth, ev: Event)
    requires ev.kind != ACCEPTED_KIND
    ensures Replayed(p, a, ev) == Some(a)
  {
  }

  lemma {:induction false} NothingTracks(p: Params)
    ensures Rebuild(p, []) == Some(Fresh(p)) && Tracks(p, [], Fresh(p))
  {
    FreshWellFormed(p);
    hide Initial;
  }

  /** Every rebuilt authority tracks its history. */
  lemma {:induction false} RebuildTracks(p: Params, events: seq<Event>)
    requires Rebuild(p, events).Some?
    ensures Tracks(p, events, Rebuild(p, events).value)
    decreases |events|
  {
    hide Rebuild, Replayed, Tracks, ValidAck;
    if events == [] {
      NothingTracks(p);
    } else {
      var m := |events| - 1;
      RebuildLast(p, events);
      RebuildTracks(p, events[..m]);
      TracksStep(p, events[..m], Rebuild(p, events[..m]).value, events[m]);
      assert events[..m] + [events[m]] == events;
    }
  }
}
