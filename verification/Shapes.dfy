/** Which JSON reads as an event or as an accepted transition, and which members a written event has. */
module Shapes {
  import opened Wrappers
  import opened Json
  import opened Decimal
  import opened Members
  import opened RecordCodec
  import opened Ledger
  import opened EventLog
  import opened EventLogTheory
  import opened Transition
  import TransitionTheory

  // ----- Members of one type -----

  predicate Unset(m: map<string, Value>, key: string) {
    key !in m || m[key] == Null
  }

  predicate TextLike(m: map<string, Value>, key: string) {
    Unset(m, key) || m[key].Str?
  }

  predicate CountLike(m: map<string, Value>, key: string) {
    Unset(m, key) || (m[key].Num? && AllDigits(m[key].lit))
  }

  predicate ObjectLike(m: map<string, Value>, key: string) {
    Unset(m, key) || m[key].Obj?
  }

  /** The members of an object, none where there is none. */
  function Within(m: map<string, Value>, key: string): map<string, Value>
    requires ObjectLike(m, key)
  {
    if Unset(m, key) then map[] else m[key].fields
  }

  /** An acknowledgement, or none. */
  predicate AckLike(m: map<string, Value>) {
    ObjectLike(m, "rust_ack") &&
    var a := Within(m, "rust_ack");
    TextLike(a, "id") && CountLike(a, "seq") && TextLike(a, "hash")
  }

  lemma {:induction false} FieldsExactly(m: map<string, Value>, key: string)
    ensures StrField(m, key).Some? <==> TextLike(m, key)
    ensures NatField(m, key).Some? <==> CountLike(m, key)
    ensures ObjField(m, key) == if ObjectLike(m, key) then Some(Within(m, key)) else None
  {
  }

  lemma {:induction false} EmptyFields(key: string)
    ensures TextLike(map[], key) && CountLike(map[], key) && ObjectLike(map[], key)
  {
  }

  lemma {:induction false} AckExactly(m: map<string, Value>)
    ensures AckField(m) <==> AckLike(m)
  {
    hide StrField, NatField, TextLike, CountLike;
    EmptyFields("id");
    EmptyFields("seq");
    EmptyFields("hash");
    if ObjectLike(m, "rust_ack") {
      var a := Within(m, "rust_ack");
      FieldsExactly(a, "id");
      FieldsExactly(a, "seq");
      FieldsExactly(a, "hash");
    }
  }

  // ----- Events -----

  const TEXTS: seq<string> :=
    ["id", "created_at", "type", "workspace_id", "actor", "action", "status", "receipt_id", "hash", "prev_hash"]

  /** Evidence reads as an event exactly if it is an object whose members have their types. */
  lemma {:induction false} EvidenceReadsExactly(p: Params, v: Value)
    ensures FromEvidence(p, v).Some? <==>
            v.Obj? &&
            var m := v.fields;
            && (forall i :: 0 <= i < |TEXTS| ==> TextLike(m, TEXTS[i])) && CountLike(m, "seq") && ObjectLike(m, "details") && AckLike(m)
  {
    hide StrField, NatField, TextLike, CountLike, AckField, AckLike, ObjField, ReloadAll;
    if v.Obj? {
      var m := v.fields;
      assert TEXTS[0] == "id" && TEXTS[1] == "created_at" && TEXTS[2] == "type" && TEXTS[3] == "workspace_id" && TEXTS[4] == "actor"
          && TEXTS[5] == "action" && TEXTS[6] == "status" && TEXTS[7] == "receipt_id" && TEXTS[8] == "hash" && TEXTS[9] == "prev_hash";
      forall i | 0 <= i < |TEXTS| ensures StrField(m, TEXTS[i]).Some? <==> TextLike(m, TEXTS[i]) {
        FieldsExactly(m, TEXTS[i]);
      }
      FieldsExactly(m, "seq");
      AckExactly(m);
    }
  }

  /** The members that a written event always has, and those it has only when they are not empty. */
  lemma {:induction false} EvidenceMembers(ev: Event)
    ensures Evidence(ev).Obj?
    ensures var m := Evidence(ev).fields;
            && (forall k :: k in m ==> k in KEYS)
            && "id" in m && "seq" in m && "created_at" in m && "type" in m && "action" in m && "status" in m && "hash" in m && "prev_hash" in m
            && ("workspace_id" in m <==> ev.workspaceID != "") && ("actor" in m <==> ev.actor != "") && ("receipt_id" in m <==> ev.receiptID != "")
            && ("details" in m <==> ev.details != map[]) && ("rust_ack" in m <==> ev.rustAck.Some?)
            && (ev.details != map[] ==> m["details"] == Obj(ev.details))
  {
    hide Evidence, Slots, Dec;
    KeysDistinct();
    Member(ev, 0);
    forall i: nat | i < 13 ensures KEYS[i] in Evidence(ev).fields <==> Slots(ev)[i].Some? {
      Member(ev, i);
    }
    SlotsPresent(ev);
    TextSlots(ev);
    ObjectSlots(ev);
    EvidenceKeys(ev);
    assert KEYS[0] == "id" && KEYS[1] == "seq" && KEYS[2] == "created_at" && KEYS[3] == "type" && KEYS[4] == "workspace_id" && KEYS[5] == "actor"
        && KEYS[6] == "action" && KEYS[7] == "status" && KEYS[8] == "details" && KEYS[9] == "receipt_id" && KEYS[10] == "hash"
        && KEYS[11] == "prev_hash" && KEYS[12] == "rust_ack";
    Member(ev, 8);
  }

  /** An acknowledgement is written with its id, sequence and hash, and reads back. */
  lemma {:induction false} AckReads(ev: Event)
    requires ev.rustAck.Some?
    ensures var m, a := Evidence(ev).fields, ev.rustAck.value;
            && "rust_ack" in m && m["rust_ack"].Obj?
            && var w := m["rust_ack"].fields;
               w.Keys == {"id", "seq", "hash"} && StrField(w, "id") == Some(a.id) && NatField(w, "seq") == Some(a.sequence) && StrField(w, "hash") == Some(a.hash)
  {
    KeysDistinct();
    Member(ev, 12);
    IntRoundTrip(ev.rustAck.value.sequence);
    hide Evidence, Dec, NatOf;
    assert KEYS[12] == "rust_ack";
  }

  lemma {:induction false} EvidenceKeys(ev: Event)
    ensures Evidence(ev).Obj? && forall k :: k in Evidence(ev).fields ==> k in KEYS
  {
    hide Slots;
    Member(ev, 0);
    CollectKeys(KEYS, Slots(ev));
  }

  lemma {:induction false} SlotsPresent(ev: Event)
    ensures var s := Slots(ev);
            |s| == 13 && s[0].Some? && s[1].Some? && s[2].Some? && s[3].Some? && s[6].Some? && s[7].Some? && s[10].Some? && s[11].Some?
  {
    hide Dec, Int, OmitEmpty, AckValue;
  }

  lemma {:induction false} TextSlots(ev: Event)
    ensures var s := Slots(ev);
            |s| == 13 && (s[4].Some? <==> ev.workspaceID != "") && (s[5].Some? <==> ev.actor != "") && (s[9].Some? <==> ev.receiptID != "")
  {
    hide Dec, Int, OmitEmpty, AckValue;
    OmitExactly(ev.workspaceID);
    OmitExactly(ev.actor);
    OmitExactly(ev.receiptID);
  }

  lemma {:induction false} ObjectSlots(ev: Event)
    ensures var s := Slots(ev);
            && |s| == 13 && (s[8].Some? <==> ev.details != map[]) && (s[12].Some? <==> ev.rustAck.Some?)
            && (ev.details != map[] ==> s[8] == Some(Obj(ev.details)))
  {
    hide Dec, Int, OmitEmpty, AckValue;
  }

  lemma {:induction false} OmitExactly(s: string)
    ensures OmitEmpty(s) == if s == "" then None else Some(Str(s))
  {
  }

  // ----- Accepted transitions -----

  predicate RefLike(m: map<string, Value>) {
    TextLike(m, "id") && CountLike(m, "version") && TextLike(m, "hash")
  }

  predicate ProposalLike(m: map<string, Value>) {
    && TextLike(m, "transition_id") && TextLike(m, "proposal_id") && TextLike(m, "request_id") && TextLike(m, "operation")
    && TextLike(m, "entity") && TextLike(m, "node") && ObjectLike(m, "prior") && RefLike(Within(m, "prior"))
  }

  predicate BindingLike(m: map<string, Value>) {
    TextLike(m, "event_id") && CountLike(m, "sequence") && TextLike(m, "event_hash") && AckLike(m)
  }

  lemma {:induction false} RefExactly(m: map<string, Value>)
    ensures DecodeRef(m).Some? <==> RefLike(m)
  {
    hide StrField, NatField, TextLike, CountLike;
    FieldsExactly(m, "id");
    FieldsExactly(m, "version");
    FieldsExactly(m, "hash");
  }

  lemma {:induction false} ProposalExactly(m: map<string, Value>)
    ensures DecodeProposal(m).Some? <==> ProposalLike(m)
  {
    hide StrField, TextLike, ObjectLike, Within, ObjField, DecodeRef, RefLike;
    FieldsExactly(m, "transition_id");
    FieldsExactly(m, "proposal_id");
    FieldsExactly(m, "request_id");
    FieldsExactly(m, "operation");
    FieldsExactly(m, "entity");
    FieldsExactly(m, "node");
    FieldsExactly(m, "prior");
    if ObjectLike(m, "prior") {
      RefExactly(Within(m, "prior"));
    }
  }

  lemma {:induction false} BindingExactly(m: map<string, Value>)
    ensures DurableField(m) <==> ObjectLike(m, "durable") && BindingLike(Within(m, "durable"))
  {
    hide StrField, NatField, TextLike, CountLike, ObjectLike, Within, ObjField, AckField, AckLike;
    FieldsExactly(m, "durable");
    if ObjectLike(m, "durable") {
      var d := Within(m, "durable");
      FieldsExactly(d, "event_id");
      FieldsExactly(d, "sequence");
      FieldsExactly(d, "event_hash");
      AckExactly(d);
    }
  }

  /** JSON reads as an accepted transition exactly if it is an object whose members, and theirs, have their types. */
  lemma {:induction false} AcceptedReadsExactly(v: Value)
    ensures DecodeAccepted(v).Some? <==>
            v.Obj? &&
            var m := v.fields;
            && ObjectLike(m, "proposal") && ProposalLike(Within(m, "proposal")) && ObjectLike(m, "result") && RefLike(Within(m, "result"))
            && ObjectLike(m, "durable") && BindingLike(Within(m, "durable")) && (Unset(m, "duplicate") || m["duplicate"].Bool?)
    ensures DecodeAccepted(v).Some? ==>
            (DecodeAccepted(v).value.duplicate <==> "duplicate" in v.fields && v.fields["duplicate"] == Bool(true))
  {
    hide ObjField, ObjectLike, Within, ProposalLike, RefLike, BindingLike, DecodeProposal, DecodeRef, DurableField;
    if v.Obj? {
      var m := v.fields;
      FieldsExactly(m, "proposal");
      FieldsExactly(m, "result");
      BindingExactly(m);
      if ObjectLike(m, "proposal") { ProposalExactly(Within(m, "proposal")); }
      if ObjectLike(m, "result") { RefExactly(Within(m, "result")); }
    }
  }

  // ----- Replay -----

  /** The event that Propose appends: accepted by the authority, in the workspace of its entity, with the payload as its only detail. */
  lemma {:induction false} EventSays(n: Normal, result: StateRef)
    ensures var e := TransitionEvent(n, result);
            && e.id == n.transitionID && e.kind == "transition.authority.accepted" && e.workspaceID == n.entity && e.action == "transition.accepted"
            && e.status == "accepted" && e.details.Keys == {"accepted_transition"}
            && e.actor == e.receiptID == e.createdAt == e.hash == e.prevHash == "" && e.rustAck.None?
  {
    hide Payload;
  }

  /**
   * Exactly which event of the authority's kind replays on a state: one in the form that Propose
   * gives it, whose transition is new, was proposed on this state, and states the result that
   * applying it has here and the admission data it was proposed with.
   */
  lemma {:induction false} ReplayedExactly(p: Params, a: Auth, ev: Event)
    requires ev.kind == ACCEPTED_KIND
    ensures Replayed(p, a, ev).Some? <==>
            && ev.status == "accepted" && ev.action == "transition.accepted" && ev.id != "" && ev.details.Keys == {"accepted_transition"}
            && var d := DecodeAccepted(ev.details["accepted_transition"]);
               d.Some? && Normalize(d.value.proposal).Success? &&
               var n := Normalize(d.value.proposal).value;
               && n.transitionID == ev.id && ev.id !in a.accepted && n.prior == Ref(a.state)
               && d.value.result == Ref(Apply(p, a.state, n)) && d.value.admission == Raw.Json(n.admissionData)
  {
    hide DecodeAccepted, Normalize, Apply, Request;
    OneKey(ev.details, DETAIL);
  }

  lemma {:induction false} OneKey(m: map<string, Value>, key: string)
    ensures |m| == 1 && key in m <==> m.Keys == {key}
  {
    assert |m| == |m.Keys|;
    if |m| == 1 && key in m {
      assert |m.Keys - {key}| == 0;
      assert m.Keys == {key} + (m.Keys - {key});
    }
  }

  /** The ids of the events of the authority's kind. */
  function AcceptedIds(events: seq<Event>): set<string> {
    set i | 0 <= i < |events| && events[i].kind == "transition.authority.accepted" :: events[i].id
  }

  /**
   * The state that a history rebuilds to: it has the one fixed id, a version that counts the accepted
   * transitions, which are those of the events of that kind, and no nodes while there are none.
   */
  lemma {:induction false} StateCounts(p: Params, events: seq<Event>)
    requires Rebuild(p, events).Some?
    ensures var a := Rebuild(p, events).value;
            && a.state.id == "semantic-state" && a.state.version == |a.accepted| && a.accepted.Keys == AcceptedIds(events)
            && (a.accepted == map[] ==> a.state.nodes == Some([]))
    decreases |events|
  {
    hide Rebuild, Replayed, ValidAck;
    if events == [] {
      TransitionTheory.NothingTracks(p);
    } else {
      var m := |events| - 1;
      TransitionTheory.RebuildLast(p, events);
      StateCounts(p, events[..m]);
      var a := Rebuild(p, events[..m]).value;
      IdsOneMore(events);
      if events[m].kind == ACCEPTED_KIND {
        var n, dup := TransitionTheory.ReplayedFacts(p, a, events[m]);
        OneMore(a.accepted, events[m].id, TransitionTheory.Stepped(p, a, n, events[m], dup).accepted[events[m].id]);
        hide AcceptedIds;
      } else {
        assert Replayed(p, a, events[m]) == Some(a) by { TransitionTheory.OtherKindsPass(p, a, events[m]); }
      }
    }
  }

  lemma {:induction false} IdsOneMore(events: seq<Event>)
    requires events != []
    ensures var m := |events| - 1;
            AcceptedIds(events) == AcceptedIds(events[..m]) + if events[m].kind == ACCEPTED_KIND then {events[m].id} else {}
  {
    var m := |events| - 1;
    assert forall i :: 0 <= i < m ==> events[..m][i] == events[i];
  }

  lemma {:induction false} OneMore<T>(m: map<string, T>, key: string, x: T)
    requires key !in m
    ensures |m[key := x]| == |m| + 1 && m[key := x].Keys == m.Keys + {key}
  {
    assert |m[key := x].Keys| == |m.Keys + {key}|;
  }
}
