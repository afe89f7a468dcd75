/** What reading history back recovers, and exactly when an appended event stays readable. */
module EventLogTheory {
  import opened Wrappers
  import opened Json
  import opened Decimal
  import opened Members
  import opened RecordCodec
  import opened Ledger
  import opened LedgerTheory
  import opened EventLog

  // ----- Events survive the wire -----

  lemma {:induction false} KeysDistinct()
    ensures Distinct(KEYS) && |KEYS| == 13
  {
    var lengths := [2, 3, 10, 4, 12, 5, 6, 6, 7, 10, 4, 9, 8];
    assert forall i :: 0 <= i < 13 ==> |KEYS[i]| == lengths[i];
    forall i, j | 0 <= i < j < 13 ensures KEYS[i] != KEYS[j] {
      if lengths[i] == lengths[j] {
        assert KEYS[i][0] != KEYS[j][0];
      }
    }
  }

  lemma {:induction false} Member(ev: Event, i: nat)
    requires i < 13
    ensures Evidence(ev).Obj? && |KEYS| == |Slots(ev)| == 13
    ensures KEYS[i] in Evidence(ev).fields <==> Slots(ev)[i].Some?
    ensures Slots(ev)[i].Some? ==> Evidence(ev).fields[KEYS[i]] == Slots(ev)[i].value
  {
    KeysDistinct();
    CollectAt(KEYS, Slots(ev), i);
  }

  lemma {:induction false} StrMember(ev: Event, i: nat, s: string)
    requires i < 13 && (Slots(ev)[i] == Some(Str(s)) || Slots(ev)[i] == OmitEmpty(s))
    ensures StrField(Evidence(ev).fields, KEYS[i]) == Some(s)
  {
    Member(ev, i);
    hide Evidence, Slots;
  }

  lemma {:induction false} TextMembers(ev: Event)
    ensures var m := Evidence(ev).fields;
            && StrField(m, "id") == Some(ev.id) && StrField(m, "created_at") == Some(ev.createdAt)
            && StrField(m, "type") == Some(ev.kind) && StrField(m, "workspace_id") == Some(ev.workspaceID)
            && StrField(m, "actor") == Some(ev.actor) && StrField(m, "action") == Some(ev.action)
            && StrField(m, "status") == Some(ev.status) && StrField(m, "receipt_id") == Some(ev.receiptID)
            && StrField(m, "hash") == Some(ev.hash) && StrField(m, "prev_hash") == Some(ev.prevHash)
  {
    hide Evidence, StrField, Dec;
    StrMember(ev, 0, ev.id);
    StrMember(ev, 2, ev.createdAt);
    StrMember(ev, 3, ev.kind);
    StrMember(ev, 4, ev.workspaceID);
    StrMember(ev, 5, ev.actor);
    StrMember(ev, 6, ev.action);
    StrMember(ev, 7, ev.status);
    StrMember(ev, 9, ev.receiptID);
    StrMember(ev, 10, ev.hash);
    StrMember(ev, 11, ev.prevHash);
  }

  lemma {:induction false} OtherMembers(p: Params, ev: Event)
    ensures var m := Evidence(ev).fields;
            && NatField(m, "seq") == Some(ev.sequence)
            && MapField(p.reload, m, "details") == Some(ReloadAll(p.reload, ev.details))
            && AckField(m)
  {
    IntRoundTrip(ev.sequence);
    if ev.rustAck.Some? {
      AckShape(ev.rustAck.value);
    }
    hide Evidence, Dec, NatOf, Reload, AckValue, StrField;
    Member(ev, 1);
    Member(ev, 8);
    Member(ev, 12);
    assert ev.details == map[] ==> ReloadAll(p.reload, ev.details) == map[];
  }

  lemma {:induction false} AckShape(a: RustAck)
    ensures AckValue(a).Obj?
    ensures var m := AckValue(a).fields;
            StrField(m, "id").Some? && NatField(m, "seq").Some? && StrField(m, "hash").Some?
  {
    IntRoundTrip(a.sequence);
    hide Dec, NatOf;
  }

  /** Decoding a posted event gives the event back, with its details reloaded and no acknowledgement. */
  lemma {:induction false} EvidenceRoundTrip(p: Params, ev: Event)
    ensures FromEvidence(p, Evidence(ev)) == Some(ev.(details := ReloadAll(p.reload, ev.details), rustAck := None))
  {
    TextMembers(ev);
    OtherMembers(p, ev);
    assert Evidence(ev).Obj?;
    hide Evidence, StrField, NatField, MapField, AckField, ReloadAll;
  }

  /** The event without the fields a retry regenerates. */
  function Semantics(ev: Event): Event {
    ev.(sequence := 0, createdAt := "", hash := "", prevHash := "", rustAck := Option.None)
  }

  /** The positions of the members that a retry regenerates. */
  predicate Regenerated(i: nat) {
    i == 1 || i == 2 || i == 10 || i == 11 || i == 12
  }

  lemma {:induction false} RegeneratedKeys()
    ensures |KEYS| == 13 && forall i :: 0 <= i < 13 ==> (KEYS[i] in TRANSPORT <==> Regenerated(i))
  {
    KeysDistinct();
    assert TRANSPORT == {KEYS[1], KEYS[2], KEYS[10], KEYS[11], KEYS[12]};
  }

  /** The recorder takes two posted events for the same evidence exactly when Go would send the same content. */
  lemma {:induction false} SemanticEvents(a: Event, b: Event)
    ensures SameSemantic(Evidence(a), Evidence(b)) <==> Semantics(a) == Semantics(b)
  {
    RegeneratedKeys();
    var x, y := Evidence(a).fields - TRANSPORT, Evidence(b).fields - TRANSPORT;
    if x == y {
      forall i: nat | i < 13 && !Regenerated(i) ensures Slots(a)[i] == Slots(b)[i] {
        Member(a, i);
        Member(b, i);
        assert KEYS[i] in Evidence(a).fields <==> KEYS[i] in x;
        assert KEYS[i] in Evidence(b).fields <==> KEYS[i] in y;
      }
      SlotsContent(a, b);
    } else if Semantics(a) == Semantics(b) {
      SlotsContent(a, b);
      hide Slots, Evidence;
      CollectKeys(KEYS, Slots(a));
      CollectKeys(KEYS, Slots(b));
      forall k | k in x || k in y ensures k in x && k in y && x[k] == y[k] {
        assert k in KEYS;
        var i: nat :| i < 13 && KEYS[i] == k;
        Member(a, i);
        Member(b, i);
      }
    }
  }

  lemma {:induction false} SlotsContent(a: Event, b: Event)
    ensures (forall i: nat :: i < 13 && !Regenerated(i) ==> Slots(a)[i] == Slots(b)[i]) <==> Semantics(a) == Semantics(b)
  {
    hide Dec;
    var x, y := Slots(a), Slots(b);
    if forall i: nat :: i < 13 && !Regenerated(i) ==> x[i] == y[i] {
      assert x[0] == y[0] && x[3] == y[3] && x[4] == y[4] && x[5] == y[5];
      assert x[6] == y[6] && x[7] == y[7] && x[8] == y[8] && x[9] == y[9];
    }
  }

  lemma {:induction false} EvidenceIds(ev: Event)
    ensures IdOrNull(Evidence(ev)) == Str(ev.id)
    ensures EvidenceId(Evidence(ev)) == if ev.id == "" then None else Some(ev.id)
  {
    Member(ev, 0);
    hide Evidence, Dec;
  }

  // ----- History reads by parts -----

  lemma {:induction false} ValidAppend(p: Params, prev: string, expected: nat, a: seq<Event>, b: seq<Event>)
    ensures ValidFrom(p, prev, expected, a + b) <==>
            ValidFrom(p, prev, expected, a) &&
            ValidFrom(p, if a == [] then prev else a[|a| - 1].hash, expected + |a|, b)
    decreases |a|
  {
    if a == [] {
      assert a + b == b;
    } else {
      assert (a + b)[0] == a[0] && (a + b)[1..] == a[1..] + b;
      ValidAppend(p, a[0].hash, expected + 1, a[1..], b);
    }
  }

  lemma {:induction false} AcknowledgedAppend(p: Params, prev: string, position: nat, rs: seq<Record>, r: Record)
    ensures AcknowledgedFrom(p, prev, position, rs + [r]) ==
            var before := AcknowledgedFrom(p, prev, position, rs);
            var ev := Acknowledged(p, if rs == [] then prev else rs[|rs| - 1].hash, position + |rs|, r);
            if before.None? || ev.None? then None else Some(before.value + [ev.value])
    decreases |rs|
  {
    hide Acknowledged;
    if rs == [] {
      assert rs + [r] == [r] && [r][1..] == [];
      var ev := Acknowledged(p, prev, position, r);
      assert ev.Some? ==> [ev.value] + [] == [] + [ev.value];
    } else {
      assert (rs + [r])[0] == rs[0] && (rs + [r])[1..] == rs[1..] + [r];
      AcknowledgedAppend(p, rs[0].hash, position + 1, rs[1..], r);
      var first := Acknowledged(p, prev, position, rs[0]);
      var rest := AcknowledgedFrom(p, rs[0].hash, position + 1, rs[1..]);
      var ev := Acknowledged(p, rs[|rs| - 1].hash, position + |rs|, r);
      if first.Some? && rest.Some? && ev.Some? {
        assert [first.value] + (rest.value + [ev.value]) == [first.value] + rest.value + [ev.value];
      }
    }
  }

  lemma {:induction false} AcknowledgedLength(p: Params, prev: string, position: nat, rs: seq<Record>)
    requires AcknowledgedFrom(p, prev, position, rs).Some?
    ensures |AcknowledgedFrom(p, prev, position, rs).value| == |rs|
    decreases |rs|
  {
    if rs != [] {
      AcknowledgedLength(p, rs[0].hash, position + 1, rs[1..]);
    }
  }

  /** The event a record stands for when it is the next one after history es. */
  function NextEvent(p: Params, rs: seq<Record>, es: seq<Event>, r: Record): Option<Event> {
    var ev := Acknowledged(p, if rs == [] then GENESIS else rs[|rs| - 1].hash, |rs| + 1, r);
    if ev.Some? && ev.value.prevHash == LastHash(es) && HashEvent(p, ev.value) == ev.value.hash then ev else None
  }

  /** A longer history reads exactly when the shorter one does and the new record follows it. */
  lemma {:induction false} HistoryAppend(p: Params, rs: seq<Record>, r: Record)
    ensures HistoryOf(p, rs + [r]) ==
            var before := HistoryOf(p, rs);
            if before.None? then None else
              var ev := NextEvent(p, rs, before.value, r);
              if ev.None? then None else Some(before.value + [ev.value])
  {
    hide Acknowledged, HashEvent, ValidAck;
    AcknowledgedAppend(p, GENESIS, 1, rs, r);
    AckedIsValid(p, if rs == [] then GENESIS else rs[|rs| - 1].hash, |rs| + 1, r);
    var before := AcknowledgedFrom(p, GENESIS, 1, rs);
    var prev := if rs == [] then GENESIS else rs[|rs| - 1].hash;
    if before.Some? {
      AcknowledgedLength(p, GENESIS, 1, rs);
      var ev := Acknowledged(p, prev, |rs| + 1, r);
      if ev.Some? {
        ValidAppend(p, GENESIS, 1, before.value, [ev.value]);
        ValidOne(p, LastHash(before.value), |rs| + 1, ev.value);
      }
    }
  }

  lemma {:induction false} AckedIsValid(p: Params, prev: string, position: nat, r: Record)
    ensures var ev := Acknowledged(p, prev, position, r);
            ev.Some? ==> ValidAck(ev.value) && ev.value.sequence == position
  {
    hide FromEvidence;
  }

  lemma {:induction false} ValidOne(p: Params, prev: string, expected: nat, ev: Event)
    ensures ValidFrom(p, prev, expected, [ev]) <==>
            ev.sequence == expected && ev.prevHash == prev && HashEvent(p, ev) == ev.hash && (RequiresAck(ev) ==> ValidAck(ev))
  {
    assert [ev][1..] == [];
  }

  lemma {:induction false} HistoryLength(p: Params, rs: seq<Record>)
    requires HistoryOf(p, rs).Some?
    ensures |HistoryOf(p, rs).value| == |rs|
  {
    AcknowledgedLength(p, GENESIS, 1, rs);
  }

  /** Every prefix of a readable history is readable, and reads as the prefix of the events. */
  lemma {:induction false} HistoryPrefix(p: Params, rs: seq<Record>, k: nat)
    requires k <= |rs| && HistoryOf(p, rs).Some?
    ensures |HistoryOf(p, rs).value| == |rs|
    ensures HistoryOf(p, rs[..k]) == Some(HistoryOf(p, rs).value[..k])
    decreases |rs|
  {
    HistoryLength(p, rs);
    hide HistoryOf, NextEvent;
    if k == |rs| {
      assert rs[..k] == rs && HistoryOf(p, rs).value[..k] == HistoryOf(p, rs).value;
    } else {
      var m := |rs| - 1;
      assert rs == rs[..m] + [rs[m]];
      HistoryAppend(p, rs[..m], rs[m]);
      HistoryPrefix(p, rs[..m], k);
      assert rs[..m][..k] == rs[..k];
      var before, all := HistoryOf(p, rs[..m]).value, HistoryOf(p, rs).value;
      assert |before| == m && all == before + [all[m]];
      assert all[..k] == before[..k];
    }
  }

  // ----- What keeps history readable -----

  /** Details whose numbers survive a trip through float64. */
  ghost predicate Stable(p: Params, details: map<string, Value>) {
    ReloadAll(p.reload, details) == details
  }

  /** The event as history has it once it was read back, before its acknowledgement is put in. */
  ghost function Reloaded(p: Params, e: Event): Event {
    e.(details := ReloadAll(p.reload, e.details), rustAck := Option.None)
  }

  /** Reading the event back does not change its hash: its details are stable, or two different events hash alike. */
  ghost predicate ReadsBack(p: Params, e: Event) {
    HashEvent(p, Reloaded(p, e)) == HashEvent(p, e)
  }

  lemma {:induction false} StableReadsBack(p: Params, e: Event)
    requires Stable(p, e.details)
    ensures ReadsBack(p, e) && Reloaded(p, e) == e.(rustAck := Option.None)
  {
  }

  /**
   * Exactly when a recorded event leaves the history readable: the log's sequence and chain
   * head were those of the recorder's history, and the event reads back under its hash.  The
   * first two can be checked before the append; stable details give the third.
   */
  lemma {:induction false} ReadableExactlyWhen(p: Params, rs: seq<Record>, log: Log, ev: Event, now: string, s: State)
    requires Good(p.rust) && Replay(p.rust, rs) == Success(s) && HistoryOf(p, rs).Some? && ev.id != ""
    ensures var e := Prepared(log, p, ev, now);
            var all := rs + [NextRecord(p.rust, s, Evidence(e))];
            var before := HistoryOf(p, rs).value;
            && HistoryOf(p, all) ==
                 (if log.sequence == |rs| && log.lastHash == LastHash(before) && ReadsBack(p, e)
                  then Some(before + [Reloaded(p, e).(rustAck := Some(RustAck(e.id, |rs| + 1, all[|rs|].hash)))]) else None)
            && (Stable(p, ev.details) ==> ReadsBack(p, e) && Reloaded(p, e) == e.(rustAck := Option.None))
  {
    hide Evidence, FromEvidence, ReplayFrom;
    var e := Prepared(log, p, ev, now);
    var r := NextRecord(p.rust, s, Evidence(e));
    EvidenceRoundTrip(p, e);
    HistoryAppend(p, rs, r);
    HeadAndCount(p.rust, rs);
    assert HashEvent(p, e) == e.hash;
    NextEventIs(p, rs, HistoryOf(p, rs).value, r, Reloaded(p, e));
    if Stable(p, ev.details) {
      StableReadsBack(p, e);
    }
  }

  lemma {:induction false} HeadAndCount(w: World, rs: seq<Record>)
    requires Replay(w, rs).Success?
    ensures var s := Replay(w, rs).value;
            s.sequence == |rs| && s.headHash == if rs == [] then GENESIS else rs[|rs| - 1].hash
  {
    ReplayPrefix(w, rs, |rs|);
    assert rs[..|rs|] == rs;
    if rs != [] {
      LastRecord(w, rs);
    }
  }

  lemma {:induction false} NextEventIs(p: Params, rs: seq<Record>, es: seq<Event>, r: Record, back: Event)
    requires FromEvidence(p, r.evidence) == Some(back) && back.rustAck.None? && back.id != ""
    requires r.sequence == |rs| + 1 && r.prevHash == (if rs == [] then GENESIS else rs[|rs| - 1].hash) && IsSha256(r.hash)
    ensures NextEvent(p, rs, es, r) ==
            if back.sequence == |rs| + 1 && back.prevHash == LastHash(es) && HashEvent(p, back) == back.hash
            then Some(back.(rustAck := Some(RustAck(back.id, r.sequence, r.hash)))) else None
  {
    hide FromEvidence;
  }
}
