/**
 * Fail-closed safety over every run: whatever Go holds as accepted is in the recorder's
 * ledger, where its binding says, with the acknowledged hash and the same payload; and the
 * ledger is only ever extended.
 */
module Safety {
  import opened Wrappers
  import opened Json
  import opened Members
  import Bytes
  import opened RecordCodec
  import opened Ledger
  import opened LedgerTheory
  import opened EventLog
  import MirrorTheory
  import opened EventLogTheory
  import opened Transition
  import opened TransitionTheory
  import opened Protocol
  import LogService

  /** The payload stored in evidence, if it has the shape of an accepted event. */
  function StoredPayload(evidence: Value): Option<Value> {
    if evidence.Obj? && "details" in evidence.fields && evidence.fields["details"].Obj?
       && DETAIL in evidence.fields["details"].fields
    then Some(evidence.fields["details"].fields[DETAIL]) else None
  }

  /** The stored payload is the transition's own, or decodes to the transition after its numbers were reloaded. */
  ghost predicate SamePayload(p: Params, stored: Value, acc: Accepted) {
    stored == Payload(acc.proposal, acc.result) || Says(Reload(p.reload, stored), acc)
  }

  /** One accepted transition is on the ledger: under its id, at its sequence, with the acknowledged hash and payload. */
  ghost predicate OnLedger(p: Params, rs: seq<Record>, id: string, acc: Accepted) {
    var d := acc.durable;
    && 1 <= d.sequence <= |rs| && d.eventID == id
    && (var r := rs[d.sequence - 1];
        && d.rustAck == Some(RustAck(id, d.sequence, r.hash)) && r.sequence == d.sequence
        && EvidenceId(r.evidence) == Some(id)
        && StoredPayload(r.evidence).Some? && SamePayload(p, StoredPayload(r.evidence).value, acc))
  }

  ghost predicate AllOnLedger(p: Params, rs: seq<Record>, a: Auth) {
    forall id :: id in a.accepted ==> OnLedger(p, rs, id, a.accepted[id].accepted)
  }

  lemma {:induction false} OnLedgerGrows(p: Params, rs: seq<Record>, more: seq<Record>, a: Auth)
    requires AllOnLedger(p, rs, a) && rs <= more
    ensures AllOnLedger(p, more, a)
  {
    hide SamePayload, StoredPayload, EvidenceId;
    forall id | id in a.accepted ensures OnLedger(p, more, id, a.accepted[id].accepted) {
      assert OnLedger(p, rs, id, a.accepted[id].accepted);
    }
  }

  // ----- What an acknowledgement guarantees -----

  /** The record holds the event's content, under its id. */
  ghost predicate Holds(r: Record, ev: Event) {
    SameSemantic(r.evidence, Evidence(ev)) && EvidenceId(r.evidence) == Some(ev.id)
  }

  /** An answered append, seen from the ledger: the record at the acknowledged sequence holds the event. */
  lemma {:induction false} AcknowledgedRecord(p: Params, n: Node, rs: seq<Record>, tail: seq<Bytes.Byte>, ev: Event, h: Hazards)
    requires Good(p.rust) && Sound(p.rust, n, rs, tail)
    requires EventLog.Forward(p, n, ev, h).1.Some?
    ensures var (n', ack) := EventLog.Forward(p, n, ev, h);
            var rs' := AfterAppend(p.rust, n, rs, tail, Evidence(ev), h.disk).0;
            && 1 <= ev.sequence <= |rs'| && ack == Some(RustAck(ev.id, ev.sequence, rs'[ev.sequence - 1].hash))
            && rs'[ev.sequence - 1].sequence == ev.sequence && Holds(rs'[ev.sequence - 1], ev)
  {
    hide Evidence, AppendStep, ReplayFrom, Stored, UniqueIds, AllBound, Line;
    AppendSound(p.rust, n, rs, tail, Evidence(ev), h.disk);
    EvidenceIds(ev);
    if Dedup(rs, Evidence(ev)).Some? {
      var i := Find(rs, ev.id);
      hide Find;
      RecordSequence(p.rust, rs, i);
    } else {
      hide Find;
      assert AppendStep(p.rust, n, Evidence(ev), h.disk).1.Success?;
    }
  }

  lemma {:induction false} HoldsPayload(r: Record, ev: Event)
    requires Holds(r, ev) && DETAIL in ev.details
    ensures StoredPayload(r.evidence) == Some(ev.details[DETAIL])
  {
    Member(ev, 8);
    RegeneratedKeys();
    assert "details" !in TRANSPORT;
    assert Evidence(ev).fields["details"] == Obj(ev.details);
    hide Evidence, Slots;
    var mine, theirs := Evidence(ev).fields - TRANSPORT, r.evidence;
    assert Normalized(theirs) == Obj(mine);
    assert "details" in mine && mine["details"] == Obj(ev.details);
  }

  /** The recorder side of one append. */
  lemma {:induction false} ForwardSound(p: Params, n: Node, rs: seq<Record>, tail: seq<Bytes.Byte>, ev: Event, h: Hazards)
    returns (rs': seq<Record>, tail': seq<Bytes.Byte>)
    requires Good(p.rust) && Sound(p.rust, n, rs, tail)
    ensures var (n', ack) := EventLog.Forward(p, n, ev, h);
            && Sound(p.rust, n', rs', tail') && rs <= rs'
            && (ack.Some? ==> 1 <= ev.sequence <= |rs'| && ack == Some(RustAck(ev.id, ev.sequence, rs'[ev.sequence - 1].hash))
                              && rs'[ev.sequence - 1].sequence == ev.sequence && Holds(rs'[ev.sequence - 1], ev))
  {
    rs', tail' := rs, tail;
    if !h.trip.NotSent? {
      AppendSound(p.rust, n, rs, tail, Evidence(ev), h.disk);
      var after := AfterAppend(p.rust, n, rs, tail, Evidence(ev), h.disk);
      rs', tail' := after.0, after.1;
      if EventLog.Forward(p, n, ev, h).1.Some? {
        AcknowledgedRecord(p, n, rs, tail, ev, h);
      }
      hide Evidence, Sound, AppendStep, AfterAppend, Holds;
    }
  }

  /** What an append does to the recorder, and what it returns for an accepted event. */
  lemma {:induction false} AppendCases(p: Params, configured: bool, log: Log, n: Node, ev: Event, now: string, h: Hazards)
    ensures var (_, n', saved) := AppendEvent(p, configured, log, n, ev, now, h);
            var e := Prepared(log, p, ev, now);
            && n' == (if ev.id == "" || !configured then n else EventLog.Forward(p, n, e, h).0)
            && (saved.Some? && ev.kind == ACCEPTED_KIND ==>
                  configured && ev.id != "" && EventLog.Forward(p, n, e, h).1.Some?
                  && saved.value == e.(rustAck := EventLog.Forward(p, n, e, h).1))
  {
    LogService.PreparedKind(log, p, ev, now);
    hide Prepared, EventLog.Forward, AppendLine;
  }

  /** An accepted event that Append returned is on the ledger; in any case the ledger stays sound and only grows. */
  lemma {:induction false} AppendSafe(p: Params, configured: bool, log: Log, n: Node, ev: Event, now: string, h: Hazards,
                                      rs: seq<Record>, tail: seq<Bytes.Byte>)
    returns (rs': seq<Record>, tail': seq<Bytes.Byte>)
    requires Good(p.rust) && Sound(p.rust, n, rs, tail)
    ensures var (_, n', saved) := AppendEvent(p, configured, log, n, ev, now, h);
            && Sound(p.rust, n', rs', tail') && rs <= rs'
            && (saved.Some? && ev.kind == ACCEPTED_KIND ==> Landed(rs', Prepared(log, p, ev, now), saved.value))
  {
    AppendCases(p, configured, log, n, ev, now, h);
    hide Prepared, EventLog.Forward, Sound, Holds, AppendEvent;
    rs', tail' := rs, tail;
    if ev.id != "" && configured {
      rs', tail' := ForwardSound(p, n, rs, tail, Prepared(log, p, ev, now), h);
    }
  }

  /** The returned event is the prepared one with the acknowledgement of the record that holds it. */
  ghost predicate Landed(rs: seq<Record>, e: Event, saved: Event) {
    && 1 <= e.sequence <= |rs|
    && saved == e.(rustAck := Some(RustAck(e.id, e.sequence, rs[e.sequence - 1].hash)))
    && rs[e.sequence - 1].sequence == e.sequence && Holds(rs[e.sequence - 1], e)
  }

  /** The event Propose appends, if it gets that far. */
  ghost function Proposed(c: Config, a: Auth, proposal: Proposal): Option<Normal> {
    var normal := Normalize(proposal);
    if normal.Success? && normal.value.transitionID !in a.accepted && normal.value.prior == Ref(a.state)
       && c.policy(normal.value, Clone(a.state))
    then Some(normal.value) else None
  }

  ghost function ProposedEvent(p: Params, a: Auth, x: Normal): Event {
    TransitionEvent(x, Ref(Apply(p, a.state, x)))
  }

  /** A proposal that passes every check before the append stands or falls with the append. */
  lemma {:induction false} ProposeAppends(c: Config, a: Auth, log: Log, n: Node, proposal: Proposal, now: string, h: Hazards, x: Normal)
    requires Normalize(proposal) == Success(x) && x.transitionID !in a.accepted && x.prior == Ref(a.state)
    requires c.policy(x, Clone(a.state))
    ensures var (log', n', saved) := AppendEvent(c.p, c.configured, log, n, ProposedEvent(c.p, a, x), now, h);
            ProposeStep(c.p, c.configured, c.policy, a, log, n, proposal, now, h) ==
            if saved.None? || saved.value.id != x.transitionID || !ValidAck(saved.value) then (a, log', n', Failure(Durable))
            else (Admitted(c.p, a, x, saved.value), log', n',
                  Success(Admitted(c.p, a, x, saved.value).accepted[x.transitionID].accepted))
  {
    hide Normalize, Apply, AppendEvent, Request, Clone, ValidAck, TransitionEvent;
  }

  /** Propose in terms of the one append it makes. */
  lemma {:induction false} ProposeCases(c: Config, a: Auth, log: Log, n: Node, proposal: Proposal, now: string, h: Hazards)
    ensures var (a', log', n', r) := ProposeStep(c.p, c.configured, c.policy, a, log, n, proposal, now, h);
            var x := Proposed(c, a, proposal);
            if x.None? then a' == a && log' == log && n' == n
            else
              var (log1, n1, saved) := AppendEvent(c.p, c.configured, log, n, ProposedEvent(c.p, a, x.value), now, h);
              && log' == log1 && n' == n1
              && (if saved.Some? && saved.value.id == x.value.transitionID && ValidAck(saved.value)
                  then a' == Admitted(c.p, a, x.value, saved.value) && r.Success? else a' == a && r == Failure(Durable))
  {
    hide Normalize, Apply, AppendEvent, Request, Clone, ValidAck, TransitionEvent;
    var x := Proposed(c, a, proposal);
    if x.Some? {
      ProposeAppends(c, a, log, n, proposal, now, h, x.value);
      var saved := AppendEvent(c.p, c.configured, log, n, ProposedEvent(c.p, a, x.value), now, h).2;
      hide ProposeStep, ProposedEvent, Admitted, Proposed;
      if !(saved.Some? && saved.value.id == x.value.transitionID && ValidAck(saved.value)) {
        assert ProposeStep(c.p, c.configured, c.policy, a, log, n, proposal, now, h).0 == a;
      }
    }
  }

  /** One proposal, whatever happens around it. */
  lemma {:induction false} ProposeSafe(c: Config, a: Auth, log: Log, n: Node, proposal: Proposal, now: string, h: Hazards,
                                       rs: seq<Record>, tail: seq<Bytes.Byte>)
    returns (rs': seq<Record>, tail': seq<Bytes.Byte>)
    requires Good(c.p.rust) && Sound(c.p.rust, n, rs, tail) && AllOnLedger(c.p, rs, a)
    ensures var (a', _, n', _) := ProposeStep(c.p, c.configured, c.policy, a, log, n, proposal, now, h);
            Sound(c.p.rust, n', rs', tail') && rs <= rs' && AllOnLedger(c.p, rs', a')
  {
    ProposeCases(c, a, log, n, proposal, now, h);
    rs', tail' := rs, tail;
    var x := Proposed(c, a, proposal);
    if x.Some? {
      var ev := ProposedEvent(c.p, a, x.value);
      assert ev.kind == ACCEPTED_KIND;
      rs', tail' := AppendSafe(c.p, c.configured, log, n, ev, now, h, rs, tail);
      OnLedgerGrows(c.p, rs, rs', a);
      var saved := AppendEvent(c.p, c.configured, log, n, ev, now, h).2;
      if saved.Some? {
        AdmittedOnLedger(c.p, a, x.value, log, now, rs', saved.value);
      }
    }
    hide ProposeStep, AppendEvent, Sound, AllOnLedger, ProposedEvent, Proposed, Admitted, Landed, Prepared;
  }

  /** The transition just admitted is on the ledger with its own payload. */
  lemma {:induction false} AdmittedOnLedger(p: Params, a: Auth, x: Normal, log: Log, now: string, rs: seq<Record>, saved: Event)
    requires AllOnLedger(p, rs, a) && Landed(rs, Prepared(log, p, ProposedEvent(p, a, x), now), saved)
    ensures AllOnLedger(p, rs, Admitted(p, a, x, saved))
  {
    var next := Apply(p, a.state, x);
    var e := Prepared(log, p, ProposedEvent(p, a, x), now);
    var after := Admitted(p, a, x, saved);
    hide Apply, Request, Payload, HashEvent;
    assert e.id == x.transitionID && DETAIL in e.details && e.details[DETAIL] == Payload(x, Ref(next));
    HoldsPayload(rs[e.sequence - 1], e);
    hide Prepared, StoredPayload, SameSemantic, EvidenceId, Evidence, Says;
    forall id | id in after.accepted ensures OnLedger(p, rs, id, after.accepted[id].accepted) {
      if id != x.transitionID {
        assert OnLedger(p, rs, id, a.accepted[id].accepted);
      }
    }
  }

  // ----- Restart -----

  /** An event read back from the ledger, against the record it came from. */
  lemma {:induction false} ReadBack(p: Params, prev: string, position: nat, r: Record)
    requires Acknowledged(p, prev, position, r).Some?
    ensures var ev := Acknowledged(p, prev, position, r).value;
            && ev.rustAck == Some(RustAck(ev.id, r.sequence, r.hash)) && ev.sequence == r.sequence == position
            && ev.id != "" && EvidenceId(r.evidence) == Some(ev.id)
            && (DETAIL in ev.details ==>
                  StoredPayload(r.evidence).Some? && ev.details[DETAIL] == Reload(p.reload, StoredPayload(r.evidence).value))
  {
    hide Reload;
    var m := r.evidence.fields;
    var ev := Acknowledged(p, prev, position, r).value;
    assert StrField(m, "id") == Some(ev.id);
    assert MapField(p.reload, m, "details") == Some(ev.details);
  }

  lemma {:induction false} HistoryAt(p: Params, rs: seq<Record>, k: nat) returns (prev: string)
    requires HistoryOf(p, rs).Some? && k < |rs|
    ensures |HistoryOf(p, rs).value| == |rs|
    ensures Acknowledged(p, prev, k + 1, rs[k]) == Some(HistoryOf(p, rs).value[k])
  {
    prev := if k == 0 then GENESIS else rs[k - 1].hash;
    HistoryPrefix(p, rs, k + 1);
    HistoryPrefix(p, rs, k);
    assert rs[..k + 1] == rs[..k] + [rs[k]];
    HistoryAppend(p, rs[..k], rs[k]);
    hide HistoryOf, Acknowledged;
    var es := HistoryOf(p, rs).value;
    assert es[..k + 1][k] == es[k];
    assert |es[..k]| == k;
    assert k > 0 ==> rs[..k][k - 1] == rs[k - 1];
  }

  /** Everything a rebuilt authority holds is on the ledger it was rebuilt from. */
  lemma {:induction false} RebuiltOnLedger(p: Params, rs: seq<Record>)
    requires HistoryOf(p, rs).Some? && Rebuild(p, HistoryOf(p, rs).value).Some?
    ensures AllOnLedger(p, rs, Rebuild(p, HistoryOf(p, rs).value).value)
  {
    var es := HistoryOf(p, rs).value;
    HistoryLength(p, rs);
    RebuildTracks(p, es);
    var a := Rebuild(p, es).value;
    assert BindsAll(es, a);
    hide Rebuild, HistoryOf, Tracks, Says, Acknowledged, Settled, Request, OnLedger, ValidAck;
    forall id | id in a.accepted ensures OnLedger(p, rs, id, a.accepted[id].accepted) {
      assert BindsEvent(es, id, a.accepted[id]);
      var k := a.accepted[id].accepted.durable.sequence - 1;
      var prev := HistoryAt(p, rs, k);
      ReadBackOnLedger(p, rs, prev, k, es[k], id, a.accepted[id].accepted);
    }
  }

  lemma {:induction false} ReadBackOnLedger(p: Params, rs: seq<Record>, prev: string, k: nat, ev: Event, id: string, acc: Accepted)
    requires k < |rs| && Acknowledged(p, prev, k + 1, rs[k]) == Some(ev)
    requires acc.durable == BindingOf(ev) && ev.id == id && DETAIL in ev.details && Says(ev.details[DETAIL], acc)
    ensures OnLedger(p, rs, id, acc)
  {
    hide Acknowledged, Says, StoredPayload, EvidenceId, Reload, Payload;
    ReadBack(p, prev, k + 1, rs[k]);
    assert acc.durable == Binding(id, k + 1, ev.hash, Some(RustAck(id, k + 1, rs[k].hash)));
    assert SamePayload(p, StoredPayload(rs[k].evidence).value, acc);
  }

  // ----- Runs -----

  /** The invariant of every run. */
  ghost predicate Safe(c: Config, s: Sys, rs: seq<Record>, tail: seq<Bytes.Byte>) {
    Sound(c.p.rust, s.rust.node, rs, tail) && (s.auth.Some? ==> AllOnLedger(c.p, rs, s.auth.value))
  }

  lemma {:induction false} RefreshReads(p: Params, log: Log, n: Node, reachable: bool, rs: seq<Record>, tail: seq<Bytes.Byte>)
    requires Good(p.rust) && Sound(p.rust, n, rs, tail)
    ensures var events := Refresh(p, true, log, n, reachable).1;
            events.Some? ==> HistoryOf(p, rs) == events
  {
    OpenSound(p.rust, n, rs, tail);
    ReadStored(p.rust, n.disk.ledger, rs, tail);
    hide HistoryOf, RecordsOf, Open;
  }

  lemma {:induction false} RestartSafe(c: Config, s: Sys, reachable: bool, rs: seq<Record>, tail: seq<Bytes.Byte>)
    requires Good(c.p.rust) && Safe(c, s, rs, tail)
    ensures Safe(c, Restarted(c, s, reachable), rs, tail)
  {
    var loaded := Loaded(c.configured, s.log.mirror);
    if loaded.Some? {
      var events := Refresh(c.p, c.configured, loaded.value, s.rust.node, reachable && s.rust.up).1;
      if events.Some? && Rebuild(c.p, events.value).Some? {
        if c.configured {
          RefreshReads(c.p, loaded.value, s.rust.node, reachable && s.rust.up, rs, tail);
          RebuiltOnLedger(c.p, rs);
        } else {
          NothingTracks(c.p);
        }
      }
    }
    hide Rebuild, Refresh, Loaded, Sound, OnLedger;
  }

  lemma {:induction false} AdmitSafe(c: Config, s: Sys, a: Step, rs: seq<Record>, tail: seq<Bytes.Byte>)
    returns (rs': seq<Record>, tail': seq<Bytes.Byte>)
    requires Good(c.p.rust) && Safe(c, s, rs, tail) && a.Admit?
    ensures Safe(c, Next(c, s, a), rs', tail') && rs <= rs'
  {
    rs', tail' := rs, tail;
    if s.auth.Some? {
      rs', tail' := ProposeSafe(c, s.auth.value, s.log, s.rust.node, Entered(a.entrance, a.proposal), a.now, Reaching(s.rust, a.h), rs, tail);
      hide ProposeStep, Sound, AllOnLedger, Entered, Reaching;
    }
  }

  lemma {:induction false} OpaqueSafe(c: Config, s: Sys, a: Step, rs: seq<Record>, tail: seq<Bytes.Byte>)
    returns (rs': seq<Record>, tail': seq<Bytes.Byte>)
    requires Good(c.p.rust) && Safe(c, s, rs, tail) && a.Opaque?
    ensures Safe(c, Next(c, s, a), rs', tail') && rs <= rs'
  {
    rs', tail' := rs, tail;
    if s.auth.Some? {
      rs', tail' := AppendSafe(c.p, c.configured, s.log, s.rust.node, a.ev, a.now, Reaching(s.rust, a.h), rs, tail);
      OnLedgerGrows(c.p, rs, rs', s.auth.value);
      hide AppendEvent, Sound, AllOnLedger, Reaching;
    }
  }

  /** A step of the recorder itself. */
  lemma {:induction false} RustSafe(c: Config, s: Sys, a: Step, rs: seq<Record>, tail: seq<Bytes.Byte>)
    returns (rs': seq<Record>, tail': seq<Bytes.Byte>)
    requires Good(c.p.rust) && Safe(c, s, rs, tail) && (a.RestartRust? || a.RustCheckpoint?)
    ensures Safe(c, Next(c, s, a), rs', tail') && rs <= rs'
  {
    rs', tail' := DoSound(c.p.rust, s.rust, if a.RestartRust? then Restart else WriteCheckpointFile(a.fault), rs, tail);
    if s.auth.Some? { OnLedgerGrows(c.p, rs, rs', s.auth.value); }
    hide Do, Sound, AllOnLedger;
  }

  /** Every step keeps the system safe, and never takes a record back. */
  lemma {:induction false} NextSafe(c: Config, s: Sys, a: Step, rs: seq<Record>, tail: seq<Bytes.Byte>)
    returns (rs': seq<Record>, tail': seq<Bytes.Byte>)
    requires Good(c.p.rust) && Safe(c, s, rs, tail)
    ensures Safe(c, Next(c, s, a), rs', tail') && rs <= rs'
  {
    rs', tail' := rs, tail;
    match a
    case Admit(_, _, _, _) => rs', tail' := AdmitSafe(c, s, a, rs, tail);
    case Opaque(_, _, _) => rs', tail' := OpaqueSafe(c, s, a, rs, tail);
    case Reread(_) => hide Refresh, Sound, AllOnLedger;
    case RestartGo(reachable) =>
      RestartSafe(c, s, reachable, rs, tail);
      hide Restarted, Sound, AllOnLedger;
    case RestartRust => rs', tail' := RustSafe(c, s, a, rs, tail);
    case RustCheckpoint(_) => rs', tail' := RustSafe(c, s, a, rs, tail);
  }

  /**
   * Fail-closed safety: over any steps at all (lost replies, retries, torn writes on either
   * side, restarts of either process, in any order) every transition Go holds as accepted is
   * on the ledger with its binding and payload, and the records only grow.
   */
  lemma {:induction false} RunIsSafe(c: Config, s: Sys, steps: seq<Step>, rs: seq<Record>, tail: seq<Bytes.Byte>)
    returns (rs': seq<Record>, tail': seq<Bytes.Byte>)
    requires Good(c.p.rust) && Safe(c, s, rs, tail)
    ensures Safe(c, RunAll(c, s, steps), rs', tail') && rs <= rs'
    decreases |steps|
  {
    hide Next, Safe;
    rs', tail' := rs, tail;
    if steps != [] {
      rs', tail' := NextSafe(c, s, steps[0], rs, tail);
      var r2, t2 := RunIsSafe(c, Next(c, s, steps[0]), steps[1..], rs', tail');
      rs', tail' := r2, t2;
    }
  }

  /** The system starts safe, with an empty ledger. */
  lemma {:induction false} StartIsSafe(c: Config)
    requires Good(c.p.rust)
    ensures Safe(c, Start(c.p), [], [])
  {
    hide Initial;
    var none: seq<Record> := [];
    assert none[..0] == none;
  }

  /** While the recorder is down, proposals and appends change nothing anywhere. */
  lemma {:induction false} DownChangesNothing(c: Config, s: Sys, a: Step)
    requires c.configured && !s.rust.up && (a.Admit? || a.Opaque?)
    ensures Next(c, s, a) == s
  {
    hide Normalize, Apply, Request, Clone, ValidAck, TransitionEvent, AppendEvent;
    if s.auth.Some? {
      match a
      case Admit(entrance, x, now, h) =>
        if Normalize(Entered(entrance, x)).Success? {
          var n := Normalize(Entered(entrance, x)).value;
          LostAppend(c.p, s.log, s.rust.node, TransitionEvent(n, Ref(Apply(c.p, s.auth.value.state, n))), now, Reaching(s.rust, h));
        }
      case Opaque(ev, now, h) => LostAppend(c.p, s.log, s.rust.node, ev, now, Reaching(s.rust, h));
    }
  }

  lemma {:induction false} LostAppend(p: Params, log: Log, n: Node, ev: Event, now: string, h: Hazards)
    requires h.trip.NotSent?
    ensures AppendEvent(p, true, log, n, ev, now, h) == (log, n, None)
  {
    hide Prepared;
  }

  /** Without a recorder, Go does not start again on a mirror that holds accepted history. */
  lemma {:induction false} NoStartOnMirrorAlone(c: Config, s: Sys, reachable: bool)
    requires !c.configured
    ensures Next(c, s, RestartGo(reachable)).auth.None? <==> MirrorTheory.HoldsAccepted(s.log.mirror)
  {
    hide Loaded, MirrorTheory.HoldsAccepted, Rebuild, Tracks, Fresh, Open, RecordsOf, HistoryOf, ProposeStep, AppendEvent, Do;
    MirrorTheory.LoadRefusesExactly(false, s.log.mirror);
    NothingTracks(c.p);
  }
}
