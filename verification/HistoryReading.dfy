/**
 * What Append answers, which recorder histories read as event histories, and what an event hash
 * covers, said of positions and fields.
 */
module HistoryReading {
  import opened Wrappers
  import opened Json
  import opened RecordCodec
  import opened Ledger
  import opened EventLog
  import opened EventLogTheory
  import MirrorTheory

  // ----- Append -----

  /** The recorder's answer binds this event: its id, its sequence, and a SHA-256. */
  predicate Binds(a: Ack, ev: Event) {
    a.id == Str(ev.id) && a.sequence == ev.sequence && IsSha256(a.hash)
  }

  /**
   * Append returns an event exactly if it has an id, its line was written, and the recorder took
   * it and its answer arrived and binds it; without a recorder, exactly if its kind needs none.
   */
  lemma {:induction false} AnswerExactly(p: Params, configured: bool, log: Log, n: Node, ev: Event, now: string, h: Hazards)
    requires ev.rustAck.None?
    ensures var (_, n', saved) := AppendEvent(p, configured, log, n, ev, now, h);
            var e := Prepared(log, p, ev, now);
            var (taken, answer) := AppendStep(p.rust, n, Evidence(e), h.disk);
            && (saved.Some? <==>
                  ev.id != "" && h.mirror.Written? &&
                  if configured then h.trip.Answered? && answer.Success? && Binds(answer.value, e)
                  else ev.kind != "transition.authority.accepted")
            && (saved.Some? ==>
                  saved.value == e.(rustAck := if configured then Some(RustAck(ev.id, e.sequence, answer.value.hash)) else Option.None))
            && n' == if configured && ev.id != "" && !h.trip.NotSent? then taken else n
  {
    hide AppendStep, Evidence, AppendLine, EventLog.Forward, Prepared;
    var e := Prepared(log, p, ev, now);
    PreparedKeeps(log, p, ev, now);
    if ev.id != "" {
      ForwardExactly(p, n, e, h);
    }
  }

  lemma {:induction false} PreparedKeeps(log: Log, p: Params, ev: Event, now: string)
    ensures var e := Prepared(log, p, ev, now);
            && e.id == ev.id && e.rustAck == ev.rustAck && e.sequence == log.sequence + 1
            && (RequiresAck(e) <==> ev.kind == "transition.authority.accepted")
  {
    hide HashEvent;
    assert |"transition"| == 10 && |ACCEPTED_KIND| == 29;
  }

  /** The recorder is asked unless the request is lost, and its answer is taken exactly if it arrives and binds the event. */
  lemma {:induction false} ForwardExactly(p: Params, n: Node, e: Event, h: Hazards)
    requires e.id != "" && e.sequence > 0
    ensures var (n', ack) := EventLog.Forward(p, n, e, h);
            var (taken, answer) := AppendStep(p.rust, n, Evidence(e), h.disk);
            && n' == (if h.trip.NotSent? then n else taken)
            && (ack.Some? <==> h.trip.Answered? && answer.Success? && Binds(answer.value, e))
            && (ack.Some? ==> ack == Some(RustAck(e.id, e.sequence, answer.value.hash)))
  {
    hide AppendStep, Evidence;
    var (taken, answer) := AppendStep(p.rust, n, Evidence(e), h.disk);
    var (n', ack) := EventLog.Forward(p, n, e, h);
    assert h.trip.Answered? && answer.Success? && Binds(answer.value, e) ==> ack.Some?;
  }

  /**
   * Reading the recorder's history: without a recorder there is none and nothing moves; with one it
   * succeeds exactly if the recorder is reached, opens, and its records read as an event history,
   * and then the log continues where that history ends.
   */
  lemma {:induction false} RefreshExactly(p: Params, configured: bool, log: Log, n: Node, reachable: bool)
    ensures var (log', events) := Refresh(p, configured, log, n, reachable);
            var rs := RecordsOf(p.rust, n.disk.ledger);
            && log'.mirror == log.mirror
            && (events.Some? <==>
                  !configured || (reachable && Open(p.rust, n.disk).Success? && rs.Success? && HistoryOf(p, rs.value).Some?))
            && (events.None? || !configured ==> log' == log)
            && (events.Some? ==> if configured then events == HistoryOf(p, rs.value) else events.value == [])
            && (events.Some? && configured ==>
                  log'.sequence == |events.value|
                  && log'.lastHash == if events.value == [] then GENESIS else events.value[|events.value| - 1].hash)
  {
    hide Open, RecordsOf, HistoryOf;
  }

  // ----- Valid histories -----

  /** The recorder acknowledged this event, at its own sequence. */
  predicate AckedAs(ev: Event) {
    ev.rustAck.Some? && ev.id != "" && ev.sequence > 0 && IsSha256(ev.rustAck.value.hash)
    && ev.rustAck == Some(RustAck(ev.id, ev.sequence, ev.rustAck.value.hash))
  }

  ghost predicate EventInPlace(p: Params, events: seq<Event>, i: nat)
    requires i < |events|
  {
    var ev := events[i];
    && ev.sequence == i + 1 && ev.prevHash == (if i == 0 then "genesis" else events[i - 1].hash) && ev.hash == HashEvent(p, ev)
    && (ev.kind == "transition.authority.accepted" ==> AckedAs(ev))
  }

  /** A history of events is valid exactly if every event is in its place. */
  lemma {:induction false} ValidExactly(p: Params, events: seq<Event>)
    ensures ValidHistory(p, events) <==> forall i: nat :: i < |events| ==> EventInPlace(p, events, i)
    decreases |events|
  {
    hide HashEvent;
    if events != [] {
      var m := |events| - 1;
      var before := events[..m];
      ValidExactly(p, before);
      assert events == before + [events[m]];
      ValidAppend(p, GENESIS, 1, before, [events[m]]);
      ValidOne(p, LastHash(before), m + 1, events[m]);
      hide ValidFrom, AckedAs, ValidAck;
      AckedIs(events[m]);
      assert EventInPlace(p, events, m) <==> ValidFrom(p, LastHash(before), m + 1, [events[m]]);
      forall i: nat | i < m ensures EventInPlace(p, events, i) <==> EventInPlace(p, before, i) {
      }
    }
  }

  lemma {:induction false} AckedIs(ev: Event)
    ensures ValidAck(ev) <==> AckedAs(ev)
  {
    hide IsSha256;
  }

  // ----- Histories of records -----

  /** The record at this place is chained to the one before it and carries the event of this place, chained to the event before it. */
  ghost predicate RecordInPlace(p: Params, rs: seq<Record>, i: nat)
    requires i < |rs|
  {
    var r, ev := rs[i], FromEvidence(p, rs[i].evidence);
    && r.sequence == i + 1 && r.prevHash == (if i == 0 then "genesis" else rs[i - 1].hash) && IsSha256(r.hash)
    && ev.Some? && ev.value.id != "" && ev.value.sequence == i + 1 && ev.value.hash == HashEvent(p, ev.value)
    && ev.value.prevHash == if i == 0 then "genesis" else HashAt(p, rs, i - 1)
  }

  /** The event hash that the record at this place carries. */
  function HashAt(p: Params, rs: seq<Record>, i: nat): string
    requires i < |rs|
  {
    var ev := FromEvidence(p, rs[i].evidence);
    if ev.Some? then ev.value.hash else ""
  }

  /** The event that the record at this place stands for: its evidence, with the record as its acknowledgement. */
  ghost predicate StandsFor(p: Params, rs: seq<Record>, events: seq<Event>, i: nat)
    requires i < |rs| && i < |events|
  {
    var ev := FromEvidence(p, rs[i].evidence);
    ev.Some? && events[i] == ev.value.(rustAck := Some(RustAck(ev.value.id, i + 1, rs[i].hash)))
  }

  /** A recorder history reads exactly if every record is in its place, and then as the events its records stand for. */
  lemma {:induction false} HistoryExactly(p: Params, rs: seq<Record>)
    ensures HistoryOf(p, rs).Some? <==> forall i: nat :: i < |rs| ==> RecordInPlace(p, rs, i)
    ensures HistoryOf(p, rs).Some? ==>
              |HistoryOf(p, rs).value| == |rs| && forall i: nat :: i < |rs| ==> StandsFor(p, rs, HistoryOf(p, rs).value, i)
    decreases |rs|
  {
    hide FromEvidence, HashEvent, HistoryOf, NextEvent, RecordInPlace;
    if rs == [] {
      assert HistoryOf(p, rs) == Some([]) by { NoRecords(p, rs); }
    } else {
      var m := |rs| - 1;
      var before := rs[..m];
      HistoryExactly(p, before);
      assert rs == before + [rs[m]];
      HistoryAppend(p, before, rs[m]);
      if HistoryOf(p, before).Some? {
        NextExactly(p, before, HistoryOf(p, before).value, rs[m]);
        StandsAll(p, before, HistoryOf(p, before).value, rs);
      }
      forall i: nat | i < m ensures RecordInPlace(p, rs, i) <==> RecordInPlace(p, before, i) {
        InPlacePrefix(p, rs, m, i);
      }
    }
  }

  lemma {:induction false} NoRecords(p: Params, rs: seq<Record>)
    requires rs == []
    ensures HistoryOf(p, rs) == Some([])
  {
  }

  lemma {:induction false} InPlacePrefix(p: Params, rs: seq<Record>, m: nat, i: nat)
    requires i < m < |rs|
    ensures RecordInPlace(p, rs, i) <==> RecordInPlace(p, rs[..m], i)
  {
    hide FromEvidence, HashEvent;
    assert i > 0 ==> rs[..m][i - 1] == rs[i - 1];
  }

  lemma {:induction false} StandsAll(p: Params, rs: seq<Record>, events: seq<Event>, more: seq<Record>)
    requires rs <= more && |events| == |rs| && forall i: nat :: i < |rs| ==> StandsFor(p, rs, events, i)
    ensures forall ev: Event, i: nat :: i < |rs| ==> StandsFor(p, more, events + [ev], i)
  {
    hide FromEvidence;
    forall ev: Event, i: nat | i < |rs| ensures StandsFor(p, more, events + [ev], i) {
      assert StandsFor(p, rs, events, i) && more[i] == rs[i];
    }
  }

  /** The next record reads as the next event exactly if it is in its place. */
  lemma {:induction false} NextExactly(p: Params, rs: seq<Record>, events: seq<Event>, r: Record)
    requires |events| == |rs| && forall i: nat :: i < |rs| ==> StandsFor(p, rs, events, i)
    ensures var ev := NextEvent(p, rs, events, r);
            && (ev.Some? <==> RecordInPlace(p, rs + [r], |rs|))
            && (ev.Some? ==> StandsFor(p, rs + [r], events + [ev.value], |rs|))
  {
    hide FromEvidence;
    var all := rs + [r];
    assert all[|rs|] == r;
    if rs != [] {
      assert StandsFor(p, rs, events, |rs| - 1);
      assert all[|rs| - 1] == rs[|rs| - 1];
    }
    var back := FromEvidence(p, r.evidence);
    if back.Some? {
      MirrorTheory.HashIgnoresAck(p, back.value, Some(RustAck(back.value.id, r.sequence, r.hash)));
    }
    hide HashEvent;
  }

  // ----- What an event hash covers -----

  /** Two different events whose JSON hashes alike. */
  ghost predicate EventCollision(p: Params) {
    exists a, b :: a != b && p.eventHash(a) == p.eventHash(b)
  }

  /** An event without what its hash leaves out: the hash itself and the acknowledgement. */
  function Bare(ev: Event): Event {
    ev.(hash := "", rustAck := Option.None)
  }

  /** The hash covers every other member of the event, and nothing more. */
  lemma {:induction false} HashCovers(p: Params, a: Event, b: Event)
    ensures Bare(a) == Bare(b) ==> HashEvent(p, a) == HashEvent(p, b)
    ensures HashEvent(p, a) == HashEvent(p, b) ==> Bare(a) == Bare(b) || EventCollision(p)
  {
  }

  /** The same, event by event; with hashes, not acknowledgements. */
  ghost predicate SameEvents(a: seq<Event>, b: seq<Event>) {
    |a| == |b| && forall i :: 0 <= i < |a| ==> a[i].(rustAck := Option.None) == b[i].(rustAck := Option.None)
  }

  /** The last hash binds a whole history: two valid histories that end in one hash are the same, or two events hash alike. */
  lemma {:induction false} LastHashBinds(p: Params, a: seq<Event>, b: seq<Event>)
    requires ValidHistory(p, a) && ValidHistory(p, b) && (a == [] <==> b == []) && LastHash(a) == LastHash(b)
    ensures SameEvents(a, b) || EventCollision(p)
    decreases |a|
  {
    hide HashEvent, EventCollision, ValidFrom;
    if a != [] {
      var m, k := |a| - 1, |b| - 1;
      LastOf(p, a);
      LastOf(p, b);
      HashCovers(p, a[m], b[k]);
      if !EventCollision(p) {
        assert Bare(a[m]) == Bare(b[k]);
        LastHashBinds(p, a[..m], b[..k]);
      }
    }
  }

  lemma {:induction false} LastOf(p: Params, events: seq<Event>)
    requires events != [] && ValidHistory(p, events)
    ensures var m := |events| - 1;
            && ValidHistory(p, events[..m]) && events[m].sequence == m + 1 && events[m].hash == HashEvent(p, events[m])
            && events[m].prevHash == LastHash(events[..m])
  {
    var m := |events| - 1;
    assert events == events[..m] + [events[m]];
    ValidAppend(p, GENESIS, 1, events[..m], [events[m]]);
    ValidOne(p, LastHash(events[..m]), m + 1, events[m]);
    hide ValidFrom, HashEvent;
  }
}
