/**
 * What the log's mirror file holds: over any run of appends its readable lines only grow and are
 * the events that were returned, in order and chained, unless a line was torn; and without a
 * recorder, loading it again gives back the live place in the chain.
 */
module MirrorTheory {
  import opened Wrappers
  import opened Json
  import opened RecordCodec
  import opened Ledger
  import opened EventLog
  import EventLogTheory
  import LogService

  /** The events of the lines that read. */
  function Lines(mirror: seq<MirrorLine>): seq<Event> {
    if mirror == [] then [] else
      Lines(mirror[..|mirror| - 1]) + if mirror[|mirror| - 1].Whole? then [mirror[|mirror| - 1].ev] else []
  }

  /** The file ends inside a line. */
  predicate EndsTorn(mirror: seq<MirrorLine>) {
    mirror != [] && mirror[|mirror| - 1].TornLine?
  }

  datatype Attempt = Attempt(ev: Event, now: string, h: Hazards)

  /** A run of appends: the log, the recorder, and the events returned. */
  ghost function Appends(p: Params, configured: bool, log: Log, n: Node, tries: seq<Attempt>): (Log, Node, seq<Event>)
    decreases |tries|
  {
    if tries == [] then (log, n, []) else
      var t := tries[|tries| - 1];
      var (log1, n1, before) := Appends(p, configured, log, n, tries[..|tries| - 1]);
      var (log', n', saved) := AppendEvent(p, configured, log1, n1, t.ev, t.now, t.h);
      (log', n', before + if saved.Some? then [saved.value] else [])
  }

  lemma {:induction false} LinesOne(mirror: seq<MirrorLine>, x: MirrorLine)
    ensures Lines(mirror + [x]) == Lines(mirror) + if x.Whole? then [x.ev] else []
  {
    assert (mirror + [x])[..|mirror|] == mirror;
  }

  /** A line written after others: they all stay, and it reads unless the file ended inside a line. */
  lemma {:induction false} LineWritten(mirror: seq<MirrorLine>, x: MirrorLine)
    requires !x.Unreadable?
    ensures var after := AppendLine(mirror, x);
            && Lines(after) == Lines(mirror) + (if x.Whole? && !EndsTorn(mirror) then [x.ev] else [])
            && (EndsTorn(after) <==> x.TornLine?)
            && |after| == |mirror| + (if EndsTorn(mirror) then 0 else 1)
            && (forall i :: 0 <= i < |mirror| && !mirror[i].TornLine? ==> i < |after| && after[i] == mirror[i])
  {
    if EndsTorn(mirror) {
      var m := |mirror| - 1;
      LinesOne(mirror[..m], if x.TornLine? then TornLine else MirrorLine.Unreadable);
    } else {
      LinesOne(mirror, x);
    }
  }

  /**
   * One append under any hazard: every line that read still reads, in place; the event returned,
   * if any, reads as the next one exactly if the file did not end inside a line.
   */
  lemma {:induction false} AppendLines(p: Params, configured: bool, log: Log, n: Node, ev: Event, now: string, h: Hazards)
    ensures var (log', _, saved) := AppendEvent(p, configured, log, n, ev, now, h);
            && Lines(log'.mirror) == Lines(log.mirror) + (if saved.Some? && !EndsTorn(log.mirror) then [saved.value] else [])
            && (saved.Some? ==> h.mirror.Written?)
            && (!h.mirror.Torn? && !EndsTorn(log.mirror) ==> !EndsTorn(log'.mirror))
  {
    hide Prepared, EventLog.Forward, AppendLine;
    var e := Prepared(log, p, ev, now);
    LineWritten(log.mirror, Whole(e));
    LineWritten(log.mirror, Whole(e.(rustAck := EventLog.Forward(p, n, e, h).1)));
    LineWritten(log.mirror, TornLine);
    assert Lines(log.mirror) + [] == Lines(log.mirror);
  }

  /** No write in the run is torn. */
  predicate Untorn(tries: seq<Attempt>) {
    forall i :: 0 <= i < |tries| ==> !tries[i].h.mirror.Torn?
  }

  /** Over any run the readable lines only grow; if no line is torn they are exactly the returned events, in order. */
  lemma {:induction false} MirrorHoldsReturned(p: Params, configured: bool, log: Log, n: Node, tries: seq<Attempt>)
    ensures var (log', _, returned) := Appends(p, configured, log, n, tries);
            && Lines(log.mirror) <= Lines(log'.mirror)
            && (Untorn(tries) && !EndsTorn(log.mirror) ==> Lines(log'.mirror) == Lines(log.mirror) + returned && !EndsTorn(log'.mirror))
    decreases |tries|
  {
    hide AppendEvent, Lines;
    if tries != [] {
      var m := |tries| - 1;
      MirrorHoldsReturned(p, configured, log, n, tries[..m]);
      var (log1, n1, _) := Appends(p, configured, log, n, tries[..m]);
      AppendLines(p, configured, log1, n1, tries[m].ev, tries[m].now, tries[m].h);
    }
  }

  // ----- The events returned -----

  /** What a returned event is: the one that was given, with the defaults filled in, next in the chain, hashed, and validly acknowledged where that is required. */
  lemma {:induction false} ReturnedEvent(p: Params, configured: bool, log: Log, n: Node, ev: Event, now: string, h: Hazards)
    ensures var (log', _, saved) := AppendEvent(p, configured, log, n, ev, now, h);
            if saved.None? then log'.sequence == log.sequence && log'.lastHash == log.lastHash
            else
              var e := saved.value;
              && e.(createdAt := "", kind := "", status := "", sequence := 0, hash := "", prevHash := "", rustAck := Option.None)
                 == ev.(createdAt := "", kind := "", status := "", sequence := 0, hash := "", prevHash := "", rustAck := Option.None)
              && e.createdAt in {ev.createdAt, now} && (ev.createdAt != "" ==> e.createdAt == ev.createdAt)
              && (if ev.kind == "" then e.kind == "transition" else e.kind == ev.kind)
              && (if ev.status == "" then e.status == "accepted" else e.status == ev.status)
              && e.sequence == log.sequence + 1 == log'.sequence && e.prevHash == log.lastHash && e.hash == HashEvent(p, e) == log'.lastHash
              && (RequiresAck(e) ==> ValidAck(e) && configured) && e.id != ""
  {
    hide EventLog.Forward, AppendLine;
    var e := Prepared(log, p, ev, now);
    assert HashEvent(p, e) == e.hash;
    assert e.sequence > 0;
    LogService.ForwardBinds(p, n, e, h);
    HashIgnoresAck(p, e, EventLog.Forward(p, n, e, h).1);
  }

  lemma {:induction false} HashIgnoresAck(p: Params, e: Event, ack: Option<RustAck>)
    ensures HashEvent(p, e.(rustAck := ack)) == HashEvent(p, e)
  {
  }

  /** The events returned by a run form one chain, from the place the log had to the place it has. */
  lemma {:induction false} ReturnedIsChained(p: Params, configured: bool, log: Log, n: Node, tries: seq<Attempt>)
    ensures var (log', _, returned) := Appends(p, configured, log, n, tries);
            && ValidFrom(p, log.lastHash, log.sequence + 1, returned)
            && log'.sequence == log.sequence + |returned|
            && log'.lastHash == if returned == [] then log.lastHash else returned[|returned| - 1].hash
    decreases |tries|
  {
    hide AppendEvent;
    if tries != [] {
      var m := |tries| - 1;
      ReturnedIsChained(p, configured, log, n, tries[..m]);
      var (log1, n1, before) := Appends(p, configured, log, n, tries[..m]);
      ReturnedEvent(p, configured, log1, n1, tries[m].ev, tries[m].now, tries[m].h);
      assert before + [] == before;
      var saved := AppendEvent(p, configured, log1, n1, tries[m].ev, tries[m].now, tries[m].h).2;
      if saved.Some? {
        EventLogTheory.ValidAppend(p, log.lastHash, log.sequence + 1, before, [saved.value]);
        EventLogTheory.ValidOne(p, log1.lastHash, log1.sequence + 1, saved.value);
      }
    }
  }

  // ----- Loading the mirror again -----

  lemma {:induction false} LoadedOne(configured: bool, mirror: seq<MirrorLine>, x: MirrorLine)
    requires Loaded(configured, mirror).Some?
    ensures var before := Loaded(configured, mirror).value;
            Loaded(configured, mirror + [x]) ==
            if !x.Whole? then Some(before.(mirror := mirror + [x]))
            else if !configured && RequiresAck(x.ev) then None
            else Some(Log(if x.ev.sequence > before.sequence then x.ev.sequence else before.sequence,
                          if x.ev.hash != "" then x.ev.hash else before.lastHash, mirror + [x]))
  {
    assert (mirror + [x])[..|mirror|] == mirror;
  }

  /** Event hashes are not empty, as hex digests are not. */
  ghost predicate Hashes(p: Params) {
    forall e :: p.eventHash(e) != ""
  }

  /**
   * Without a recorder: if loading the mirror gave the live log before an append, it does after
   * it exactly if the append did not write an event onto a line that was torn.
   */
  lemma {:induction false} LoadedExactly(p: Params, log: Log, n: Node, ev: Event, now: string, h: Hazards)
    requires Hashes(p) && Loaded(false, log.mirror) == Some(log)
    ensures var (log', _, saved) := AppendEvent(p, false, log, n, ev, now, h);
            Loaded(false, log'.mirror) == Some(log') <==> !(saved.Some? && EndsTorn(log.mirror))
  {
    hide Prepared, Loaded;
    ReturnedEvent(p, false, log, n, ev, now, h);
    var e := Prepared(log, p, ev, now);
    if EndsTorn(log.mirror) {
      var m := |log.mirror| - 1;
      assert log.mirror == log.mirror[..m] + [TornLine];
      TornIsSkipped(log, m);
      LoadedOne(false, log.mirror[..m], TornLine);
      LoadedOne(false, log.mirror[..m], MirrorLine.Unreadable);
    } else {
      LoadedOne(false, log.mirror, Whole(e));
      LoadedOne(false, log.mirror, TornLine);
    }
  }

  lemma {:induction false} TornIsSkipped(log: Log, m: nat)
    requires EndsTorn(log.mirror) && m == |log.mirror| - 1 && Loaded(false, log.mirror) == Some(log)
    ensures Loaded(false, log.mirror[..m]) == Some(log.(mirror := log.mirror[..m]))
  {
    LoadedKeepsMirror(false, log.mirror[..m]);
  }

  lemma {:induction false} LoadedKeepsMirror(configured: bool, mirror: seq<MirrorLine>)
    ensures Loaded(configured, mirror).Some? ==> Loaded(configured, mirror).value.mirror == mirror
  {
  }

  /** Over any run from a new log, without a recorder and without torn lines, loading the mirror gives back the live log: a restart continues the chain. */
  lemma {:induction false} LoadGivesBackTheLog(p: Params, n: Node, tries: seq<Attempt>)
    requires Hashes(p) && Untorn(tries)
    ensures var (log, _, returned) := Appends(p, false, NewLog, n, tries);
            Loaded(false, log.mirror) == Some(log) && Lines(log.mirror) == returned && ValidHistory(p, returned)
    decreases |tries|
  {
    hide AppendEvent, Loaded, Lines;
    MirrorHoldsReturned(p, false, NewLog, n, tries);
    ReturnedIsChained(p, false, NewLog, n, tries);
    NewLogIsEmpty();
    if tries != [] {
      var m := |tries| - 1;
      LoadGivesBackTheLog(p, n, tries[..m]);
      MirrorHoldsReturned(p, false, NewLog, n, tries[..m]);
      var (log1, n1, _) := Appends(p, false, NewLog, n, tries[..m]);
      LoadedExactly(p, log1, n1, tries[m].ev, tries[m].now, tries[m].h);
    }
  }

  lemma {:induction false} NewLogIsEmpty()
    ensures Loaded(false, NewLog.mirror) == Some(NewLog) && Lines(NewLog.mirror) == [] && !EndsTorn(NewLog.mirror)
  {
  }

  /** An accepted event stands in the mirror. */
  ghost predicate HoldsAccepted(mirror: seq<MirrorLine>) {
    exists x :: x in mirror && x.Whole? && x.ev.kind == "transition.authority.accepted"
  }

  /** Loading refuses exactly when accepted history stands in the mirror and no recorder is configured. */
  lemma {:induction false} LoadRefusesExactly(configured: bool, mirror: seq<MirrorLine>)
    ensures Loaded(configured, mirror).None? <==> !configured && HoldsAccepted(mirror)
    decreases |mirror|
  {
    if mirror != [] {
      var m := |mirror| - 1;
      LoadRefusesExactly(configured, mirror[..m]);
      assert mirror == mirror[..m] + [mirror[m]];
    }
  }
}
