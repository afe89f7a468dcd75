/**
 * Exactly when a restart gives back the live state after an append that may have gone wrong in
 * any way, and runs in which whatever an append left behind is mended before the next one.
 */
module Restarts {
  import opened Wrappers
  import opened Json
  import Bytes
  import opened RecordCodec
  import opened Ledger
  import opened LedgerTheory
  import opened EventLog
  import opened EventLogTheory
  import opened Transition
  import opened TransitionTheory
  import opened Protocol
  import opened Safety
  import opened Recovery
  import opened LostReplies
  import LogService

  // ----- What one append leaves on disk -----

  /** Nothing of the event reaches the disk: it is not sent, its id is taken or empty, or the write does not begin. */
  ghost predicate Stays(rs: seq<Record>, e: Event, h: Hazards) {
    h.trip.NotSent? || !Unbound(rs, e.id) || h.disk.OpenFails? || h.disk == Cut(0)
  }

  ghost function LineOf(p: Params, n: Node, e: Event): seq<Bytes.Byte> {
    Line(p.rust, NextRecord(p.rust, n.accepted, Evidence(e)))
  }

  /** The write reaches its last byte; at most its sync fails. */
  ghost predicate Whole(p: Params, n: Node, e: Event, h: Hazards) {
    h.disk.NoFault? || (h.disk.Cut? && |LineOf(p, n, e)| <= h.disk.written)
  }

  /** Nothing goes wrong. */
  predicate Answers(h: Hazards) {
    h.trip.Answered? && h.disk.NoFault? && h.mirror.Written?
  }

  /** An id is known to the recorder exactly if it is bound. */
  lemma {:induction false} DedupIsBound(rs: seq<Record>, e: Event)
    requires e.id != ""
    ensures Dedup(rs, Evidence(e)).None? <==> Unbound(rs, e.id)
  {
    EvidenceIds(e);
    hide Evidence;
  }

  lemma {:induction false} FaultKeepsMemory(w: World, n: Node, evidence: Value, fault: Fault)
    ensures !fault.NoFault? ==> AppendStep(w, n, evidence, fault).0.accepted == n.accepted
  {
    hide Open, RecordsOf, Dedup, NextRecord, Line;
  }

  /** The recorder's own answer to an append, whatever the disk does. */
  lemma {:induction false} StepOutcome(p: Params, n: Node, rs: seq<Record>, e: Event, h: Hazards)
    returns (rs': seq<Record>, tail': seq<Bytes.Byte>)
    requires Good(p.rust) && Sound(p.rust, n, rs, []) && Clean(n, rs, []) && e.id != "" && !h.trip.NotSent?
    ensures var (n', answer) := AppendStep(p.rust, n, Evidence(e), h.disk);
            && Sound(p.rust, n', rs', tail') && n'.disk.dir == n.disk.dir
            && (if Stays(rs, e, h) then
                  rs' == rs && tail' == [] && n'.accepted == n.accepted
                  && (answer.Success? ==> answer.value.sequence <= |rs|)
                else if Whole(p, n, e, h) then
                  var r := NextRecord(p.rust, n.accepted, Evidence(e));
                  rs' == rs + [r] && tail' == [] && (h.disk.NoFault? ==> Clean(n', rs', []))
                  && (answer.Success? <==> h.disk.NoFault?)
                  && (answer.Success? ==> answer.value == Ack(Str(e.id), |rs| + 1, r.hash))
                else
                  rs' == rs && tail' != [] && answer.Failure?)
  {
    hide Evidence, AppendStep, ReplayFrom, Stored, UniqueIds, AllBound, Line, Unbound, Sound;
    AppendSound(p.rust, n, rs, [], Evidence(e), h.disk);
    EvidenceIds(e);
    DedupIsBound(rs, e);
    FaultKeepsMemory(p.rust, n, Evidence(e), h.disk);
    LineNotEmpty(p.rust, NextRecord(p.rust, n.accepted, Evidence(e)));
    var after := AfterAppend(p.rust, n, rs, [], Evidence(e), h.disk);
    rs', tail' := after.0, after.1;
    if Dedup(rs, Evidence(e)).Some? {
      DedupIsOld(p.rust, n, rs, Evidence(e));
    }
  }

  lemma {:induction false} LineNotEmpty(w: World, r: Record)
    ensures |Line(w, r)| > 0
  {
  }

  /** A known id is answered with the sequence of an old record. */
  lemma {:induction false} DedupIsOld(w: World, n: Node, rs: seq<Record>, evidence: Value)
    requires Sound(w, n, rs, []) && Dedup(rs, evidence).Some?
    ensures Dedup(rs, evidence).value.Success? ==> Dedup(rs, evidence).value.value.sequence <= |rs|
  {
    hide ReplayFrom, Stored, UniqueIds, AllBound, EvidenceId, SameSemantic;
    var i := Find(rs, EvidenceId(evidence).value);
    RecordSequence(w, rs, i);
  }

  /** Posting an event that is the next one: what it leaves on disk, and whether it is acknowledged. */
  lemma {:induction false} ForwardOutcome(p: Params, n: Node, rs: seq<Record>, e: Event, h: Hazards)
    returns (rs': seq<Record>, tail': seq<Bytes.Byte>)
    requires Good(p.rust) && Sound(p.rust, n, rs, []) && Clean(n, rs, []) && e.id != "" && e.sequence == |rs| + 1
    ensures var (n', ack) := EventLog.Forward(p, n, e, h);
            && Sound(p.rust, n', rs', tail') && n'.disk.dir == n.disk.dir
            && (if Stays(rs, e, h) then rs' == rs && tail' == [] && n'.accepted == n.accepted && ack.None?
                else if Whole(p, n, e, h) then
                  var r := NextRecord(p.rust, n.accepted, Evidence(e));
                  rs' == rs + [r] && tail' == [] && (h.disk.NoFault? ==> Clean(n', rs', []))
                  && ack == if h.trip.Answered? && h.disk.NoFault? then Some(RustAck(e.id, |rs| + 1, r.hash)) else None
                else rs' == rs && tail' != [] && ack.None?)
  {
    hide Evidence, AppendStep, Sound, Clean, Unbound, NextRecord, Line, IsSha256, LineOf;
    rs', tail' := rs, [];
    if !h.trip.NotSent? {
      rs', tail' := StepOutcome(p, n, rs, e, h);
      NextIsHashed(p.rust, n.accepted, Evidence(e));
      var answer := AppendStep(p.rust, n, Evidence(e), h.disk).1;
      assert Stays(rs, e, h) && answer.Success? ==> !AckMatches(e, answer.value);
      assert !Stays(rs, e, h) && answer.Success? ==> AckMatches(e, answer.value);
    }
  }

  lemma {:induction false} NextIsHashed(w: World, s: State, evidence: Value)
    requires Good(w)
    ensures IsSha256(NextRecord(w, s, evidence).hash)
  {
    hide IsSha256;
  }

  /** Which log a failed append leaves: the one it had, but for the mirror. */
  ghost predicate SamePlace(a: Log, b: Log) {
    a.sequence == b.sequence && a.lastHash == b.lastHash
  }

  /** One append on aligned parties under any hazard. */
  lemma {:induction false} AppendOutcome(p: Params, log: Log, n: Node, rs: seq<Record>, es: seq<Event>, ev: Event, now: string, h: Hazards)
    returns (rs': seq<Record>, tail': seq<Bytes.Byte>)
    requires Good(p.rust) && Readable(p, n, rs, es) && Aligned(log, rs, es)
    ensures var e := Prepared(log, p, ev, now);
            var (log', n', saved) := AppendEvent(p, true, log, n, ev, now, h);
            && Sound(p.rust, n', rs', tail') && n'.disk.dir == n.disk.dir
            && (if Stays(rs, e, h) then rs' == rs && tail' == [] && n'.accepted == n.accepted && saved.None?
                else if Whole(p, n, e, h) then
                  rs' == rs + [NextRecord(p.rust, n.accepted, Evidence(e))] && tail' == []
                  && (h.disk.NoFault? ==> Clean(n', rs', []))
                  && saved == if Answers(h) then Some(SavedEvent(p, n, e)) else None
                else rs' == rs && tail' != [] && saved.None?)
            && (if saved.None? then SamePlace(log', log) else log'.sequence == |rs'| && log'.lastHash == saved.value.hash)
  {
    PreparedFields(log, p, ev, now);
    rs', tail' := rs, [];
    var e := Prepared(log, p, ev, now);
    if ev.id != "" {
      rs', tail' := ForwardOutcome(p, n, rs, e, h);
      AppendForwards(p, log, n, ev, now, h);
    }
    hide Prepared, EventLog.Forward, Sound, HistoryOf, Clean, NextRecord, Evidence, LineOf, AppendLine;
    if ev.id == "" {
      assert AppendEvent(p, true, log, n, ev, now, h) == (log, n, Option<Event>.None);
    }
  }

  // ----- What a restart makes of it -----

  /** A restart that reaches the recorder gives what its records rebuild to, and nothing if they do not read. */
  lemma {:induction false} RestartReads(c: Config, s: Sys, rs: seq<Record>, tail: seq<Bytes.Byte>)
    requires c.configured && Good(c.p.rust) && s.rust.up
    requires Sound(c.p.rust, s.rust.node, rs, tail) && Intact(s.rust.node.disk.dir)
    ensures var t := Restarted(c, s, true);
            && t.auth == (if tail != [] || HistoryOf(c.p, rs).None? then None else Rebuild(c.p, HistoryOf(c.p, rs).value))
            && t.rust == s.rust
            && (t.auth.Some? ==> Aligned(t.log, rs, HistoryOf(c.p, rs).value))
  {
    AlwaysLoads(s.log.mirror);
    OpenSound(c.p.rust, s.rust.node, rs, tail);
    ReadStored(c.p.rust, s.rust.node.disk.ledger, rs, tail);
    if HistoryOf(c.p, rs).Some? {
      HistoryLength(c.p, rs);
    }
    hide HistoryOf, RecordsOf, Open, ReplayFrom, Loaded, Sound, Rebuild;
  }

  /** The event and its reloaded form have different hashes unless they are the same: no collision of this one pair. */
  ghost predicate Telling(p: Params, e: Event) {
    ReadsBack(p, e) ==> Stable(p, e.details)
  }

  /** The records with one more event on them, read back. */
  lemma {:induction false} OneMoreReads(p: Params, n: Node, log: Log, rs: seq<Record>, es: seq<Event>, ev: Event, now: string)
    requires Good(p.rust) && Readable(p, n, rs, es) && Aligned(log, rs, es) && ev.id != "" && Telling(p, Prepared(log, p, ev, now))
    ensures var e := Prepared(log, p, ev, now);
            HistoryOf(p, rs + [NextRecord(p.rust, n.accepted, Evidence(e))]) ==
            if Stable(p, e.details) then Some(es + [SavedEvent(p, n, e)]) else None
  {
    PreparedFields(log, p, ev, now);
    HistoryLength(p, rs);
    CleanReplays(p.rust, n, rs);
    ReadableExactlyWhen(p, rs, log, ev, now, n.accepted);
    var r := NextRecord(p.rust, n.accepted, Evidence(Prepared(log, p, ev, now)));
    assert (rs + [r])[|rs|] == r;
    hide Prepared, HistoryOf, Sound, Clean, NextRecord, Evidence, Replay, Stable, ReadsBack, Reloaded;
  }

  /** What an append's event must meet for a restart to give the live state after it. */
  ghost predicate Survives(p: Params, n: Node, rs: seq<Record>, e: Event, h: Hazards) {
    Stays(rs, e, h) || (Whole(p, n, e, h) && Stable(p, e.details) && (e.kind != ACCEPTED_KIND || Answers(h)))
  }

  /** The event that a step posts, as the log prepares it. */
  ghost function Posted(c: Config, s: Sys, a: Step): Option<Event>
    requires s.auth.Some?
  {
    match a
    case Admit(entrance, proposal, now, _) =>
      var x := Proposed(c, s.auth.value, Entered(entrance, proposal));
      if x.None? then None else Some(Prepared(s.log, c.p, ProposedEvent(c.p, s.auth.value, x.value), now))
    case Opaque(ev, now, _) => Some(Prepared(s.log, c.p, ev, now))
    case _ => None
  }

  /** A history with one more event of another kind rebuilds to the same authority. */
  lemma {:induction false} OpaqueRebuilds(p: Params, n: Node, log: Log, rs: seq<Record>, es: seq<Event>, ev: Event, now: string)
    requires ev.kind != ACCEPTED_KIND && Rebuild(p, es).Some?
    requires HistoryOf(p, rs) == Some(es + [SavedEvent(p, n, Prepared(log, p, ev, now))])
    ensures Rebuild(p, es + [SavedEvent(p, n, Prepared(log, p, ev, now))]) == Rebuild(p, es)
  {
    LogService.PreparedKind(log, p, ev, now);
    var saved := SavedEvent(p, n, Prepared(log, p, ev, now));
    assert saved.kind != ACCEPTED_KIND;
    HistoryIsValid(p, rs);
    hide Rebuild, HistoryOf, Prepared, SavedEvent, ValidHistory;
    RebuildNext(p, es, saved);
  }

  /** The step for an opaque event. */
  lemma {:induction false} OpaqueExactly(c: Config, s: Sys, ev: Event, now: string, h: Hazards, rs: seq<Record>, es: seq<Event>)
    requires c.configured && Good(c.p.rust) && InStep(c, s, rs, es) && s.auth.Some? && ev.kind != ACCEPTED_KIND
    requires Telling(c.p, Prepared(s.log, c.p, ev, now))
    ensures var t := Next(c, s, Opaque(ev, now, h));
            Restarted(c, t, true).auth == t.auth <==> Survives(c.p, s.rust.node, rs, Prepared(s.log, c.p, ev, now), h)
  {
    var e, n := Prepared(s.log, c.p, ev, now), s.rust.node;
    LogService.PreparedKind(s.log, c.p, ev, now);
    PreparedFields(s.log, c.p, ev, now);
    hide Prepared, AppendEvent, Sound, HistoryOf, NextRecord, Evidence, LineOf, Rebuild, Stable, Restarted, ReadsBack, Intact, SavedEvent, Unbound;
    var rs', tail' := AppendOutcome(c.p, s.log, n, rs, es, ev, now, h);
    var t := Next(c, s, Opaque(ev, now, h));
    assert t.auth == s.auth == Rebuild(c.p, es);
    RestartReads(c, t, rs', tail');
    if !Stays(rs, e, h) && Whole(c.p, n, e, h) {
      UnboundNamed(rs, e.id);
      OneMoreReads(c.p, n, s.log, rs, es, ev, now);
      if Stable(c.p, e.details) {
        OpaqueRebuilds(c.p, n, s.log, rs', es, ev, now);
      }
    }
  }

  lemma {:induction false} UnboundNamed(rs: seq<Record>, id: string)
    requires Unbound(rs, id)
    ensures id != ""
  {
  }

  /** The step for a proposal that reaches its append. */
  lemma {:induction false} AdmitExactly(c: Config, s: Sys, entrance: Entrance, proposal: Proposal, now: string, h: Hazards,
                                        rs: seq<Record>, es: seq<Event>)
    requires c.configured && Good(c.p.rust) && InStep(c, s, rs, es) && s.auth.Some?
    requires Proposed(c, s.auth.value, Entered(entrance, proposal)).Some?
    requires Telling(c.p, Posted(c, s, Admit(entrance, proposal, now, h)).value)
    ensures var t := Next(c, s, Admit(entrance, proposal, now, h));
            var e := Posted(c, s, Admit(entrance, proposal, now, h)).value;
            Restarted(c, t, true).auth == t.auth <==> Survives(c.p, s.rust.node, rs, e, h)
  {
    var a, n, asked := s.auth.value, s.rust.node, Entered(entrance, proposal);
    var x := Proposed(c, a, asked).value;
    var ev := ProposedEvent(c.p, a, x);
    var e := Prepared(s.log, c.p, ev, now);
    hide Prepared, AppendEvent, Sound, HistoryOf, NextRecord, Evidence, LineOf, Rebuild, Stable, Restarted, ReadsBack, Intact, SavedEvent, Unbound,
         ProposeStep, ProposedEvent, Admitted, ValidAck, Normalize, Entered;
    AdmittedKind(c.p, a, x, s.log, now);
    var rs', tail' := AppendOutcome(c.p, s.log, n, rs, es, ev, now, h);
    ProposeCases(c, a, s.log, n, asked, now, h);
    var t := Next(c, s, Admit(entrance, proposal, now, h));
    RestartReads(c, t, rs', tail');
    if !Stays(rs, e, h) && Whole(c.p, n, e, h) {
      UnboundNamed(rs, e.id);
      OneMoreReads(c.p, n, s.log, rs, es, ev, now);
      if Stable(c.p, e.details) {
        var saved := SavedEvent(c.p, n, e);
        AdmissionRebuilds(c, a, x, asked, s.log, n, now, rs', es, saved);
        AdmittedIsNew(c.p, a, x, saved);
      }
    }
  }

  lemma {:induction false} AdmittedKind(p: Params, a: Auth, x: Normal, log: Log, now: string)
    ensures var e := Prepared(log, p, ProposedEvent(p, a, x), now);
            e.kind == ACCEPTED_KIND && e.id == ProposedEvent(p, a, x).id == x.transitionID
  {
    LogService.PreparedKind(log, p, ProposedEvent(p, a, x), now);
    PreparedFields(log, p, ProposedEvent(p, a, x), now);
    hide Prepared, Apply, Payload;
  }

  lemma {:induction false} AdmittedIsNew(p: Params, a: Auth, x: Normal, ev: Event)
    ensures x.transitionID in Admitted(p, a, x, ev).accepted
  {
    hide Apply, Request;
  }

  /**
   * Exactly when a restart right after one append gives the live authority, whatever went wrong
   * with the append: nothing of it reached the disk, or its whole line did, its payload reads
   * back, and if it was an admission then nothing went wrong at all.
   */
  lemma {:induction false} RestartExactlyAfterAppend(c: Config, s: Sys, a: Step, rs: seq<Record>, es: seq<Event>)
    requires c.configured && Good(c.p.rust) && InStep(c, s, rs, es) && s.auth.Some?
    requires (a.Admit? || a.Opaque?) && Legal(a)
    requires Posted(c, s, a).Some? ==> Telling(c.p, Posted(c, s, a).value)
    ensures var t := Next(c, s, a);
            Restarted(c, t, true).auth == t.auth <==>
            (Posted(c, s, a).Some? ==> Survives(c.p, s.rust.node, rs, Posted(c, s, a).value, a.h))
  {
    hide Prepared, AppendEvent, InStep, Rebuild, Stable, Restarted, ReadsBack, ProposeStep, ProposedEvent, Normalize, Survives, Telling, Proposed;
    match a
    case Opaque(ev, now, h) => OpaqueExactly(c, s, ev, now, h, rs, es);
    case Admit(entrance, proposal, now, h) =>
      if Proposed(c, s.auth.value, Entered(entrance, proposal)).Some? {
        AdmitExactly(c, s, entrance, proposal, now, h, rs, es);
      } else {
        NothingPosted(c, s, entrance, proposal, now, h, rs, es);
      }
  }

  lemma {:induction false} NothingPosted(c: Config, s: Sys, entrance: Entrance, proposal: Proposal, now: string, h: Hazards,
                                         rs: seq<Record>, es: seq<Event>)
    requires c.configured && Good(c.p.rust) && InStep(c, s, rs, es) && s.auth.Some?
    requires Proposed(c, s.auth.value, Entered(entrance, proposal)).None?
    ensures Next(c, s, Admit(entrance, proposal, now, h)) == s && Restarted(c, s, true).auth == s.auth
  {
    RestartRecovers(c, s, rs, es);
    hide InStep, Restarted, ProposeStep, Proposed;
    ProposeCases(c, s.auth.value, s.log, s.rust.node, Entered(entrance, proposal), now, Reaching(s.rust, h));
  }

  /** Exactly when a restart right after a checkpoint write gives the live authority: the write left no part of a new file. */
  lemma {:induction false} RestartExactlyAfterCheckpoint(c: Config, s: Sys, fault: Fault, rs: seq<Record>, es: seq<Event>)
    requires c.configured && Good(c.p.rust) && InStep(c, s, rs, es) && s.auth.Some?
    ensures Restarted(c, Next(c, s, RustCheckpoint(fault)), true).auth == s.auth <==> !Spoils(c.p.rust, s.rust.node, fault)
  {
    hide HistoryOf, Rebuild, ReplayFrom, Stored, UniqueIds, AllBound, Loaded, Aligned, Restarted, Spoils, CheckpointStep, Open, Refresh;
    var t := Next(c, s, RustCheckpoint(fault));
    CheckpointSound(c.p.rust, s.rust.node, rs, [], fault);
    if Spoils(c.p.rust, s.rust.node, fault) {
      SpoiltRefuses(c, t, rs);
    } else {
      RestartReads(c, t, rs, []);
    }
  }

  lemma {:induction false} SpoiltRefuses(c: Config, s: Sys, rs: seq<Record>)
    requires c.configured && Good(c.p.rust) && s.rust.up && Sound(c.p.rust, s.rust.node, rs, []) && !Intact(s.rust.node.disk.dir)
    ensures Restarted(c, s, true).auth.None?
  {
    AlwaysLoads(s.log.mirror);
    OpenSound(c.p.rust, s.rust.node, rs, []);
    hide Loaded, Open, Sound, Intact;
  }

  // ----- Payloads that do not read back -----

  lemma {:induction false} SavedAcks(p: Params, n: Node, e: Event)
    requires Good(p.rust) && e.id != "" && e.sequence > 0
    ensures ValidAck(SavedEvent(p, n, e)) && SavedEvent(p, n, e).id == e.id
  {
    NextIsHashed(p.rust, n.accepted, Evidence(e));
    hide Evidence, NextRecord, IsSha256;
  }

  /** No extension of records that do not read as a history does. */
  lemma {:induction false} NeverReadable(p: Params, rs: seq<Record>, more: seq<Record>)
    requires HistoryOf(p, rs).None?
    ensures HistoryOf(p, rs + more).None?
  {
    hide HistoryOf;
    assert (rs + more)[..|rs|] == rs;
    if HistoryOf(p, rs + more).Some? {
      HistoryPrefix(p, rs + more, |rs|);
    }
  }

  /**
   * A proposal whose event does not read back under its hash: nothing goes wrong, Go reports it
   * as accepted, and from then on no restart succeeds, whatever is recorded after it.
   */
  lemma {:induction false} UnstableIsLost(c: Config, s: Sys, entrance: Entrance, proposal: Proposal, now: string,
                                          rs: seq<Record>, es: seq<Event>, more: seq<Record>)
    requires c.configured && Good(c.p.rust) && InStep(c, s, rs, es) && s.auth.Some?
    requires var x := Proposed(c, s.auth.value, Entered(entrance, proposal)); x.Some? && Unbound(rs, x.value.transitionID)
    requires !ReadsBack(c.p, Posted(c, s, Admit(entrance, proposal, now, Smooth)).value)
    ensures var asked := Entered(entrance, proposal);
            var id := Proposed(c, s.auth.value, asked).value.transitionID;
            var r := NextRecord(c.p.rust, s.rust.node.accepted, Evidence(Posted(c, s, Admit(entrance, proposal, now, Smooth)).value));
            var t := Next(c, s, Admit(entrance, proposal, now, Smooth));
            && ProposeStep(c.p, c.configured, c.policy, s.auth.value, s.log, s.rust.node, asked, now, Smooth).3.Success?
            && t.auth.Some? && id in t.auth.value.accepted
            && Restarted(c, t, true).auth.None?
            && HistoryOf(c.p, rs + [r] + more).None?
  {
    var a, n, asked := s.auth.value, s.rust.node, Entered(entrance, proposal);
    var x := Proposed(c, a, asked).value;
    hide Prepared, Sound, HistoryOf, NextRecord, Evidence, Rebuild, Restarted, ReadsBack, Intact, Unbound, ProposeStep, ProposedEvent, Normalize,
         Entered, Proposed;
    UnstableAdmits(c, a, x, s.log, n, asked, now, rs, es);
    UnstableUnread(c.p, n, s.log, rs, es, ProposedEvent(c.p, a, x), now);
    var r := NextRecord(c.p.rust, n.accepted, Evidence(Prepared(s.log, c.p, ProposedEvent(c.p, a, x), now)));
    RestartReads(c, Next(c, s, Admit(entrance, proposal, now, Smooth)), rs + [r], []);
    NeverReadable(c.p, rs + [r], more);
  }

  /** Such a proposal is admitted, and its record is the last one. */
  lemma {:induction false} UnstableAdmits(c: Config, a: Auth, x: Normal, log: Log, n: Node, asked: Proposal, now: string,
                                          rs: seq<Record>, es: seq<Event>)
    requires c.configured && Good(c.p.rust) && Readable(c.p, n, rs, es) && Aligned(log, rs, es)
    requires Proposed(c, a, asked) == Some(x) && Unbound(rs, x.transitionID)
    ensures ProposedEvent(c.p, a, x).id != ""
    ensures var e := Prepared(log, c.p, ProposedEvent(c.p, a, x), now);
            var (a', _, n', res) := ProposeStep(c.p, c.configured, c.policy, a, log, n, asked, now, Smooth);
            && res.Success? && x.transitionID in a'.accepted
            && Sound(c.p.rust, n', rs + [NextRecord(c.p.rust, n.accepted, Evidence(e))], []) && Intact(n'.disk.dir)
  {
    var ev := ProposedEvent(c.p, a, x);
    var e := Prepared(log, c.p, ev, now);
    hide Prepared, AppendEvent, Sound, HistoryOf, NextRecord, Evidence, LineOf, Intact, SavedEvent, Unbound, ProposeStep, ProposedEvent, Admitted,
         ValidAck, Normalize, Proposed, Readable, Aligned, SamePlace;
    PreparedFields(log, c.p, ev, now);
    UnboundNamed(rs, x.transitionID);
    AdmittedKind(c.p, a, x, log, now);
    ReadableIntact(c.p, n, rs, es);
    var rs', tail' := AppendOutcome(c.p, log, n, rs, es, ev, now, Smooth);
    var saved := SavedEvent(c.p, n, e);
    assert AppendEvent(c.p, true, log, n, ev, now, Smooth).2 == Some(saved);
    SavedAcks(c.p, n, e);
    ProposeCases(c, a, log, n, asked, now, Smooth);
    AdmittedIsNew(c.p, a, x, saved);
  }

  lemma {:induction false} ReadableIntact(p: Params, n: Node, rs: seq<Record>, es: seq<Event>)
    requires Readable(p, n, rs, es)
    ensures Intact(n.disk.dir)
  {
    hide Sound, HistoryOf;
  }

  lemma {:induction false} UnstableUnread(p: Params, n: Node, log: Log, rs: seq<Record>, es: seq<Event>, ev: Event, now: string)
    requires Good(p.rust) && Readable(p, n, rs, es) && Aligned(log, rs, es) && ev.id != "" && !ReadsBack(p, Prepared(log, p, ev, now))
    ensures HistoryOf(p, rs + [NextRecord(p.rust, n.accepted, Evidence(Prepared(log, p, ev, now)))]).None?
  {
    HistoryLength(p, rs);
    CleanReplays(p.rust, n, rs);
    ReadableExactlyWhen(p, rs, log, ev, now, n.accepted);
    hide Prepared, HistoryOf, Sound, Clean, NextRecord, Evidence, Replay, Stable, ReadsBack, Reloaded;
  }

  lemma {:induction false} OnePointZero()
    ensures IsNumeral("1.0")
  {
    assert "1.0"[1..] == ".0" && ".0"[1..] == "0" && "0"[1..] == "";
    assert Digits("0") == 1 && Digits(".0") == 0 && Digits("1.0") == 1;
    assert IsFraction(".0") by { assert ".0"[2..] == ""; }
  }

  /** A number literal that encoding/json writes otherwise once it is a float64. */
  function FloatLiteral(): (lit: Numeral)
    ensures lit == "1.0"
  {
    OnePointZero();
    "1.0"
  }

  /**
   * The input that shows it: a number literal 1.0 as result data, which a reload through float64
   * writes as 1.  Go reports the proposal as accepted, and no later restart succeeds.
   */
  lemma {:induction false} FloatLiteralIsLost(c: Config, s: Sys, entrance: Entrance, proposal: Proposal, now: string,
                                              rs: seq<Record>, es: seq<Event>, more: seq<Record>)
    requires c.configured && Good(c.p.rust) && InStep(c, s, rs, es) && s.auth.Some?
    requires var x := Proposed(c, s.auth.value, Entered(entrance, proposal)); x.Some? && Unbound(rs, x.value.transitionID)
    requires proposal.resultData == Raw.Json(Num(FloatLiteral())) && c.p.reload(FloatLiteral()) == "1"
    requires Telling(c.p, Posted(c, s, Admit(entrance, proposal, now, Smooth)).value)
    ensures var asked := Entered(entrance, proposal);
            var id := Proposed(c, s.auth.value, asked).value.transitionID;
            var r := NextRecord(c.p.rust, s.rust.node.accepted, Evidence(Posted(c, s, Admit(entrance, proposal, now, Smooth)).value));
            var t := Next(c, s, Admit(entrance, proposal, now, Smooth));
            && ProposeStep(c.p, c.configured, c.policy, s.auth.value, s.log, s.rust.node, asked, now, Smooth).3.Success?
            && t.auth.Some? && id in t.auth.value.accepted
            && Restarted(c, t, true).auth.None?
            && HistoryOf(c.p, rs + [r] + more).None?
  {
    var a := s.auth.value;
    var x := Proposed(c, a, Entered(entrance, proposal)).value;
    ProposedData(c, a, entrance, proposal);
    LiteralUnstable(c.p, a, x);
    PreparedFields(s.log, c.p, ProposedEvent(c.p, a, x), now);
    hide Prepared, InStep, Rebuild, Stable, Restarted, ReadsBack, ProposeStep, ProposedEvent, Normalize, Proposed, Unbound, HistoryOf, NextRecord,
         Evidence, Entered;
    UnstableIsLost(c, s, entrance, proposal, now, rs, es, more);
  }

  lemma {:induction false} ProposedData(c: Config, a: Auth, entrance: Entrance, proposal: Proposal)
    requires Proposed(c, a, Entered(entrance, proposal)).Some?
    ensures proposal.resultData.Json? && Proposed(c, a, Entered(entrance, proposal)).value.resultData == proposal.resultData.v
  {
  }

  lemma {:induction false} LiteralUnstable(p: Params, a: Auth, x: Normal)
    requires x.resultData == Num(FloatLiteral()) && p.reload(FloatLiteral()) == "1"
    ensures !Stable(p, ProposedEvent(p, a, x).details)
  {
    StableExactly(p, x, Ref(Apply(p, a.state, x)));
    hide Stable, Apply, Payload;
    assert |FloatLiteral()| == 3 && |"1"| == 1;
  }

  // ----- Runs that mend what an append left behind -----

  /** What still agrees with the ledger: the recorder's memory, the place of the Go log, the Go authority. */
  datatype Trust = Trust(rust: bool, log: bool, auth: bool)

  const Trusted := Trust(true, true, true)

  /** The write does not stop inside the line. */
  ghost predicate Untorn(p: Params, n: Node, e: Event, h: Hazards) {
    h.trip.NotSent? || (h.disk.Cut? ==> h.disk.written == 0 || |LineOf(p, n, e)| <= h.disk.written)
  }

  /** Nothing can have reached the disk, or nothing went wrong. */
  predicate LeavesGo(h: Hazards) {
    h.trip.NotSent? || h.disk.OpenFails? || h.disk == Cut(0) || Answers(h)
  }

  predicate LeavesRust(h: Hazards) {
    h.trip.NotSent? || !h.disk.Cut? || h.disk == Cut(0)
  }

  /** What still agrees after a step, judged by its hazards alone. */
  function After(f: Trust, a: Step): Trust {
    match a
    case Admit(_, _, _, h) => Trust(f.rust && LeavesRust(h), f.log && LeavesGo(h), f.auth && LeavesGo(h))
    case Opaque(_, _, h) => Trust(f.rust && LeavesRust(h), f.log && LeavesGo(h), f.auth)
    case Reread(reachable) => f.(log := f.log || reachable)
    case RestartGo(_) => f.(log := true, auth := true)
    case RestartRust => f.(rust := true)
    case RustCheckpoint(_) => f
  }

  /**
   * Appends are made only while all three agree, may meet any hazard that tears no line, and
   * carry stable payloads; a checkpoint write may fail in any way that leaves no part of a file.
   */
  ghost predicate Mindful(c: Config, s: Sys, a: Step, f: Trust) {
    match a
    case Admit(entrance, proposal, _, h) =>
      s.auth.Some? ==>
        f == Trusted && StableProposal(c, s.auth.value, Entered(entrance, proposal))
        && (Posted(c, s, a).Some? ==> Untorn(c.p, s.rust.node, Posted(c, s, a).value, h))
    case Opaque(ev, now, h) =>
      s.auth.Some? ==> f == Trusted && Legal(a) && Stable(c.p, ev.details) && Untorn(c.p, s.rust.node, Prepared(s.log, c.p, ev, now), h)
    case RustCheckpoint(fault) => !Spoils(c.p.rust, s.rust.node, fault)
    case _ => true
  }

  ghost predicate MendedRun(c: Config, s: Sys, steps: seq<Step>, f: Trust)
    decreases |steps|
  {
    steps == [] || (Mindful(c, s, steps[0], f) && MendedRun(c, Next(c, s, steps[0]), steps[1..], After(f, steps[0])))
  }

  function AfterAll(f: Trust, steps: seq<Step>): Trust
    decreases |steps|
  {
    if steps == [] then f else AfterAll(After(f, steps[0]), steps[1..])
  }

  /** The ledger reads and rebuilds, and what is trusted agrees with it. */
  ghost predicate Held(c: Config, s: Sys, f: Trust, rs: seq<Record>, es: seq<Event>) {
    && s.rust.up && Sound(c.p.rust, s.rust.node, rs, []) && Intact(s.rust.node.disk.dir)
    && HistoryOf(c.p, rs) == Some(es) && Rebuild(c.p, es).Some?
    && (f.rust ==> s.rust.node.accepted.sequence == |rs|)
    && (s.auth.Some? ==> (f.log ==> Aligned(s.log, rs, es)) && (f.auth ==> s.auth == Rebuild(c.p, es)))
  }

  lemma {:induction false} HeldIsInStep(c: Config, s: Sys, rs: seq<Record>, es: seq<Event>)
    ensures Held(c, s, Trusted, rs, es) <==> InStep(c, s, rs, es)
  {
    hide Sound, Intact, HistoryOf, Rebuild, Aligned;
  }

  /** One append under hazards that tear no line: the ledger reads on, with the event or without it. */
  lemma {:induction false} AppendReads(c: Config, log: Log, n: Node, rs: seq<Record>, es: seq<Event>, ev: Event, now: string, h: Hazards)
    returns (rs': seq<Record>, es': seq<Event>)
    requires Good(c.p.rust) && Readable(c.p, n, rs, es) && Aligned(log, rs, es) && Stable(c.p, ev.details)
    requires Untorn(c.p, n, Prepared(log, c.p, ev, now), h)
    ensures var e := Prepared(log, c.p, ev, now);
            var (log', n', saved) := AppendEvent(c.p, true, log, n, ev, now, h);
            && Sound(c.p.rust, n', rs', []) && n'.disk.dir == n.disk.dir && rs <= rs' && HistoryOf(c.p, rs') == Some(es')
            && (es' == es || es' == es + [SavedEvent(c.p, n, e)])
            && (saved.Some? ==> es' == es + [SavedEvent(c.p, n, e)] && saved == Some(SavedEvent(c.p, n, e)))
            && (saved.None? && LeavesGo(h) ==> es' == es)
            && (LeavesRust(h) ==> n'.accepted.sequence == |rs'|)
            && (LeavesGo(h) ==> Aligned(log', rs', es'))
  {
    var e := Prepared(log, c.p, ev, now);
    PreparedFields(log, c.p, ev, now);
    hide Prepared, AppendEvent, Sound, HistoryOf, NextRecord, Evidence, Stable, ReadsBack, Intact, SavedEvent, Unbound, Line;
    var tail';
    rs', tail' := AppendOutcome(c.p, log, n, rs, es, ev, now, h);
    es' := es;
    if !Stays(rs, e, h) && Whole(c.p, n, e, h) {
      UnboundNamed(rs, e.id);
      OneMoreReads(c.p, n, log, rs, es, ev, now);
      es' := es + [SavedEvent(c.p, n, e)];
    }
  }

  /** An opaque append keeps what is held. */
  lemma {:induction false} OpaqueHeld(c: Config, s: Sys, ev: Event, now: string, h: Hazards, rs: seq<Record>, es: seq<Event>)
    returns (rs': seq<Record>, es': seq<Event>)
    requires c.configured && Good(c.p.rust) && InStep(c, s, rs, es) && s.auth.Some?
    requires Mindful(c, s, Opaque(ev, now, h), Trusted)
    ensures Held(c, Next(c, s, Opaque(ev, now, h)), After(Trusted, Opaque(ev, now, h)), rs', es') && rs <= rs'
  {
    hide Prepared, AppendEvent, Sound, HistoryOf, NextRecord, Evidence, Rebuild, Stable, Intact, SavedEvent, Untorn, Aligned, LeavesGo, LeavesRust;
    var n := s.rust.node;
    rs', es' := AppendReads(c, s.log, n, rs, es, ev, now, h);
    if es' != es {
      OpaqueRebuilds(c.p, n, s.log, rs', es, ev, now);
    }
  }

  /** A proposal that reaches its append: the ledger reads on, and rebuilds to the authority unless the append was left half-way. */
  lemma {:induction false} AdmitReads(c: Config, a: Auth, x: Normal, log: Log, n: Node, asked: Proposal, now: string, h: Hazards,
                                      rs: seq<Record>, es: seq<Event>)
    returns (rs': seq<Record>, es': seq<Event>)
    requires c.configured && Good(c.p.rust) && Readable(c.p, n, rs, es) && Aligned(log, rs, es) && Rebuild(c.p, es) == Some(a)
    requires Proposed(c, a, asked) == Some(x)
    requires var ev := ProposedEvent(c.p, a, x); Stable(c.p, ev.details) && Untorn(c.p, n, Prepared(log, c.p, ev, now), h)
    ensures var (a', log', n', _) := ProposeStep(c.p, c.configured, c.policy, a, log, n, asked, now, h);
            && Sound(c.p.rust, n', rs', []) && n'.disk.dir == n.disk.dir && rs <= rs' && HistoryOf(c.p, rs') == Some(es')
            && Rebuild(c.p, es').Some?
            && (LeavesRust(h) ==> n'.accepted.sequence == |rs'|)
            && (LeavesGo(h) ==> Aligned(log', rs', es') && Rebuild(c.p, es') == Some(a'))
  {
    hide Prepared, AppendEvent, Sound, HistoryOf, NextRecord, Evidence, Rebuild, Stable, SavedEvent, Untorn, Aligned, LeavesGo, LeavesRust,
         ProposeStep, ProposedEvent, Admitted, ValidAck, Normalize, Readable;
    var ev := ProposedEvent(c.p, a, x);
    ProposeCases(c, a, log, n, asked, now, h);
    rs', es' := AppendReads(c, log, n, rs, es, ev, now, h);
    var saved := SavedEvent(c.p, n, Prepared(log, c.p, ev, now));
    assert |es + [saved]| == |es| + 1;
    ProposedNormal(c, a, asked, x);
    hide Proposed;
    if es' != es {
      AdmissionRebuilds(c, a, x, asked, log, n, now, rs', es, saved);
    }
    var got := AppendEvent(c.p, true, log, n, ev, now, h).2;
    var a' := ProposeStep(c.p, c.configured, c.policy, a, log, n, asked, now, h).0;
    assert got.None? ==> a' == a;
    assert got.Some? ==> a' == Admitted(c.p, a, x, saved);
  }

  /** A proposal keeps what is held. */
  lemma {:induction false} AdmitHeld(c: Config, s: Sys, entrance: Entrance, proposal: Proposal, now: string, h: Hazards,
                                     rs: seq<Record>, es: seq<Event>)
    returns (rs': seq<Record>, es': seq<Event>)
    requires c.configured && Good(c.p.rust) && InStep(c, s, rs, es) && s.auth.Some?
    requires Mindful(c, s, Admit(entrance, proposal, now, h), Trusted)
    ensures Held(c, Next(c, s, Admit(entrance, proposal, now, h)), After(Trusted, Admit(entrance, proposal, now, h)), rs', es') && rs <= rs'
  {
    hide Prepared, Sound, HistoryOf, Rebuild, Stable, Untorn, Aligned, LeavesGo, LeavesRust, Intact, ProposeStep, ProposedEvent, Normalize,
         Entered, Proposed;
    var a, asked := s.auth.value, Entered(entrance, proposal);
    rs', es' := rs, es;
    var x := Proposed(c, a, asked);
    if x.Some? {
      ProposedNormal(c, a, asked, x.value);
      rs', es' := AdmitReads(c, a, x.value, s.log, s.rust.node, asked, now, h, rs, es);
    } else {
      ProposeCases(c, a, s.log, s.rust.node, asked, now, h);
    }
  }

  lemma {:induction false} ProposedNormal(c: Config, a: Auth, asked: Proposal, x: Normal)
    requires Proposed(c, a, asked) == Some(x)
    ensures Normalize(asked) == Success(x)
  {
  }

  /** Reading, restarting and writing checkpoints keep what is held, and mend what they read. */
  lemma {:induction false} UpkeepHeld(c: Config, s: Sys, a: Step, f: Trust, rs: seq<Record>, es: seq<Event>)
    requires c.configured && Good(c.p.rust) && Held(c, s, f, rs, es) && Mindful(c, s, a, f) && !a.Admit? && !a.Opaque?
    ensures Held(c, Next(c, s, a), After(f, a), rs, es)
  {
    hide HistoryOf, Rebuild, ReplayFrom, Stored, UniqueIds, AllBound, Loaded, Aligned, Refresh, Restarted, Spoils, CheckpointStep, Open;
    match a
    case Reread(reachable) =>
      RereadAligns(c, s, rs, es);
      RefreshElsewhere(c.p, s.log, s.rust.node);
    case RestartGo(reachable) =>
      RestartReads(c, s, rs, []);
      RestartElsewhere(c, s);
    case RestartRust =>
      OpenSound(c.p.rust, s.rust.node, rs, []);
      ReplayPrefix(c.p.rust, rs, |rs|);
      assert rs[..|rs|] == rs;
    case RustCheckpoint(fault) =>
      CheckpointSound(c.p.rust, s.rust.node, rs, [], fault);
  }

  lemma {:induction false} RestartElsewhere(c: Config, s: Sys)
    requires c.configured
    ensures Restarted(c, s, false).auth.None? && Restarted(c, s, false).rust == s.rust
  {
    AlwaysLoads(s.log.mirror);
    RefreshElsewhere(c.p, Loaded(true, s.log.mirror).value, s.rust.node);
    hide Loaded, Refresh;
  }

  lemma {:induction false} RereadAligns(c: Config, s: Sys, rs: seq<Record>, es: seq<Event>)
    requires c.configured && Good(c.p.rust) && Sound(c.p.rust, s.rust.node, rs, []) && Intact(s.rust.node.disk.dir)
    requires HistoryOf(c.p, rs) == Some(es)
    ensures Aligned(Refresh(c.p, true, s.log, s.rust.node, true).0, rs, es)
  {
    OpenSound(c.p.rust, s.rust.node, rs, []);
    ReadStored(c.p.rust, s.rust.node.disk.ledger, rs, []);
    HistoryLength(c.p, rs);
    hide HistoryOf, RecordsOf, Open, ReplayFrom, Sound;
  }

  lemma {:induction false} StepHeld(c: Config, s: Sys, a: Step, f: Trust, rs: seq<Record>, es: seq<Event>)
    returns (rs': seq<Record>, es': seq<Event>)
    requires c.configured && Good(c.p.rust) && Held(c, s, f, rs, es) && Mindful(c, s, a, f)
    ensures Held(c, Next(c, s, a), After(f, a), rs', es') && rs <= rs'
  {
    rs', es' := rs, es;
    HeldIsInStep(c, s, rs, es);
    if (a.Admit? || a.Opaque?) && s.auth.None? {
      IdleHeld(c, s, a, f, rs, es);
    } else {
      hide Held, InStep, Next, After, Prepared;
      match a
      case Admit(entrance, proposal, now, h) => rs', es' := AdmitHeld(c, s, entrance, proposal, now, h, rs, es);
      case Opaque(ev, now, h) => rs', es' := OpaqueHeld(c, s, ev, now, h, rs, es);
      case _ => UpkeepHeld(c, s, a, f, rs, es);
    }
  }

  lemma {:induction false} IdleHeld(c: Config, s: Sys, a: Step, f: Trust, rs: seq<Record>, es: seq<Event>)
    requires Held(c, s, f, rs, es) && (a.Admit? || a.Opaque?) && s.auth.None?
    ensures Held(c, Next(c, s, a), After(f, a), rs, es)
  {
    hide Sound, Intact, HistoryOf, Rebuild, Aligned;
  }

  lemma {:induction false} RunHeld(c: Config, s: Sys, steps: seq<Step>, f: Trust, rs: seq<Record>, es: seq<Event>)
    returns (rs': seq<Record>, es': seq<Event>)
    requires c.configured && Good(c.p.rust) && Held(c, s, f, rs, es) && MendedRun(c, s, steps, f)
    ensures Held(c, RunAll(c, s, steps), AfterAll(f, steps), rs', es') && rs <= rs'
    decreases |steps|
  {
    hide Next, Held, Mindful, After;
    rs', es' := rs, es;
    if steps != [] {
      rs', es' := StepHeld(c, s, steps[0], f, rs, es);
      rs', es' := RunHeld(c, Next(c, s, steps[0]), steps[1..], After(f, steps[0]), rs', es');
    }
  }

  /**
   * Over every run with any hazards but torn lines, in which the log is read again or Go is
   * restarted before the next append whenever an append may have left them behind (and Go is
   * restarted if it was an admission, and the recorder if its disk reported a fault): a restart
   * always succeeds, and it gives exactly the live authority unless the last such admission is
   * still to be mended.
   */
  lemma {:induction false} MendedRunRestarts(c: Config, steps: seq<Step>)
    requires c.configured && Good(c.p.rust) && MendedRun(c, Start(c.p), steps, Trusted)
    ensures var s := RunAll(c, Start(c.p), steps);
            && Restarted(c, s, true).auth.Some?
            && (AfterAll(Trusted, steps).auth && s.auth.Some? ==> Restarted(c, s, true).auth == s.auth)
  {
    StartInStep(c);
    HeldIsInStep(c, Start(c.p), [], []);
    hide Restarted, RunAll, MendedRun, InStep, Start, Sound, Intact, HistoryOf, Rebuild, AfterAll, Aligned;
    var rs, es := RunHeld(c, Start(c.p), steps, Trusted, [], []);
    RestartReads(c, RunAll(c, Start(c.p), steps), rs, []);
  }

  /** Every benign run is such a run, and needs no mending. */
  lemma {:induction false} BenignIsMended(c: Config, s: Sys, steps: seq<Step>)
    requires BenignRun(c, s, steps)
    ensures MendedRun(c, s, steps, Trusted) && AfterAll(Trusted, steps) == Trusted
    decreases |steps|
  {
    hide Next, Stable, StableProposal, Posted, Prepared, Spoils, LineOf;
    if steps != [] {
      BenignIsMended(c, Next(c, s, steps[0]), steps[1..]);
    }
  }
}
