/**
 * Restart gives back the live state: over every run in which each append either fails before
 * the recorder commits it or succeeds end to end, rebuilding from the ledger yields exactly
 * the live projection and accepted map.  LostReplies shows what goes wrong outside such runs,
 * and Restarts exactly when a restart is exact there.
 */
module Recovery {
  import opened Wrappers
  import opened Json
  import Bytes
  import opened Decimal
  import opened Members
  import opened RecordCodec
  import opened Ledger
  import opened LedgerTheory
  import opened EventLog
  import opened EventLogTheory
  import opened Transition
  import opened TransitionTheory
  import opened Protocol
  import opened Safety
  import LogService

  /** The append fails before the recorder commits, or everything works to the end. */
  predicate Benign(h: Hazards) {
    h.trip.NotSent? || h.disk.OpenFails? || (h.trip.Answered? && h.disk.NoFault? && h.mirror.Written?)
  }

  /** The proposal's payload keeps its number literals when it is read back. */
  ghost predicate StableProposal(c: Config, a: Auth, x: Proposal) {
    Normalize(x).Success? ==> Stable(c.p, ProposedEvent(c.p, a, Normalize(x).value).details)
  }

  /** A step that commits on all three sides or on none, and leaves no half-written checkpoint. */
  ghost predicate BenignStep(c: Config, s: Sys, a: Step) {
    match a
    case Admit(entrance, proposal, _, h) => Benign(h) && (s.auth.Some? ==> StableProposal(c, s.auth.value, Entered(entrance, proposal)))
    case Opaque(ev, _, h) => Benign(h) && Legal(a) && Stable(c.p, ev.details)
    case RustCheckpoint(fault) => !Spoils(c.p.rust, s.rust.node, fault)
    case _ => true
  }

  ghost predicate BenignRun(c: Config, s: Sys, steps: seq<Step>)
    decreases |steps|
  {
    steps == [] || (BenignStep(c, s, steps[0]) && BenignRun(c, Next(c, s, steps[0]), steps[1..]))
  }

  /** The next append of this log continues this history. */
  ghost predicate Aligned(log: Log, rs: seq<Record>, es: seq<Event>) {
    log.sequence == |rs| && log.lastHash == LastHash(es)
  }

  /** Disk and recorder memory agree, and the records read as a history of events. */
  ghost predicate Readable(p: Params, n: Node, rs: seq<Record>, es: seq<Event>) {
    Sound(p.rust, n, rs, []) && Clean(n, rs, []) && HistoryOf(p, rs) == Some(es)
  }

  /** All three parties agree on one history, and Go holds exactly what that history rebuilds to. */
  ghost predicate InStep(c: Config, s: Sys, rs: seq<Record>, es: seq<Event>) {
    && s.rust.up && Readable(c.p, s.rust.node, rs, es) && Rebuild(c.p, es).Some?
    && (s.auth.Some? ==> s.auth == Rebuild(c.p, es) && Aligned(s.log, rs, es))
  }

  // ----- One append -----

  /** A write that cannot open the file changes nothing. */
  lemma {:induction false} OpenFailsKeeps(w: World, n: Node, evidence: Value)
    ensures AppendStep(w, n, evidence, OpenFails).0 == n
  {
    hide Open, RecordsOf, Dedup, NextRecord;
  }

  /** The recorder's side of a benign append: one record more and an answer that binds it, or nothing. */
  lemma {:induction false} ForwardCommits(p: Params, n: Node, rs: seq<Record>, ev: Event, h: Hazards)
    requires Good(p.rust) && Sound(p.rust, n, rs, []) && Clean(n, rs, []) && Benign(h)
    requires ev.sequence == |rs| + 1 && ev.id != ""
    ensures var (n', ack) := EventLog.Forward(p, n, ev, h);
            var r := NextRecord(p.rust, n.accepted, Evidence(ev));
            if ack.None? then n' == n
            else h.mirror.Written? && Sound(p.rust, n', rs + [r], []) && Clean(n', rs + [r], [])
                 && ack == Some(RustAck(ev.id, |rs| + 1, r.hash))
  {
    if !h.trip.NotSent? {
      AppendSound(p.rust, n, rs, [], Evidence(ev), h.disk);
      OpenFailsKeeps(p.rust, n, Evidence(ev));
      EvidenceIds(ev);
      if Dedup(rs, Evidence(ev)).Some? {
        var i := Find(rs, ev.id);
        hide Evidence, AppendStep, Find, ReplayFrom, Stored;
        RecordSequence(p.rust, rs, i);
      } else {
        hide Evidence, AppendStep, Find, ReplayFrom, Stored, UniqueIds, AllBound;
        assert h.disk.NoFault? ==> IsSha256(NextRecord(p.rust, n.accepted, Evidence(ev)).hash);
      }
    }
  }

  /** What a saved event of a benign append looks like. */
  ghost function SavedEvent(p: Params, n: Node, e: Event): Event {
    e.(rustAck := Some(RustAck(e.id, e.sequence, NextRecord(p.rust, n.accepted, Evidence(e)).hash)))
  }

  /** Append in terms of the one forward it makes, when a recorder is configured. */
  lemma {:induction false} AppendForwards(p: Params, log: Log, n: Node, ev: Event, now: string, h: Hazards)
    requires ev.id != ""
    ensures var e := Prepared(log, p, ev, now);
            var (n', ack) := EventLog.Forward(p, n, e, h);
            AppendEvent(p, true, log, n, ev, now, h) ==
            if ack.None? then (log, n', None)
            else
              var (log', saved) := Mirrored(log, e.(rustAck := ack), h.mirror);
              (log', n', saved)
  {
    hide Prepared, EventLog.Forward, AppendLine;
  }

  lemma {:induction false} PreparedFields(log: Log, p: Params, ev: Event, now: string)
    ensures var e := Prepared(log, p, ev, now);
            e.id == ev.id && e.sequence == log.sequence + 1 && e.details == ev.details && e.prevHash == log.lastHash && e.action == ev.action
    ensures var e := Prepared(log, p, ev, now); e.hash == HashEvent(p, e)
    ensures ev.kind != "" ==> Prepared(log, p, ev, now).kind == ev.kind
    ensures ev.status != "" ==> Prepared(log, p, ev, now).status == ev.status
  {
  }

  /** A benign append on aligned parties either changes nothing or extends all histories by the same event. */
  lemma {:induction false} AppendCommits(p: Params, log: Log, n: Node, rs: seq<Record>, es: seq<Event>, ev: Event, now: string, h: Hazards)
    returns (rs': seq<Record>)
    requires Good(p.rust) && Readable(p, n, rs, es) && Aligned(log, rs, es) && Benign(h) && Stable(p, ev.details)
    ensures var (log', n', saved) := AppendEvent(p, true, log, n, ev, now, h);
            if saved.None? then log' == log && n' == n && rs' == rs
            else
              && ev.id != "" && rs <= rs' && Readable(p, n', rs', es + [saved.value]) && Aligned(log', rs', es + [saved.value])
              && saved.value == SavedEvent(p, n, Prepared(log, p, ev, now))
  {
    rs' := rs;
    if ev.id != "" {
      var e := Prepared(log, p, ev, now);
      AppendForwards(p, log, n, ev, now, h);
      PreparedFields(log, p, ev, now);
      HistoryLength(p, rs);
      ForwardCommits(p, n, rs, e, h);
      var ack := EventLog.Forward(p, n, e, h).1;
      if ack.Some? {
        rs' := rs + [NextRecord(p.rust, n.accepted, Evidence(e))];
        assert rs[..|rs|] == rs;
        ReadableExactlyWhen(p, rs, log, ev, now, n.accepted);
        hide Prepared, EventLog.Forward, AppendLine, Sound, HistoryOf, Stable, AppendEvent, NextRecord, Evidence, Clean, ReadsBack, Reloaded;
      }
    }
  }

  // ----- One step of the system -----

  /** Rebuilding one event further. */
  lemma {:induction false} RebuildNext(p: Params, es: seq<Event>, ev: Event)
    requires ValidHistory(p, es + [ev]) && Rebuild(p, es).Some?
    ensures Rebuild(p, es + [ev]) == Replayed(p, Rebuild(p, es).value, ev)
  {
    hide Replayed, Fresh, ReplayAll, ValidFrom;
    ReplayAllAppend(p, Fresh(p), es, [ev]);
    ReplayOne(p, Rebuild(p, es).value, ev);
  }

  lemma {:induction false} HistoryIsValid(p: Params, rs: seq<Record>)
    requires HistoryOf(p, rs).Some?
    ensures ValidHistory(p, HistoryOf(p, rs).value)
  {
    hide AcknowledgedFrom, ValidHistory;
  }

  /** An admitted proposal is what replaying its event makes of the state. */
  lemma {:induction false} AdmitReplays(p: Params, a: Auth, x: Normal, proposal: Proposal, log: Log, n: Node, now: string)
    requires Normalize(proposal) == Success(x) && x.transitionID !in a.accepted && x.prior == Ref(a.state)
    ensures var ev := SavedEvent(p, n, Prepared(log, p, ProposedEvent(p, a, x), now));
            Replayed(p, a, ev) == Some(Admitted(p, a, x, ev))
  {
    var next := Ref(Apply(p, a.state, x));
    NormalizeSettles(proposal);
    PreparedFields(log, p, TransitionEvent(x, next), now);
    assert |ACCEPTED_KIND| == 29 && |"accepted"| == 8;
    hide Apply, Payload, Normalize, Prepared, Evidence, NextRecord, Replayed, Settled, Admitted;
    ReplayMirrors(p, a, x, SavedEvent(p, n, Prepared(log, p, ProposedEvent(p, a, x), now)));
  }

  /** The saved event passes the checks Propose makes on it. */
  lemma {:induction false} SavedBinds(p: Params, rs: seq<Record>, es: seq<Event>, saved: Event)
    requires HistoryOf(p, rs) == Some(es + [saved]) && saved.kind == ACCEPTED_KIND
    ensures ValidAck(saved) && ValidHistory(p, es + [saved])
  {
    HistoryIsValid(p, rs);
    hide HistoryOf, ValidAck, ValidFrom;
    ValidSequence(p, GENESIS, 1, es + [saved], |es|);
  }

  lemma {:induction false} SavedFields(p: Params, a: Auth, x: Normal, log: Log, n: Node, now: string)
    ensures var ev := SavedEvent(p, n, Prepared(log, p, ProposedEvent(p, a, x), now));
            ev.id == x.transitionID && ev.kind == ACCEPTED_KIND
  {
    PreparedFields(log, p, ProposedEvent(p, a, x), now);
    assert |ACCEPTED_KIND| == 29;
    hide Prepared, Apply, Payload, NextRecord, Evidence;
  }

  /** The history that holds a saved acceptance rebuilds to the state that admitted it. */
  lemma {:induction false} AdmissionRebuilds(c: Config, a: Auth, x: Normal, proposal: Proposal, log: Log, n: Node, now: string,
                                             rs: seq<Record>, es: seq<Event>, saved: Event)
    requires Normalize(proposal) == Success(x) && x.transitionID !in a.accepted && x.prior == Ref(a.state)
    requires Rebuild(c.p, es) == Some(a) && HistoryOf(c.p, rs) == Some(es + [saved])
    requires saved == SavedEvent(c.p, n, Prepared(log, c.p, ProposedEvent(c.p, a, x), now))
    ensures saved.id == x.transitionID && ValidAck(saved)
    ensures Rebuild(c.p, es + [saved]) == Some(Admitted(c.p, a, x, saved))
  {
    hide ValidAck, Replayed, Rebuild, HistoryOf, Admitted, ProposedEvent, Prepared, SavedEvent, Normalize, ValidHistory;
    SavedFields(c.p, a, x, log, n, now);
    SavedBinds(c.p, rs, es, saved);
    AdmitReplays(c.p, a, x, proposal, log, n, now);
    RebuildNext(c.p, es, saved);
  }

  /** One proposal on parties in step leaves them in step. */
  lemma {:induction false} AdmitInStep(c: Config, a: Auth, log: Log, n: Node, proposal: Proposal, now: string, h: Hazards,
                                       rs: seq<Record>, es: seq<Event>)
    returns (rs': seq<Record>, es': seq<Event>)
    requires c.configured && Good(c.p.rust) && Readable(c.p, n, rs, es) && Aligned(log, rs, es) && Rebuild(c.p, es) == Some(a)
    requires Benign(h) && StableProposal(c, a, proposal)
    ensures var (a', log', n', r) := ProposeStep(c.p, c.configured, c.policy, a, log, n, proposal, now, h);
            && Readable(c.p, n', rs', es') && Aligned(log', rs', es') && Rebuild(c.p, es') == Some(a') && rs <= rs'
            && (es' == es || (r.Success? && Proposed(c, a, proposal).Some?
                              && es' == es + [SavedEvent(c.p, n, Prepared(log, c.p, ProposedEvent(c.p, a, Proposed(c, a, proposal).value), now))]))
            && (Proposed(c, a, proposal).Some? && r.Success? ==> |es'| == |es| + 1)
  {
    hide ProposeStep, AppendEvent, Rebuild, Sound, HistoryOf, ProposedEvent, Admitted, ValidAck, SavedEvent, Aligned, Clean,
         Normalize, Stable, Prepared, Benign;
    rs', es' := rs, es;
    ProposeCases(c, a, log, n, proposal, now, h);
    var x := Proposed(c, a, proposal);
    if x.Some? {
      var ev := ProposedEvent(c.p, a, x.value);
      rs' := AppendCommits(c.p, log, n, rs, es, ev, now, h);
      var saved := AppendEvent(c.p, true, log, n, ev, now, h).2;
      if saved.Some? {
        es' := es + [saved.value];
        AdmissionRebuilds(c, a, x.value, proposal, log, n, now, rs', es, saved.value);
      }
    }
  }

  /** One opaque append on parties in step leaves them in step, and leaves the authority alone. */
  lemma {:induction false} OpaqueInStep(c: Config, a: Auth, log: Log, n: Node, ev: Event, now: string, h: Hazards,
                                        rs: seq<Record>, es: seq<Event>)
    returns (rs': seq<Record>, es': seq<Event>)
    requires c.configured && Good(c.p.rust) && Readable(c.p, n, rs, es) && Aligned(log, rs, es) && Rebuild(c.p, es) == Some(a)
    requires Benign(h) && ev.kind != ACCEPTED_KIND && Stable(c.p, ev.details)
    ensures var (log', n', _) := AppendEvent(c.p, c.configured, log, n, ev, now, h);
            && Readable(c.p, n', rs', es') && Aligned(log', rs', es') && Rebuild(c.p, es') == Some(a) && rs <= rs'
  {
    hide AppendEvent, Rebuild, Sound, HistoryOf, Aligned, Clean, Stable, Prepared, Benign, ValidHistory, NextRecord, Evidence;
    es' := es;
    rs' := AppendCommits(c.p, log, n, rs, es, ev, now, h);
    var saved := AppendEvent(c.p, true, log, n, ev, now, h).2;
    if saved.Some? {
      es' := es + [saved.value];
      LogService.PreparedKind(log, c.p, ev, now);
      HistoryIsValid(c.p, rs');
      RebuildNext(c.p, es, saved.value);
    }
  }

  lemma {:induction false} AlwaysLoads(mirror: seq<MirrorLine>)
    ensures Loaded(true, mirror).Some?
    decreases |mirror|
  {
    if mirror != [] {
      AlwaysLoads(mirror[..|mirror| - 1]);
    }
  }

  /** Reading a recorder in step gives its history and realigns the log. */
  lemma {:induction false} RefreshInStep(p: Params, log: Log, n: Node, rs: seq<Record>, es: seq<Event>)
    requires Good(p.rust) && Readable(p, n, rs, es)
    ensures var (log', events) := Refresh(p, true, log, n, true);
            events == Some(es) && Aligned(log', rs, es)
  {
    OpenSound(p.rust, n, rs, []);
    ReadStored(p.rust, n.disk.ledger, rs, []);
    HistoryLength(p, rs);
    hide HistoryOf, RecordsOf, Open, ReplayFrom;
  }

  /** A reachable restart of parties in step brings Go up with exactly the live authority. */
  lemma {:induction false} RestartRecovers(c: Config, s: Sys, rs: seq<Record>, es: seq<Event>)
    requires c.configured && Good(c.p.rust) && InStep(c, s, rs, es)
    ensures Restarted(c, s, true).auth == Rebuild(c.p, es)
    ensures s.auth.Some? ==> Restarted(c, s, true).auth == s.auth
    ensures InStep(c, Restarted(c, s, true), rs, es)
  {
    hide Readable, Loaded, Refresh, Rebuild, Aligned;
    AlwaysLoads(s.log.mirror);
    RefreshInStep(c.p, Loaded(true, s.log.mirror).value, s.rust.node, rs, es);
  }

  lemma {:induction false} RefreshElsewhere(p: Params, log: Log, n: Node)
    ensures Refresh(p, true, log, n, false) == (log, None)
  {
  }

  lemma {:induction false} ReopenReadable(p: Params, n: Node, rs: seq<Record>, es: seq<Event>)
    requires Good(p.rust) && Readable(p, n, rs, es)
    ensures Do(p.rust, Machine(n, true), Restart) == Machine(n, true)
  {
    hide HistoryOf, Sound, Clean, Open;
    OpenSound(p.rust, n, rs, []);
  }

  lemma {:induction false} CheckpointReadable(p: Params, n: Node, rs: seq<Record>, es: seq<Event>, fault: Fault)
    requires Good(p.rust) && Readable(p, n, rs, es) && !Spoils(p.rust, n, fault)
    ensures Readable(p, CheckpointStep(p.rust, n, fault).0, rs, es)
  {
    hide HistoryOf, Sound, Clean, CheckpointStep, Spoils;
    CheckpointSound(p.rust, n, rs, [], fault);
  }

  /** A step of the recorder itself leaves everyone in step. */
  lemma {:induction false} RustInStep(c: Config, s: Sys, a: Step, rs: seq<Record>, es: seq<Event>)
    requires Good(c.p.rust) && InStep(c, s, rs, es)
    requires a.RestartRust? || (a.RustCheckpoint? && !Spoils(c.p.rust, s.rust.node, a.fault))
    ensures InStep(c, Next(c, s, a), rs, es)
  {
    hide Rebuild, Aligned, Readable, CheckpointStep, Open, Spoils;
    ReopenReadable(c.p, s.rust.node, rs, es);
    if a.RustCheckpoint? {
      CheckpointReadable(c.p, s.rust.node, rs, es, a.fault);
    }
    assert s.rust == Machine(s.rust.node, true);
  }

  /** Every benign step keeps the three parties in step. */
  lemma {:induction false} NextInStep(c: Config, s: Sys, a: Step, rs: seq<Record>, es: seq<Event>)
    returns (rs': seq<Record>, es': seq<Event>)
    requires c.configured && Good(c.p.rust) && InStep(c, s, rs, es) && BenignStep(c, s, a)
    ensures InStep(c, Next(c, s, a), rs', es') && rs <= rs'
  {
    hide Rebuild, Aligned, Readable, Stable, StableProposal, ProposeStep, AppendEvent, Refresh, Loaded, Spoils;
    rs', es' := rs, es;
    match a
    case Admit(entrance, proposal, now, h) =>
      if s.auth.Some? {
        rs', es' := AdmitInStep(c, s.auth.value, s.log, s.rust.node, Entered(entrance, proposal), now, h, rs, es);
      }
    case Opaque(ev, now, h) =>
      if s.auth.Some? {
        rs', es' := OpaqueInStep(c, s.auth.value, s.log, s.rust.node, ev, now, h, rs, es);
      }
    case Reread(reachable) =>
      RefreshInStep(c.p, s.log, s.rust.node, rs, es);
      RefreshElsewhere(c.p, s.log, s.rust.node);
    case RestartGo(reachable) =>
      RestartRecovers(c, s, rs, es);
      AlwaysLoads(s.log.mirror);
      RefreshElsewhere(c.p, Loaded(true, s.log.mirror).value, s.rust.node);
    case RestartRust => RustInStep(c, s, a, rs, es);
    case RustCheckpoint(_) => RustInStep(c, s, a, rs, es);
  }

  /** Over every benign run the recorder, the log and the authority stay in step. */
  lemma {:induction false} RunInStep(c: Config, s: Sys, steps: seq<Step>, rs: seq<Record>, es: seq<Event>)
    returns (rs': seq<Record>, es': seq<Event>)
    requires c.configured && Good(c.p.rust) && InStep(c, s, rs, es) && BenignRun(c, s, steps)
    ensures InStep(c, RunAll(c, s, steps), rs', es') && rs <= rs'
    decreases |steps|
  {
    hide Next, InStep, BenignStep;
    rs', es' := rs, es;
    if steps != [] {
      rs', es' := NextInStep(c, s, steps[0], rs, es);
      var r2, e2 := RunInStep(c, Next(c, s, steps[0]), steps[1..], rs', es');
      rs', es' := r2, e2;
    }
  }

  lemma {:induction false} StartInStep(c: Config)
    requires Good(c.p.rust)
    ensures InStep(c, Start(c.p), [], [])
  {
    StartIsSafe(c);
    hide Initial;
  }

  /**
   * The headline claim, for all benign runs from the start: restarting Go gives back exactly
   * the live state: the projection, and for every accepted transition its request, result
   * and durable binding.  If Go is not up, the restart brings it up.
   */
  lemma {:induction false} RestartGivesBackTheLiveState(c: Config, steps: seq<Step>)
    requires c.configured && Good(c.p.rust) && BenignRun(c, Start(c.p), steps)
    ensures var s := RunAll(c, Start(c.p), steps);
            Restarted(c, s, true).auth.Some? && (s.auth.Some? ==> Restarted(c, s, true).auth == s.auth)
  {
    hide Restarted, RunAll, BenignRun;
    StartInStep(c);
    var rs, es := RunInStep(c, Start(c.p), steps, [], []);
    RestartRecovers(c, RunAll(c, Start(c.p), steps), rs, es);
  }
}
