/**
 * The dedup window of a subject: what opens it, what frees it, and so exactly when a repeated
 * root activation is suppressed, however many steps lie in between.
 */
module DedupWindow {
  import opened Wrappers
  import opened Activations
  import opened ActivationTheory

  /** When the window of this key closes, if it is open at all. */
  function Window(s: State, key: string): Option<int> {
    if key in s.dedup then Some(s.dedup[key]) else None
  }

  // ----- Cleaning -----

  /** An active record of this subject has outlived its time. */
  ghost predicate Overdue(acts: seq<Act>, i: nat, key: string, now: int) {
    exists j :: i <= j < |acts| && acts[j].status.Active? && now > acts[j].expires && KeyOf(acts[j]) == key
  }

  /** Cleaning frees exactly the keys of the records it expires, and keeps every other window. */
  lemma {:induction false} CleanFrees(s: State, i: nat, now: int, key: string)
    requires i <= |s.acts|
    ensures var t := CleanFrom(s, i, now);
            && (key in t.dedup <==> key in s.dedup && !Overdue(s.acts, i, key, now))
            && (key in t.dedup ==> t.dedup[key] == s.dedup[key])
    decreases |s.acts| - i
  {
    hide KeyOf;
    if i < |s.acts| {
      var a := s.acts[i];
      if a.status.Active? && now > a.expires {
        var t := ExpireAt(s, i);
        CleanFrees(t, i + 1, now, key);
        assert forall j :: i < j < |s.acts| ==> t.acts[j] == s.acts[j];
        OverdueSame(s.acts, t.acts, i + 1, key, now);
        OverdueStep(s.acts, i, key, now);
      } else {
        CleanFrees(s, i + 1, now, key);
        OverdueStep(s.acts, i, key, now);
      }
    }
  }

  lemma {:induction false} OverdueStep(acts: seq<Act>, i: nat, key: string, now: int)
    requires i < |acts|
    ensures Overdue(acts, i, key, now) <==>
            (acts[i].status.Active? && now > acts[i].expires && KeyOf(acts[i]) == key) || Overdue(acts, i + 1, key, now)
  {
    hide KeyOf;
  }

  lemma {:induction false} OverdueSame(a: seq<Act>, b: seq<Act>, i: nat, key: string, now: int)
    requires |a| == |b| && forall j :: i <= j < |a| ==> a[j] == b[j]
    ensures Overdue(a, i, key, now) <==> Overdue(b, i, key, now)
  {
    hide KeyOf;
  }

  // ----- One step -----

  /** The id names a record with this key. */
  predicate Names(s: State, id: string, key: string) {
    var i := Position(s.acts, id);
    i < |s.acts| && KeyOf(s.acts[i]) == key
  }

  predicate NamesActive(s: State, id: string, key: string) {
    Names(s, id, key) && s.acts[Position(s.acts, id)].status.Active?
  }

  /**
   * The step frees the key: an active record of the subject expires, stops or reports its end,
   * or any record of the subject at all, even one that had ended, is completed.
   */
  ghost predicate Frees(s: State, a: Step, key: string) {
    match a
    case DoActivate(_, _, now) => Overdue(s.acts, 0, key, now)
    case DoClean(now) => Overdue(s.acts, 0, key, now)
    case DoExpire(id) => NamesActive(s, id, key)
    case DoStopped(id) => NamesActive(s, id, key)
    case DoComplete(id) => Names(s, id, key)
    case DoRecord(o, _) => o.actor != "" && NamesActive(s, o.actor, key) && (o.status == "completed" || o.status == "observation")
    case _ => false
  }

  /** The last record was added to these and granted. */
  predicate Grants(before: seq<Act>, after: seq<Act>) {
    |after| == |before| + 1 && Granted(after[|before|].status)
  }

  /** The step is an activation of the subject, as a root or as a child, and is granted. */
  predicate Opens(l: Limits, s: State, a: Step, key: string) {
    a.DoActivate? && DedupKey(a.r.workspace, a.r.action, a.r.path) == key && Grants(Clean(s, a.now).acts, Do(l, s, a).acts)
  }

  lemma {:induction false} RefusedWindow(s: State, a: Act, key: string)
    requires !Granted(a.status)
    ensures var t := Added(s, a); !Grants(s.acts, t.acts) && Window(t, key) == Window(s, key)
  {
  }

  lemma {:induction false} SpawnedWindow(l: Limits, s: State, pid: Option<nat>, now: int, key: string)
    requires s.acts != [] && s.acts[|s.acts| - 1].status.Active?
    ensures var t := Spawned(l, s, pid, now);
            && |t.acts| == |s.acts| && Granted(t.acts[|s.acts| - 1].status)
            && Window(t, key) == Window(s, key)
  {
  }

  lemma {:induction false} OpenedWindow(s: State, a: Act, key: string)
    ensures var t := Added(s, a).(dedup := s.dedup[KeyOf(a) := a.expires]);
            && |t.acts| == |s.acts| + 1 && t.acts[|s.acts|] == a
            && Window(t, key) == if KeyOf(a) == key then Some(a.expires) else Window(s, key)
  {
    hide KeyOf;
  }

  lemma {:induction false} AdmitWindow(l: Limits, s: State, active: nat, a: Act, pid: Option<nat>, now: int, key: string)
    requires a.status.Active?
    ensures var t := Admit(l, s, active, a, pid, now);
            && (Grants(s.acts, t.acts) <==> active < l.maxActive)
            && Window(t, key) == if active < l.maxActive && KeyOf(a) == key then Some(a.expires) else Window(s, key)
  {
    hide KeyOf, Added, Spawned, Window;
    if active >= l.maxActive {
      RefusedWindow(s, a.(status := RejectedBudget), key);
    } else {
      OpenedWindow(s, a, key);
      SpawnedWindow(l, Added(s, a).(dedup := s.dedup[KeyOf(a) := a.expires]), pid, now, key);
    }
  }

  lemma {:induction false} NewActFields(l: Limits, n: nat, r: Request, now: int, lineage: string, parent: string, depth: int,
                                        remaining: int, count: int)
    ensures var a := NewAct(l, n, r, now, lineage, parent, depth, remaining, count, Active);
            a.status.Active? && KeyOf(a) == DedupKey(r.workspace, r.action, r.path) && a.expires == now + l.ttl
  {
    hide ActorId, DedupKey;
  }

  lemma {:induction false} RootWindow(l: Limits, s: State, active: nat, r: Request, pid: Option<nat>, now: int, key: string)
    ensures var t := ActivateRoot(l, s, active, r, pid, now);
            Window(t, key) == if Grants(s.acts, t.acts) && DedupKey(r.workspace, r.action, r.path) == key
                              then Some(now + l.ttl) else Window(s, key)
  {
    hide DedupKey, LineageId, Added, Admit, NewAct, Grants, Window, KeyOf;
    var root := NewAct(l, s.counter, r, now, LineageId(s.counter), "", 1, l.maxBudget, 1, Active);
    NewActFields(l, s.counter, r, now, LineageId(s.counter), "", 1, l.maxBudget, 1);
    RefusedWindow(s, root.(status := RejectedDepth), key);
    RefusedWindow(s, root.(status := RejectedBudgetExhausted), key);
    AdmitWindow(l, s, active, root, pid, now, key);
  }

  lemma {:induction false} ChildWindow(l: Limits, s: State, active: nat, r: Request, pid: Option<nat>, now: int, key: string)
    ensures var t := ActivateChild(l, s, active, r, pid, now);
            Window(t, key) == if Grants(s.acts, t.acts) && DedupKey(r.workspace, r.action, r.path) == key
                              then Some(now + l.ttl) else Window(s, key)
  {
    hide DedupKey, Position, Busy, Cycle, Added, Admit, NewAct, Grants, Window, KeyOf;
    var i := Position(s.acts, r.parent);
    if i == |s.acts| || s.acts[i].lineage == "" {
      OrphanRefused(l, s.counter, r, now);
      RefusedWindow(s, Orphan(l, s.counter, r, now), key);
    } else {
      var p := s.acts[i];
      var child := NewAct(l, s.counter, r, now, p.lineage, r.parent, p.depth + 1, p.remaining - 1, p.count + 1, Active);
      NewActFields(l, s.counter, r, now, p.lineage, r.parent, p.depth + 1, p.remaining - 1, p.count + 1);
      if Cycle(p, r) {
        RefusedWindow(s, child.(count := 1, status := RejectedCycle), key);
      } else if Busy(s.acts, p.lineage, r.workspace, r.action, r.path) {
        NothingGranted(s.acts);
      } else if child.depth > l.maxDepth {
        RefusedWindow(s, child.(status := RejectedDepth), key);
      } else if child.remaining < 0 {
        RefusedWindow(s, child.(status := RejectedBudgetExhausted), key);
      } else {
        AdmitWindow(l, s, active, child, pid, now, key);
      }
    }
  }

  lemma {:induction false} NothingGranted(acts: seq<Act>)
    ensures !Grants(acts, acts)
  {
  }

  lemma {:induction false} OrphanRefused(l: Limits, n: nat, r: Request, now: int)
    ensures !Granted(Orphan(l, n, r, now).status)
  {
    hide ActorId;
  }

  lemma {:induction false} ActivateWindow(l: Limits, s: State, r: Request, pid: Option<nat>, now: int, key: string)
    ensures var t := Activate(l, s, r, pid, now);
            Window(t, key) == if Grants(Clean(s, now).acts, t.acts) && DedupKey(r.workspace, r.action, r.path) == key
                              then Some(now + l.ttl) else Window(Clean(s, now), key)
  {
    hide Clean, DedupKey, ActiveCount, ActivateChild, ActivateRoot;
    var cleaned := Clean(s, now);
    var counted := cleaned.(counter := cleaned.counter + 1);
    RootWindow(l, counted, ActiveCount(cleaned.acts), r, pid, now, key);
    ChildWindow(l, counted, ActiveCount(cleaned.acts), r, pid, now, key);
  }

  lemma {:induction false} LiveApart(s: State, id: string, key: string)
    ensures Window(StopLive(s, id), key) == Window(s, key) == Window(Unhooked(s, id), key)
    ensures forall k: string :: Window(Freed(s, k), key) == if k == key then None else Window(s, key)
  {
  }

  lemma {:induction false} StatusApart(s: State, i: nat, status: Status, key: string)
    requires i < |s.acts|
    ensures Window(Ended(s, i, status), key) == Window(s, key)
  {
  }

  lemma {:induction false} ExpireWindow(l: Limits, s: State, id: string, key: string)
    ensures Window(Expire(s, id), key) == if Frees(s, DoExpire(id), key) then None else Window(s, key)
    ensures Window(Stopped(s, id), key) == if Frees(s, DoStopped(id), key) then None else Window(s, key)
  {
    hide KeyOf, Position, Window, StopLive, Unhooked, Freed, Ended;
    var i := Position(s.acts, id);
    if i < |s.acts| {
      StatusApart(s, i, Expired, key);
      StatusApart(s, i, Passivated, key);
      LiveApart(Ended(s, i, Expired), id, key);
      LiveApart(StopLive(Ended(s, i, Expired), id), id, key);
      LiveApart(Ended(s, i, Passivated), id, key);
      LiveApart(Unhooked(Ended(s, i, Passivated), id), id, key);
    }
    LiveApart(s, id, key);
  }

  lemma {:induction false} CompleteWindow(l: Limits, s: State, id: string, key: string)
    ensures Window(Complete(s, id), key) == if Frees(s, DoComplete(id), key) then None else Window(s, key)
    ensures Window(FailActor(s, id), key) == Window(s, key) == Window(Panicked(s, id), key)
  {
    hide KeyOf, Position, Window, StopLive, Unhooked, Freed, Ended;
    var i := Position(s.acts, id);
    if i < |s.acts| {
      StatusApart(s, i, Completed, key);
      StatusApart(s, i, Failed, key);
      LiveApart(Ended(s, i, Completed), id, key);
      LiveApart(StopLive(Ended(s, i, Completed), id), id, key);
      LiveApart(StopLive(s, id), id, key);
      LiveApart(Ended(s, i, Failed), id, key);
    }
    LiveApart(s, id, key);
  }

  lemma {:induction false} RecordWindow(l: Limits, s: State, o: Outcome, now: int, key: string)
    ensures Window(Record(s, o, now), key) == if Frees(s, DoRecord(o, now), key) then None else Window(s, key)
  {
    hide KeyOf, Position, StopLive, Unhooked, Freed, Ended;
    var kept := s.(results := s.results[o.actor := o.(createdAt := now)]);
    assert Window(kept, key) == Window(s, key);
    hide Window;
    var i := Position(s.acts, o.actor);
    if i < |s.acts| {
      StatusApart(kept, i, Completed, key);
      LiveApart(Ended(kept, i, Completed), o.actor, key);
      LiveApart(StopLive(Ended(kept, i, Completed), o.actor), o.actor, key);
    }
  }

  lemma {:induction false} ExitWindow(l: Limits, s: State, a: Step, key: string)
    requires !a.DoActivate? && !a.DoClean?
    ensures Window(Do(l, s, a), key) == if Frees(s, a, key) then None else Window(s, key)
  {
    hide Position, Expire, Complete, FailActor, Record, Stopped, Panicked, Names, NamesActive;
    match a
    case DoExpire(id) => ExpireWindow(l, s, id, key);
    case DoStopped(id) => ExpireWindow(l, s, id, key);
    case DoComplete(id) => CompleteWindow(l, s, id, key);
    case DoFail(id) => CompleteWindow(l, s, id, key);
    case DoPanic(id) => CompleteWindow(l, s, id, key);
    case DoRecord(o, now) => RecordWindow(l, s, o, now, key);
    case DoShutdown =>
  }

  /** What one step makes of the window of any key. */
  lemma {:induction false} StepWindow(l: Limits, s: State, a: Step, key: string)
    ensures Window(Do(l, s, a), key) ==
            if Opens(l, s, a, key) then Some(a.now + l.ttl)
            else if Frees(s, a, key) then None
            else Window(s, key)
  {
    hide CleanFrom, Activate, Overdue, KeyOf, DedupKey, Position, Grants;
    match a
    case DoActivate(r, pid, now) =>
      ActivateWindow(l, s, r, pid, now, key);
      CleanFrees(s, 0, now, key);
    case DoClean(now) => CleanFrees(s, 0, now, key);
    case _ => ExitWindow(l, s, a, key);
  }

  // ----- Runs -----

  /** Some step of the run frees the key. */
  ghost predicate FreedIn(l: Limits, s: State, steps: seq<Step>, key: string)
    decreases |steps|
  {
    steps != [] && (Frees(s, steps[0], key) || FreedIn(l, Do(l, s, steps[0]), steps[1..], key))
  }

  /** Some step of the run is a granted activation of the subject. */
  ghost predicate OpenedIn(l: Limits, s: State, steps: seq<Step>, key: string)
    decreases |steps|
  {
    steps != [] && (Opens(l, s, steps[0], key) || OpenedIn(l, Do(l, s, steps[0]), steps[1..], key))
  }

  /** Over a run without a granted activation of the subject, its window is unchanged unless some step frees it. */
  lemma {:induction false} RunWindow(l: Limits, s: State, steps: seq<Step>, key: string)
    requires !OpenedIn(l, s, steps, key)
    ensures Window(DoAll(l, s, steps), key) == if FreedIn(l, s, steps, key) then None else Window(s, key)
    decreases |steps|
  {
    hide Do, Opens, Frees;
    if steps != [] {
      StepWindow(l, s, steps[0], key);
      RunWindow(l, Do(l, s, steps[0]), steps[1..], key);
    }
  }

  /**
   * Exactly when a root activation of a subject is suppressed after the latest one that was
   * granted, whatever happened in between: its time is not over, no step since then freed the
   * key, and no active record of the subject has outlived its own time, since expiring that
   * one frees the key now.
   */
  lemma {:induction false} DuplicateSuppressed(l: Limits, s: State, first: Request, pid: Option<nat>, now: int,
                                               steps: seq<Step>, again: Request, pid2: Option<nat>, later: int)
    requires var key := DedupKey(again.workspace, again.action, again.path);
             again.parent == "" && Opens(l, s, DoActivate(first, pid, now), key)
             && !OpenedIn(l, Activate(l, s, first, pid, now), steps, key)
    ensures var key := DedupKey(again.workspace, again.action, again.path);
            var t := Activate(l, s, first, pid, now);
            var u := DoAll(l, t, steps);
            (Activate(l, u, again, pid2, later) == Clean(u, later)) <==>
            (later < now + l.ttl && !FreedIn(l, t, steps, key) && !Overdue(u.acts, 0, key, later))
  {
    hide Activate, CleanFrom, Overdue, DedupKey, Opens, FreedIn, OpenedIn, DoAll;
    var key := DedupKey(again.workspace, again.action, again.path);
    var t := Activate(l, s, first, pid, now);
    StepWindow(l, s, DoActivate(first, pid, now), key);
    RunWindow(l, t, steps, key);
    var u := DoAll(l, t, steps);
    CleanFrees(u, 0, later, key);
    NotSuppressedCounts(l, u, again, pid2, later);
  }

  /** A root activation that is not suppressed moves the counter on. */
  lemma {:induction false} NotSuppressedCounts(l: Limits, s: State, r: Request, pid: Option<nat>, now: int)
    requires r.parent == ""
    ensures var cleaned, key := Clean(s, now), DedupKey(r.workspace, r.action, r.path);
            Activate(l, s, r, pid, now) == cleaned <==> key in cleaned.dedup && now < cleaned.dedup[key]
  {
    hide CleanFrom, DedupKey, ActorId, LineageId, ActiveCount;
    var cleaned, key := Clean(s, now), DedupKey(r.workspace, r.action, r.path);
    if !(key in cleaned.dedup && now < cleaned.dedup[key]) {
      assert Activate(l, s, r, pid, now).counter == cleaned.counter + 1;
    }
  }

  // ----- The key is not unique -----

  /** A root activation that nothing speaks against. */
  lemma {:induction false} RootGranted(l: Limits, s: State, r: Request, pid: nat, now: int)
    requires r.parent == "" && !s.closed && Clean(s, now) == s && DedupKey(r.workspace, r.action, r.path) !in s.dedup
    requires ActiveCount(s.acts) < l.maxActive && 1 <= l.maxDepth && 0 <= l.maxBudget
    ensures var n := s.counter + 1;
            var a := NewAct(l, n, r, now, LineageId(n), "", 1, l.maxBudget, 1, Active);
            Activate(l, s, r, Some(pid), now) ==
            State(s.acts + [a], s.dedup[DedupKey(r.workspace, r.action, r.path) := now + l.ttl], s.live[ActorId(n) := pid],
                  s.timers[ActorId(n) := now + l.ttl], s.results, n, false)
  {
    hide CleanFrom, DedupKey, ActorId, LineageId, ActiveCount;
  }

  lemma {:induction false} NothingOverdue(s: State, i: nat, now: int)
    requires i <= |s.acts| && forall j :: i <= j < |s.acts| && s.acts[j].status.Active? ==> now <= s.acts[j].expires
    ensures CleanFrom(s, i, now) == s
    decreases |s.acts| - i
  {
    if i < |s.acts| {
      NothingOverdue(s, i + 1, now);
    }
  }

  /** The n-th record, granted. */
  function NthAct(l: Limits, n: nat, r: Request, now: int): Act {
    NewAct(l, n, r, now, LineageId(n), "", 1, l.maxBudget, 1, Active)
  }

  lemma {:induction false} ActiveOne(acts: seq<Act>, a: Act)
    ensures ActiveCount([]) == 0
    ensures ActiveCount(acts + [a]) == ActiveCount(acts) + if a.status.Active? then 1 else 0
  {
    assert (acts + [a])[..|acts|] == acts;
  }

  /** One more root activation in this history of one subject. */
  lemma {:induction false} ActivateNth(l: Limits, s: State, r: Request, pid: nat, now: int)
    requires r.parent == "" && !s.closed && l.ttl >= 0 && DedupKey(r.workspace, r.action, r.path) !in s.dedup
    requires forall j :: 0 <= j < |s.acts| ==> s.acts[j].expires == now + l.ttl
    requires ActiveCount(s.acts) < l.maxActive && 1 <= l.maxDepth && 0 <= l.maxBudget
    ensures var t := Activate(l, s, r, Some(pid), now);
            && t.acts == s.acts + [NthAct(l, s.counter + 1, r, now)] && t.counter == s.counter + 1 && !t.closed
            && t.dedup == s.dedup[DedupKey(r.workspace, r.action, r.path) := now + l.ttl]
            && t.live == s.live[ActorId(s.counter + 1) := pid]
  {
    NothingOverdue(s, 0, now);
    RootGranted(l, s, r, pid, now);
    hide Activate, CleanFrom, DedupKey, ActorId, LineageId, ActiveCount, NewAct;
  }

  /** Completing the first record, for the first time or again. */
  lemma {:induction false} CompleteFirst(s: State, id: string, key: string)
    requires s.acts != [] && s.acts[0].id == id && KeyOf(s.acts[0]) == key
    ensures var t := Complete(s, id);
            && t.acts == (if s.acts[0].status.Active? then [s.acts[0].(status := Completed)] + s.acts[1..] else s.acts)
            && t.dedup == s.dedup - {key} && t.counter == s.counter && t.closed == s.closed
  {
    hide KeyOf;
    assert Position(s.acts, id) == 0;
  }

  lemma {:induction false} FiveSteps(l: Limits, s: State, a: Step, b: Step, c: Step, d: Step, e: Step)
    ensures DoAll(l, s, [a, b, c, d, e]) == Do(l, Do(l, Do(l, Do(l, Do(l, s, a), b), c), d), e)
  {
    hide Do;
    assert [a, b, c, d, e][1..] == [b, c, d, e] && [b, c, d, e][1..] == [c, d, e] && [c, d, e][1..] == [d, e] && [d, e][1..] == [e];
    assert [e][1..] == [];
    var s1 := Do(l, s, a);
    var s2 := Do(l, s1, b);
    var s3 := Do(l, s2, c);
    var s4 := Do(l, s3, d);
    assert DoAll(l, s4, [e]) == Do(l, s4, e);
    assert DoAll(l, s3, [d, e]) == DoAll(l, s4, [e]);
    assert DoAll(l, s2, [c, d, e]) == DoAll(l, s3, [d, e]);
  }

  lemma {:induction false} NthFields(l: Limits, n: nat, r: Request, now: int)
    ensures var a := NthAct(l, n, r, now);
            && a.status.Active? && a.id == ActorId(n) && a.lineage == LineageId(n) && a.expires == now + l.ttl
            && KeyOf(a) == DedupKey(r.workspace, r.action, r.path)
  {
    hide ActorId, LineageId, DedupKey;
  }

  /**
   * Two active records of one subject: activate, complete, activate again, complete the first
   * one again, which frees the key of the second, and activate once more.
   */
  lemma {:induction false} RepeatedCompletionFreesAnother(l: Limits, r: Request, p1: nat, p2: nat, p3: nat, now: int)
    requires r.parent == "" && l.maxActive >= 2 && l.maxDepth >= 1 && l.maxBudget >= 0 && l.ttl >= 0
    ensures var steps := [DoActivate(r, Some(p1), now), DoComplete(ActorId(1)), DoActivate(r, Some(p2), now), DoComplete(ActorId(1)),
                          DoActivate(r, Some(p3), now)];
            var acts := DoAll(l, Empty, steps).acts;
            && |acts| == 3 && acts[1].status.Active? && acts[2].status.Active? && KeyOf(acts[1]) == KeyOf(acts[2])
            && acts[1].lineage != acts[2].lineage
  {
    hide DedupKey, ActorId, LineageId, Activate, Complete, NthAct, KeyOf, DoAll, ActiveCount;
    var key := DedupKey(r.workspace, r.action, r.path);
    var a1, a2, a3 := NthAct(l, 1, r, now), NthAct(l, 2, r, now), NthAct(l, 3, r, now);
    var over := a1.(status := Completed);
    NthFields(l, 1, r, now);
    NthFields(l, 2, r, now);
    NthFields(l, 3, r, now);
    OverKey(a1);
    NamesInjective(2, 3);
    FiveSteps(l, Empty, DoActivate(r, Some(p1), now), DoComplete(ActorId(1)), DoActivate(r, Some(p2), now), DoComplete(ActorId(1)),
              DoActivate(r, Some(p3), now));
    ActiveOne([], over);
    ActiveOne([over], a2);
    ActivateNth(l, Empty, r, p1, now);
    var s1 := Activate(l, Empty, r, Some(p1), now);
    assert s1.acts == [a1];
    CompleteFirst(s1, ActorId(1), key);
    var s2 := Complete(s1, ActorId(1));
    assert s2.acts == [over] == [] + [over];
    ActivateNth(l, s2, r, p2, now);
    var s3 := Activate(l, s2, r, Some(p2), now);
    assert s3.acts == [over, a2] == [over] + [a2];
    CompleteFirst(s3, ActorId(1), key);
    var s4 := Complete(s3, ActorId(1));
    ActivateNth(l, s4, r, p3, now);
  }

  lemma {:induction false} OverKey(a: Act)
    ensures KeyOf(a.(status := Completed)) == KeyOf(a)
  {
  }
}
