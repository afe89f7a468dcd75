/**
 * Exactly when one subject comes to have two active records: what an activation must meet to be
 * admitted, in terms of the state before it, and so which step of which run doubles a key.
 */
module KeyUniqueness {
  import opened Wrappers
  import opened Activations
  import opened ActivationTheory
  import opened DedupWindow

  // ----- The records after cleaning -----

  /** The records once every overdue one from i on has expired. */
  function Cleaned(acts: seq<Act>, i: nat, now: int): seq<Act> {
    seq(|acts|, k requires 0 <= k < |acts| =>
      if k >= i && acts[k].status.Active? && now > acts[k].expires then acts[k].(status := Expired) else acts[k])
  }

  lemma {:induction false} CleanActs(s: State, i: nat, now: int)
    requires i <= |s.acts|
    ensures var t := CleanFrom(s, i, now);
            t.acts == Cleaned(s.acts, i, now) && t.counter == s.counter && t.closed == s.closed
    decreases |s.acts| - i
  {
    hide KeyOf;
    if i < |s.acts| {
      if s.acts[i].status.Active? && now > s.acts[i].expires {
        CleanActs(ExpireAt(s, i), i + 1, now);
        assert Cleaned(ExpireAt(s, i).acts, i + 1, now) == Cleaned(s.acts, i, now);
      } else {
        CleanActs(s, i + 1, now);
        assert Cleaned(s.acts, i + 1, now) == Cleaned(s.acts, i, now);
      }
    } else {
      assert Cleaned(s.acts, i, now) == s.acts;
    }
  }

  lemma {:induction false} SamePosition(a: seq<Act>, b: seq<Act>, id: string)
    requires |a| == |b| && forall k :: 0 <= k < |a| ==> a[k].id == b[k].id
    ensures Position(a, id) == Position(b, id)
  {
    if a != [] {
      assert a[0].id == b[0].id;
      forall k | 0 <= k < |a| - 1 ensures a[1..][k].id == b[1..][k].id {
        assert a[k + 1].id == b[k + 1].id;
      }
      SamePosition(a[1..], b[1..], id);
    }
  }

  // ----- Exactly when an activation is admitted -----

  /** The window of the subject suppresses a root activation, once the overdue records are gone. */
  ghost predicate WindowOpen(s: State, key: string, now: int) {
    key in s.dedup && now < s.dedup[key] && !Overdue(s.acts, 0, key, now)
  }

  /** The record that an activation adds if it is admitted. */
  function Newcomer(l: Limits, s: State, r: Request, now: int): Act {
    var n := s.counter + 1;
    var i := Position(s.acts, r.parent);
    if r.parent == "" || i == |s.acts| then NewAct(l, n, r, now, LineageId(n), "", 1, l.maxBudget, 1, Active)
    else
      var p := s.acts[i];
      NewAct(l, n, r, now, p.lineage, r.parent, p.depth + 1, p.remaining - 1, p.count + 1, Active)
  }

  /** A root: the window is shut and the limits allow a root at all. */
  ghost predicate RootMay(l: Limits, s: State, r: Request, now: int) {
    !WindowOpen(s, DedupKey(r.workspace, r.action, r.path), now) && 1 <= l.maxDepth && 0 <= l.maxBudget
  }

  /** A child: a parent with a lineage, another subject than the parent's and than any active one of the lineage, depth and budget left. */
  ghost predicate ChildMay(l: Limits, s: State, r: Request, now: int) {
    var i := Position(s.acts, r.parent);
    && i < |s.acts| && s.acts[i].lineage != "" && !Cycle(s.acts[i], r)
    && !Busy(Cleaned(s.acts, 0, now), s.acts[i].lineage, r.workspace, r.action, r.path)
    && s.acts[i].depth + 1 <= l.maxDepth && s.acts[i].remaining - 1 >= 0
  }

  /** What an activation must meet: the system is open, the spawn succeeds, there is room, and its own kind's conditions. */
  ghost predicate Admits(l: Limits, s: State, r: Request, pid: Option<nat>, now: int) {
    && !s.closed && pid.Some? && ActiveCount(Cleaned(s.acts, 0, now)) < l.maxActive
    && (if r.parent == "" then RootMay(l, s, r, now) else ChildMay(l, s, r, now))
  }

  /** These records, and at most one more that is not active. */
  predicate NoneAdded(before: seq<Act>, after: seq<Act>) {
    Extends(before, after) && (|after| > |before| ==> !after[|before|].status.Active?)
  }

  lemma {:induction false} RefusedAdds(s: State, a: Act)
    requires !a.status.Active?
    ensures NoneAdded(s.acts, Added(s, a).acts) && NoneAdded(s.acts, s.acts) && Added(s, a).closed == s.closed
  {
    AddedExtends(s.acts, a);
  }

  lemma {:induction false} AdmitAdds(l: Limits, s: State, active: nat, a: Act, pid: Option<nat>, now: int)
    requires a.status.Active?
    ensures var t := Admit(l, s, active, a, pid, now);
            if !s.closed && pid.Some? && active < l.maxActive then t.acts == s.acts + [a] else NoneAdded(s.acts, t.acts)
    ensures Admit(l, s, active, a, pid, now).closed == s.closed
  {
    hide KeyOf;
    AddedExtends(s.acts, a);
    AddedExtends(s.acts, a.(status := RejectedBudget));
    AddedExtends(s.acts, a.(status := Failed));
    assert (s.acts + [a])[|s.acts| := a.(status := Failed)] == s.acts + [a.(status := Failed)];
  }

  lemma {:induction false} RootAdds(l: Limits, s: State, active: nat, r: Request, pid: Option<nat>, now: int)
    ensures var t := ActivateRoot(l, s, active, r, pid, now);
            if !s.closed && pid.Some? && active < l.maxActive && 1 <= l.maxDepth && 0 <= l.maxBudget
            then t.acts == s.acts + [NewAct(l, s.counter, r, now, LineageId(s.counter), "", 1, l.maxBudget, 1, Active)]
            else NoneAdded(s.acts, t.acts)
    ensures ActivateRoot(l, s, active, r, pid, now).closed == s.closed
  {
    hide LineageId, Added, Admit, NoneAdded, ActorId;
    var root := NewAct(l, s.counter, r, now, LineageId(s.counter), "", 1, l.maxBudget, 1, Active);
    RefusedAdds(s, root.(status := RejectedDepth));
    RefusedAdds(s, root.(status := RejectedBudgetExhausted));
    AdmitAdds(l, s, active, root, pid, now);
  }

  lemma {:induction false} ChildAdds(l: Limits, s: State, active: nat, r: Request, pid: Option<nat>, now: int)
    ensures var t := ActivateChild(l, s, active, r, pid, now);
            var i := Position(s.acts, r.parent);
            if !s.closed && pid.Some? && active < l.maxActive && i < |s.acts| && s.acts[i].lineage != "" && !Cycle(s.acts[i], r)
               && !Busy(s.acts, s.acts[i].lineage, r.workspace, r.action, r.path)
               && s.acts[i].depth + 1 <= l.maxDepth && s.acts[i].remaining - 1 >= 0
            then
              var p := s.acts[i];
              t.acts == s.acts + [NewAct(l, s.counter, r, now, p.lineage, r.parent, p.depth + 1, p.remaining - 1, p.count + 1, Active)]
            else NoneAdded(s.acts, t.acts)
    ensures ActivateChild(l, s, active, r, pid, now).closed == s.closed
  {
    hide Position, Busy, Cycle, Added, Admit, NoneAdded, ActorId;
    var i := Position(s.acts, r.parent);
    if i == |s.acts| || s.acts[i].lineage == "" {
      RefusedAdds(s, Orphan(l, s.counter, r, now));
    } else {
      var p := s.acts[i];
      var child := NewAct(l, s.counter, r, now, p.lineage, r.parent, p.depth + 1, p.remaining - 1, p.count + 1, Active);
      RefusedAdds(s, child.(count := 1, status := RejectedCycle));
      RefusedAdds(s, child.(status := RejectedDepth));
      RefusedAdds(s, child.(status := RejectedBudgetExhausted));
      AdmitAdds(l, s, active, child, pid, now);
    }
  }

  /**
   * Exactly when an activation adds an active record, in terms of the state before it: the
   * records are then those that cleaning leaves and the newcomer, and otherwise those that
   * cleaning leaves and at most one that is not active.
   */
  lemma {:induction false} AdmittedExactly(l: Limits, s: State, r: Request, pid: Option<nat>, now: int)
    ensures var t := Activate(l, s, r, pid, now);
            var left := Cleaned(s.acts, 0, now);
            && (if Admits(l, s, r, pid, now) then t.acts == left + [Newcomer(l, s, r, now)] else NoneAdded(left, t.acts))
            && t.closed == s.closed
  {
    hide CleanFrom, Cleaned, Overdue, DedupKey, ActorId, LineageId, ActiveCount, ActivateRoot, ActivateChild, Position, Busy, Cycle, NoneAdded;
    var clean, left, key := Clean(s, now), Cleaned(s.acts, 0, now), DedupKey(r.workspace, r.action, r.path);
    CleanActs(s, 0, now);
    CleanFrees(s, 0, now, key);
    var counted, active := clean.(counter := clean.counter + 1), ActiveCount(left);
    RootAdds(l, counted, active, r, pid, now);
    ChildAdds(l, counted, active, r, pid, now);
    CleanedParent(s, r.parent, now);
    NothingMore(left);
  }

  lemma {:induction false} NothingMore(acts: seq<Act>)
    ensures NoneAdded(acts, acts)
  {
    assert acts[..|acts|] == acts;
  }

  /** Cleaning changes nothing of a record but its status. */
  lemma {:induction false} CleanedParent(s: State, id: string, now: int)
    ensures var left := Cleaned(s.acts, 0, now);
            var i := Position(s.acts, id);
            && |left| == |s.acts| && Position(left, id) == i
            && (i < |s.acts| ==> left[i] == s.acts[i].(status := left[i].status) && forall r :: Cycle(left[i], r) == Cycle(s.acts[i], r))
  {
    SamePosition(s.acts, Cleaned(s.acts, 0, now), id);
    hide Position;
  }

  // ----- Exactly when a key is doubled -----

  /** An active record of this key. */
  predicate Bears(a: Act, key: string) {
    a.status.Active? && KeyOf(a) == key
  }

  /** At most one active record of this key. */
  ghost predicate Single(acts: seq<Act>, key: string) {
    forall i, j :: 0 <= i < j < |acts| ==> !(Bears(acts[i], key) && Bears(acts[j], key))
  }

  /** An active record of the key whose time is not over, or is over at this very moment. */
  ghost predicate StillThere(acts: seq<Act>, key: string, now: int) {
    exists i :: 0 <= i < |acts| && Bears(acts[i], key) && now <= acts[i].expires
  }

  /** The step is an activation of the key that is admitted while an active record of it is still there. */
  ghost predicate Doubles(l: Limits, s: State, a: Step, key: string) {
    a.DoActivate? && DedupKey(a.r.workspace, a.r.action, a.r.path) == key
    && Admits(l, s, a.r, a.pid, a.now) && StillThere(s.acts, key, a.now)
  }

  lemma {:induction false} CleanedKeeps(acts: seq<Act>, key: string, now: int)
    ensures var left := Cleaned(acts, 0, now);
            && |left| == |acts|
            && (forall i :: 0 <= i < |acts| ==> (Bears(left[i], key) <==> Bears(acts[i], key) && now <= acts[i].expires))
            && (Single(acts, key) ==> Single(left, key))
  {
    hide DedupKey;
  }

  lemma {:induction false} NewcomerBears(l: Limits, s: State, r: Request, now: int, key: string)
    ensures Bears(Newcomer(l, s, r, now), key) <==> DedupKey(r.workspace, r.action, r.path) == key
  {
    hide DedupKey, ActorId, LineageId, Position;
  }

  lemma {:induction false} ActivateSingle(l: Limits, s: State, r: Request, pid: Option<nat>, now: int, key: string)
    requires Single(s.acts, key)
    ensures Single(Activate(l, s, r, pid, now).acts, key) <==> !Doubles(l, s, DoActivate(r, pid, now), key)
  {
    hide Cleaned, DedupKey, Newcomer, Admits, Activate, Bears;
    AdmittedExactly(l, s, r, pid, now);
    CleanedKeeps(s.acts, key, now);
    NewcomerBears(l, s, r, now, key);
    var left, t := Cleaned(s.acts, 0, now), Activate(l, s, r, pid, now);
    if Admits(l, s, r, pid, now) {
      SingleAdded(left, Newcomer(l, s, r, now), key);
      assert StillThere(s.acts, key, now) <==> exists i :: 0 <= i < |left| && Bears(left[i], key);
    } else {
      NoneBears(left, t.acts, key);
    }
  }

  lemma {:induction false} SingleAdded(acts: seq<Act>, a: Act, key: string)
    requires Single(acts, key)
    ensures Single(acts + [a], key) <==> !(Bears(a, key) && exists i :: 0 <= i < |acts| && Bears(acts[i], key))
  {
    hide Bears;
    var all := acts + [a];
    assert all[|acts|] == a && forall i :: 0 <= i < |acts| ==> all[i] == acts[i];
    if Bears(a, key) && exists i :: 0 <= i < |acts| && Bears(acts[i], key) {
      var i :| 0 <= i < |acts| && Bears(acts[i], key);
      assert Bears(all[i], key) && Bears(all[|acts|], key);
    }
  }

  lemma {:induction false} NoneBears(before: seq<Act>, after: seq<Act>, key: string)
    requires NoneAdded(before, after) && Single(before, key)
    ensures Single(after, key)
  {
    hide KeyOf;
    assert forall i :: 0 <= i < |before| ==> after[i] == after[..|before|][i] == before[i];
  }

  /** Records only end: no key gains an active record. */
  lemma {:induction false} EndingKeepsSingle(s: State, t: State, key: string)
    requires Evolves(s, t) && |t.acts| == |s.acts| && Single(s.acts, key)
    ensures Single(t.acts, key)
  {
    hide DedupKey;
    forall i | 0 <= i < |s.acts| ensures Bears(t.acts[i], key) ==> Bears(s.acts[i], key) {
      assert Later(s.acts[i], t.acts[i]);
    }
  }

  lemma {:induction false} OnlyActivationsAdd(l: Limits, s: State, a: Step)
    requires Inv(l, s) && !a.DoActivate?
    ensures |Do(l, s, a).acts| == |s.acts|
  {
    hide Inv, Leaves, CleanFrom;
    match a
    case DoClean(now) => CleanActs(s, 0, now);
    case DoShutdown =>
    case _ =>
      ExitLeaves(l, s, a);
      LeavesEvolves(s, Do(l, s, a));
  }

  /** Exactly which step gives a key with at most one active record a second one. */
  lemma {:induction false} StepSingleExactly(l: Limits, s: State, a: Step, key: string)
    requires Inv(l, s) && Single(s.acts, key)
    ensures Single(Do(l, s, a).acts, key) <==> !Doubles(l, s, a, key)
  {
    if a.DoActivate? {
      ActivateSingle(l, s, a.r, a.pid, a.now, key);
    } else {
      hide Inv, Do, Evolves, Single;
      StepEvolves(l, s, a);
      OnlyActivationsAdd(l, s, a);
      EndingKeepsSingle(s, Do(l, s, a), key);
    }
  }

  // ----- Runs -----

  /** The key has at most one active record all along the run. */
  ghost predicate SingleAlong(l: Limits, s: State, steps: seq<Step>, key: string)
    decreases |steps|
  {
    Single(s.acts, key) && (steps == [] || SingleAlong(l, Do(l, s, steps[0]), steps[1..], key))
  }

  ghost predicate DoublesIn(l: Limits, s: State, steps: seq<Step>, key: string)
    decreases |steps|
  {
    steps != [] && (Doubles(l, s, steps[0], key) || DoublesIn(l, Do(l, s, steps[0]), steps[1..], key))
  }

  lemma {:induction false} RunSingleExactly(l: Limits, s: State, steps: seq<Step>, key: string)
    requires Inv(l, s) && Single(s.acts, key)
    ensures SingleAlong(l, s, steps, key) <==> !DoublesIn(l, s, steps, key)
    decreases |steps|
  {
    hide Inv, Do, Single, Doubles;
    if steps != [] {
      StepSingleExactly(l, s, steps[0], key);
      StepKeeps(l, s, steps[0]);
      if Single(Do(l, s, steps[0]).acts, key) {
        RunSingleExactly(l, Do(l, s, steps[0]), steps[1..], key);
      } else {
        NotAlong(l, Do(l, s, steps[0]), steps[1..], key);
      }
    }
  }

  lemma {:induction false} NotAlong(l: Limits, s: State, steps: seq<Step>, key: string)
    requires !Single(s.acts, key)
    ensures !SingleAlong(l, s, steps, key)
  {
  }

  /** Over every run from the start a key has at most one active record all along exactly if no step doubles it. */
  lemma {:induction false} KeyUniqueExactly(l: Limits, steps: seq<Step>, key: string)
    requires l.maxActive >= 0
    ensures SingleAlong(l, Empty, steps, key) <==> !DoublesIn(l, Empty, steps, key)
  {
    hide Inv, Do;
    EmptyIsInv(l);
    RunSingleExactly(l, Empty, steps, key);
  }

  // ----- Three things to avoid -----

  /** The key has at most one active record, and its window closes when that record's time is over. */
  ghost predicate Guarded(s: State, key: string) {
    Single(s.acts, key) && forall i :: 0 <= i < |s.acts| && Bears(s.acts[i], key) ==> Window(s, key) == Some(s.acts[i].expires)
  }

  /** No child takes the key, no activation of it comes at the very moment its active record's time is over, no ended record is completed. */
  ghost predicate Careful(s: State, a: Step, key: string) {
    match a
    case DoActivate(r, _, now) =>
      DedupKey(r.workspace, r.action, r.path) == key ==>
        r.parent == "" && forall i :: 0 <= i < |s.acts| && Bears(s.acts[i], key) ==> now != s.acts[i].expires
    case DoComplete(id) => Names(s, id, key) ==> NamesActive(s, id, key) || forall i :: 0 <= i < |s.acts| ==> !Bears(s.acts[i], key)
    case _ => true
  }

  /** Bearers after a step are bearers before it. */
  ghost predicate BearersStay(s: State, t: State, key: string) {
    |s.acts| <= |t.acts| && forall i :: 0 <= i < |t.acts| && Bears(t.acts[i], key) ==> i < |s.acts| && t.acts[i] == s.acts[i]
  }

  lemma {:induction false} StayGuarded(s: State, t: State, key: string)
    requires Guarded(s, key) && BearersStay(s, t, key)
    requires (exists i :: 0 <= i < |t.acts| && Bears(t.acts[i], key)) ==> Window(t, key) == Window(s, key)
    ensures Guarded(t, key)
  {
    hide Bears;
  }

  /** An active record that the step names is not active after it. */
  lemma {:induction false} NamedEnds(l: Limits, s: State, a: Step, key: string)
    requires !a.DoActivate? && !a.DoClean? && Frees(s, a, key)
    ensures var id := if a.DoRecord? then a.o.actor else a.id;
            var i := Position(s.acts, id);
            i < |s.acts| && |Do(l, s, a).acts| == |s.acts| && !Do(l, s, a).acts[i].status.Active?
  {
    hide KeyOf, Position;
  }

  lemma {:induction false} EndingStays(s: State, t: State, key: string)
    requires Evolves(s, t) && |t.acts| == |s.acts|
    ensures BearersStay(s, t, key)
  {
    hide KeyOf;
    forall i | 0 <= i < |t.acts| && Bears(t.acts[i], key) ensures t.acts[i] == s.acts[i] {
      assert Later(s.acts[i], t.acts[i]);
    }
  }

  lemma {:induction false} ExitGuarded(l: Limits, s: State, a: Step, key: string)
    requires Inv(l, s) && Guarded(s, key) && Careful(s, a, key) && !a.DoActivate? && !a.DoClean?
    ensures Guarded(Do(l, s, a), key)
  {
    hide Inv, Do, KeyOf, Position, Window, Evolves;
    var t := Do(l, s, a);
    StepEvolves(l, s, a);
    OnlyActivationsAdd(l, s, a);
    EndingStays(s, t, key);
    StepWindow(l, s, a, key);
    if Frees(s, a, key) {
      NamedEnds(l, s, a, key);
    }
    StayGuarded(s, t, key);
  }

  /** Cleaning: if it frees the key it ends the one record that bears it. */
  lemma {:induction false} CleanedGuarded(s: State, now: int, key: string)
    requires Guarded(s, key)
    ensures var left := Cleaned(s.acts, 0, now);
            && |left| == |s.acts|
            && (forall i :: 0 <= i < |left| && Bears(left[i], key) ==> left[i] == s.acts[i] && now <= s.acts[i].expires)
            && (Overdue(s.acts, 0, key, now) ==> forall i :: 0 <= i < |left| ==> !Bears(left[i], key))
  {
    hide KeyOf, Window;
  }

  lemma {:induction false} CleanGuarded(l: Limits, s: State, now: int, key: string)
    requires Guarded(s, key)
    ensures Guarded(Clean(s, now), key)
  {
    hide CleanFrom, Cleaned, Bears, Window, Overdue;
    CleanActs(s, 0, now);
    CleanedGuarded(s, now, key);
    StepWindow(l, s, DoClean(now), key);
    StayGuarded(s, Clean(s, now), key);
  }

  /** A root activation that adds a granted record finds no record of its key any more. */
  lemma {:induction false} GrantFindsNone(l: Limits, s: State, r: Request, pid: Option<nat>, now: int, key: string)
    requires Guarded(s, key) && Careful(s, DoActivate(r, pid, now), key) && Opens(l, s, DoActivate(r, pid, now), key)
    ensures forall i :: 0 <= i < |s.acts| ==> !Bears(Cleaned(s.acts, 0, now)[i], key)
  {
    hide CleanFrom, Cleaned, Activate, Overdue, DedupKey, Granted, Bears;
    CleanedGuarded(s, now, key);
    CleanFrees(s, 0, now, key);
    NotSuppressedCounts(l, s, r, pid, now);
  }

  lemma {:induction false} ActivateGuarded(l: Limits, s: State, r: Request, pid: Option<nat>, now: int, key: string)
    requires Guarded(s, key) && Careful(s, DoActivate(r, pid, now), key)
    ensures Guarded(Activate(l, s, r, pid, now), key)
  {
    hide Cleaned, DedupKey, Newcomer, Admits, Activate, Bears, CleanFrom, Window, Overdue, Granted;
    var a, left, t := DoActivate(r, pid, now), Cleaned(s.acts, 0, now), Activate(l, s, r, pid, now);
    CleanActs(s, 0, now);
    CleanedGuarded(s, now, key);
    StepWindow(l, s, a, key);
    if Opens(l, s, a, key) {
      GrantFindsNone(l, s, r, pid, now, key);
      OpenedLast(l, s, r, pid, now, key);
      LastOnly(left, t.acts, key);
    } else {
      NotOpened(l, s, r, pid, now, key);
      BearersOfLeft(s, left, t, key);
      StayGuarded(s, t, key);
    }
  }

  /** A granted activation adds one record; if that is active its time is over when the window closes. */
  lemma {:induction false} OpenedLast(l: Limits, s: State, r: Request, pid: Option<nat>, now: int, key: string)
    requires Opens(l, s, DoActivate(r, pid, now), key)
    ensures var left, t := Cleaned(s.acts, 0, now), Activate(l, s, r, pid, now);
            && |t.acts| == |left| + 1 && t.acts[..|left|] == left
            && (Bears(t.acts[|left|], key) ==> t.acts[|left|].expires == now + l.ttl)
  {
    hide Cleaned, DedupKey, Newcomer, Admits, Activate, CleanFrom, KeyOf;
    AdmittedExactly(l, s, r, pid, now);
    CleanActs(s, 0, now);
    NewcomerFields(l, s, r, now);
    AddedExtends(Cleaned(s.acts, 0, now), Newcomer(l, s, r, now));
  }

  lemma {:induction false} NewcomerFields(l: Limits, s: State, r: Request, now: int)
    ensures Newcomer(l, s, r, now).expires == now + l.ttl && Newcomer(l, s, r, now).status.Active?
  {
    hide DedupKey, ActorId, LineageId, Position;
  }

  /** With no bearer before it, only the last record can bear the key. */
  lemma {:induction false} LastOnly(before: seq<Act>, after: seq<Act>, key: string)
    requires |before| <= |after| <= |before| + 1 && after[..|before|] == before
    requires forall i :: 0 <= i < |before| ==> !Bears(before[i], key)
    ensures forall i :: 0 <= i < |after| && Bears(after[i], key) ==> i == |before|
  {
    hide Bears;
    assert forall i :: 0 <= i < |before| ==> after[i] == after[..|before|][i];
  }

  /** An activation that grants nothing under the key adds no bearer of it. */
  lemma {:induction false} NotOpened(l: Limits, s: State, r: Request, pid: Option<nat>, now: int, key: string)
    requires !Opens(l, s, DoActivate(r, pid, now), key)
    ensures var left, t := Cleaned(s.acts, 0, now), Activate(l, s, r, pid, now);
            Extends(left, t.acts) && (|t.acts| > |left| ==> !Bears(t.acts[|left|], key))
  {
    hide Cleaned, DedupKey, Newcomer, Admits, Activate, CleanFrom;
    AdmittedExactly(l, s, r, pid, now);
    CleanActs(s, 0, now);
    NewcomerBears(l, s, r, now, key);
    AddedExtends(Cleaned(s.acts, 0, now), Newcomer(l, s, r, now));
  }

  lemma {:induction false} BearersOfLeft(s: State, left: seq<Act>, t: State, key: string)
    requires |left| == |s.acts| && Extends(left, t.acts) && (|t.acts| > |left| ==> !Bears(t.acts[|left|], key))
    requires forall i :: 0 <= i < |left| && Bears(left[i], key) ==> left[i] == s.acts[i]
    ensures BearersStay(s, t, key)
    ensures (exists i :: 0 <= i < |t.acts| && Bears(t.acts[i], key)) ==> exists i :: 0 <= i < |left| && Bears(left[i], key)
  {
    hide Bears;
    assert forall i :: 0 <= i < |left| ==> t.acts[i] == t.acts[..|left|][i];
  }

  lemma {:induction false} StepGuarded(l: Limits, s: State, a: Step, key: string)
    requires Inv(l, s) && Guarded(s, key) && Careful(s, a, key)
    ensures Guarded(Do(l, s, a), key)
  {
    hide Inv, Guarded, Careful, Activate, CleanFrom;
    match a
    case DoActivate(r, pid, now) => ActivateGuarded(l, s, r, pid, now, key);
    case DoClean(now) => CleanGuarded(l, s, now, key);
    case _ => ExitGuarded(l, s, a, key);
  }

  ghost predicate CarefulRun(l: Limits, s: State, steps: seq<Step>, key: string)
    decreases |steps|
  {
    steps == [] || (Careful(s, steps[0], key) && CarefulRun(l, Do(l, s, steps[0]), steps[1..], key))
  }

  lemma {:induction false} CarefulRunSingle(l: Limits, s: State, steps: seq<Step>, key: string)
    requires Inv(l, s) && Guarded(s, key) && CarefulRun(l, s, steps, key)
    ensures SingleAlong(l, s, steps, key)
    decreases |steps|
  {
    assert Single(s.acts, key);
    hide Inv, Do, Single, Careful, Guarded;
    if steps != [] {
      StepGuarded(l, s, steps[0], key);
      StepKeeps(l, s, steps[0]);
      CarefulRunSingle(l, Do(l, s, steps[0]), steps[1..], key);
    }
  }

  /**
   * A key has at most one active record all along every run from the start that avoids three
   * things: a child that takes the key, an activation at the very moment the active record's
   * time is over, and completing an ended record while another is active.
   */
  lemma {:induction false} CarefulKeepsKeyUnique(l: Limits, steps: seq<Step>, key: string)
    requires l.maxActive >= 0 && CarefulRun(l, Empty, steps, key)
    ensures SingleAlong(l, Empty, steps, key)
  {
    hide Inv, Do, CarefulRun;
    EmptyIsInv(l);
    CarefulRunSingle(l, Empty, steps, key);
  }

  // ----- Each of the three is enough -----

  lemma {:induction false} FirstRoot(l: Limits, r: Request, pid: nat, now: int)
    requires r.parent == "" && l.maxActive >= 1 && l.maxDepth >= 1 && l.maxBudget >= 0
    ensures var t := Activate(l, Empty, r, Some(pid), now);
            && t.acts == [NthAct(l, 1, r, now)] && !t.closed && t.counter == 1
            && t.dedup == map[DedupKey(r.workspace, r.action, r.path) := now + l.ttl]
  {
    hide DedupKey, ActorId, LineageId;
    assert Clean(Empty, now) == Empty;
  }

  lemma {:induction false} CleanedSame(acts: seq<Act>, now: int)
    requires forall i :: 0 <= i < |acts| ==> now <= acts[i].expires
    ensures Cleaned(acts, 0, now) == acts
  {
  }

  lemma {:induction false} TwoSteps(l: Limits, s: State, a: Step, b: Step)
    ensures DoAll(l, s, [a, b]) == Do(l, Do(l, s, a), b)
  {
    hide Do;
    assert [a, b][1..] == [b] && [b][1..] == [];
    assert DoAll(l, Do(l, s, a), [b]) == DoAll(l, Do(l, Do(l, s, a), b), []);
  }

  lemma {:induction false} ThreeSteps(l: Limits, s: State, a: Step, b: Step, c: Step)
    ensures DoAll(l, s, [a, b, c]) == Do(l, Do(l, Do(l, s, a), b), c)
  {
    hide Do;
    assert [a, b, c][1..] == [b, c];
    TwoSteps(l, Do(l, s, a), b, c);
  }

  /** Two active records of one subject: activate, and activate again at the very moment the first one's time is over. */
  lemma {:induction false} BoundaryDoubles(l: Limits, r: Request, p1: nat, p2: nat, now: int)
    requires r.parent == "" && l.maxActive >= 2 && l.maxDepth >= 1 && l.maxBudget >= 0 && l.ttl >= 0
    ensures var acts := DoAll(l, Empty, [DoActivate(r, Some(p1), now), DoActivate(r, Some(p2), now + l.ttl)]).acts;
            |acts| == 2 && acts[0].status.Active? && acts[1].status.Active? && KeyOf(acts[0]) == KeyOf(acts[1])
  {
    hide DedupKey, ActorId, LineageId, Activate, NthAct, KeyOf, DoAll, ActiveCount, Newcomer, Cleaned;
    TwoSteps(l, Empty, DoActivate(r, Some(p1), now), DoActivate(r, Some(p2), now + l.ttl));
    FirstRoot(l, r, p1, now);
    NthFields(l, 1, r, now);
    var s := Activate(l, Empty, r, Some(p1), now);
    CleanedSame(s.acts, now + l.ttl);
    ActiveOne([], s.acts[0]);
    assert s.acts == [] + [s.acts[0]];
    AdmittedExactly(l, s, r, Some(p2), now + l.ttl);
    NewcomerBears(l, s, r, now + l.ttl, DedupKey(r.workspace, r.action, r.path));
  }

  /** Two active records of one subject: activate two subjects, and then the second one again as a child of the first. */
  lemma {:induction false} ChildDoubles(l: Limits, x: Request, y: Request, p1: nat, p2: nat, p3: nat, now: int)
    requires x.parent == "" && y.parent == "" && l.maxActive >= 3 && l.maxDepth >= 2 && l.maxBudget >= 1 && l.ttl >= 0
    requires DedupKey(x.workspace, x.action, x.path) != DedupKey(y.workspace, y.action, y.path)
    ensures var child := y.(parent := ActorId(1));
            var acts := DoAll(l, Empty, [DoActivate(x, Some(p1), now), DoActivate(y, Some(p2), now), DoActivate(child, Some(p3), now)]).acts;
            && |acts| == 3 && acts[1].status.Active? && acts[2].status.Active? && KeyOf(acts[1]) == KeyOf(acts[2])
            && acts[2].lineage == acts[0].lineage
  {
    hide DedupKey, ActorId, LineageId, Activate, NthAct, KeyOf, DoAll, ActiveCount, Newcomer, Cleaned, ChildMay;
    var child, key := y.(parent := ActorId(1)), DedupKey(y.workspace, y.action, y.path);
    ThreeSteps(l, Empty, DoActivate(x, Some(p1), now), DoActivate(y, Some(p2), now), DoActivate(child, Some(p3), now));
    var a2 := TwoRoots(l, x, y, p1, p2, now);
    var a1, s1 := NthAct(l, 1, x, now), Activate(l, Empty, x, Some(p1), now);
    var s2 := Activate(l, s1, y, Some(p2), now);
    NthFields(l, 1, x, now);
    CleanedSame(s2.acts, now);
    ActiveOne([], a1);
    ActiveOne([a1], a2);
    assert s2.acts == [a1] + [a2] && [a1] == [] + [a1];
    ChildOfFirst(l, x, y, s2, a2, now);
    assert child.parent != "" by { NamesInjective(1, 1); }
    AdmittedExactly(l, s2, child, Some(p3), now);
    NewcomerBears(l, s2, child, now, key);
  }

  /** Two roots of different subjects, activated at one moment. */
  lemma {:induction false} TwoRoots(l: Limits, x: Request, y: Request, p1: nat, p2: nat, now: int) returns (a2: Act)
    requires x.parent == "" && y.parent == "" && l.maxActive >= 2 && l.maxDepth >= 1 && l.maxBudget >= 0 && l.ttl >= 0
    requires DedupKey(x.workspace, x.action, x.path) != DedupKey(y.workspace, y.action, y.path)
    ensures var s := Activate(l, Activate(l, Empty, x, Some(p1), now), y, Some(p2), now);
            && s.acts == [NthAct(l, 1, x, now), a2] && !s.closed
            && Bears(a2, DedupKey(y.workspace, y.action, y.path)) && a2.expires == now + l.ttl && a2.lineage != LineageId(1)
  {
    hide DedupKey, ActorId, LineageId, Activate, NthAct, KeyOf, ActiveCount, Newcomer, Cleaned;
    FirstRoot(l, x, p1, now);
    NthFields(l, 1, x, now);
    var s := Activate(l, Empty, x, Some(p1), now);
    var a1 := s.acts[0];
    CleanedSame(s.acts, now);
    ActiveOne([], a1);
    assert s.acts == [] + [a1];
    AdmittedExactly(l, s, y, Some(p2), now);
    NewcomerFields(l, s, y, now);
    NewcomerBears(l, s, y, now, DedupKey(y.workspace, y.action, y.path));
    SecondRootLineage(l, s, y, now);
    a2 := Newcomer(l, s, y, now);
    assert [a1] + [a2] == [a1, a2];
  }

  lemma {:induction false} SecondRootLineage(l: Limits, s: State, r: Request, now: int)
    requires r.parent == "" && s.counter == 1
    ensures Newcomer(l, s, r, now).lineage != LineageId(1)
  {
    NamesInjective(1, 2);
    hide ActorId, LineageId, Position;
  }

  /** Nothing speaks against the child. */
  lemma {:induction false} ChildOfFirst(l: Limits, x: Request, y: Request, s: State, a2: Act, now: int)
    requires s.acts == [NthAct(l, 1, x, now), a2] && a2.lineage != LineageId(1) && l.maxDepth >= 2 && l.maxBudget >= 1 && l.ttl >= 0
    requires a2.expires == now + l.ttl
    requires DedupKey(x.workspace, x.action, x.path) != DedupKey(y.workspace, y.action, y.path)
    ensures ChildMay(l, s, y.(parent := ActorId(1)), now)
    ensures Newcomer(l, s, y.(parent := ActorId(1)), now).lineage == LineageId(1)
  {
    NamesInjective(1, 1);
    hide ActorId, LineageId;
    CleanedSame(s.acts, now);
    assert Position(s.acts, ActorId(1)) == 0;
    hide DedupKey, Cleaned;
  }
}
