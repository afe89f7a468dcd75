/** What every controller call does to the records: which status an exit leaves, and what an activation adds and why. */
module ActivationAnswers {
  import opened Wrappers
  import opened Json
  import opened Decimal
  import opened Activations
  import opened ActivationTheory
  import opened DedupWindow
  import opened KeyUniqueness

  // ----- Exits -----

  /** The record a call names. */
  function NamedBy(a: Step): Option<string> {
    match a
    case DoExpire(id) => Some(id)
    case DoComplete(id) => Some(id)
    case DoFail(id) => Some(id)
    case DoStopped(id) => Some(id)
    case DoPanic(id) => Some(id)
    case DoRecord(o, _) => if o.actor == "" then None else Some(o.actor)
    case _ => None
  }

  /** The status that a call gives the record it names, if that is active. */
  function EndsAs(a: Step): Option<Status> {
    match a
    case DoExpire(_) => Some(Expired)
    case DoComplete(_) => Some(Completed)
    case DoFail(_) => Some(Failed)
    case DoPanic(_) => Some(Failed)
    case DoStopped(_) => Some(Passivated)
    case DoRecord(o, _) => if o.status in {"completed", "observation"} then Some(Completed) else None
    case _ => None
  }

  /** The records once the i-th, if it is there and active, has ended like this. */
  function EndedAt(s: State, id: string, status: Status): seq<Act> {
    var i := Position(s.acts, id);
    if i < |s.acts| && s.acts[i].status.Active? then s.acts[i := s.acts[i].(status := status)] else s.acts
  }

  /** The parts of an exit that leave records, counter and shutdown alone. */
  ghost predicate SameRecords(s: State, t: State) {
    t.acts == s.acts && t.counter == s.counter && t.closed == s.closed
  }

  lemma {:induction false} PartsKeepRecords(s: State, id: string, key: string)
    ensures SameRecords(s, StopLive(s, id)) && SameRecords(s, Unhooked(s, id)) && SameRecords(s, Freed(s, key))
  {
  }

  lemma {:induction false} StopsExactly(s: State, id: string)
    ensures Expire(s, id).acts == EndedAt(s, id, Expired) && Expire(s, id).counter == s.counter && Expire(s, id).closed == s.closed
    ensures Stopped(s, id).acts == EndedAt(s, id, Passivated) && Stopped(s, id).counter == s.counter && Stopped(s, id).closed == s.closed
  {
    hide KeyOf, Position, StopLive, Unhooked, Freed;
    var i := Position(s.acts, id);
    if i < |s.acts| {
      var key, e, p := KeyOf(s.acts[i]), Ended(s, i, Expired), Ended(s, i, Passivated);
      PartsKeepRecords(e, id, key);
      PartsKeepRecords(StopLive(e, id), id, key);
      PartsKeepRecords(p, id, key);
      PartsKeepRecords(Unhooked(p, id), id, key);
    }
    PartsKeepRecords(s, id, "");
  }

  lemma {:induction false} CompletesExactly(s: State, id: string)
    ensures Complete(s, id).acts == EndedAt(s, id, Completed) && Complete(s, id).counter == s.counter && Complete(s, id).closed == s.closed
  {
    hide KeyOf, Position, StopLive, Unhooked, Freed;
    var i := Position(s.acts, id);
    if i < |s.acts| {
      var key, e := KeyOf(s.acts[i]), Ended(s, i, Completed);
      PartsKeepRecords(e, id, key);
      PartsKeepRecords(StopLive(e, id), id, key);
      PartsKeepRecords(s, id, key);
      PartsKeepRecords(StopLive(s, id), id, key);
    }
  }

  lemma {:induction false} FailsExactly(s: State, id: string)
    ensures FailActor(s, id).acts == EndedAt(s, id, Failed) && FailActor(s, id).counter == s.counter && FailActor(s, id).closed == s.closed
    ensures Panicked(s, id).acts == EndedAt(s, id, Failed) && Panicked(s, id).counter == s.counter && Panicked(s, id).closed == s.closed
  {
    hide KeyOf, Position, StopLive, Unhooked, Freed;
    var i := Position(s.acts, id);
    PartsKeepRecords(s, id, "");
    if i < |s.acts| {
      PartsKeepRecords(Ended(s, i, Failed), id, "");
    }
  }

  lemma {:induction false} RecordsExactly(s: State, o: Outcome, now: int)
    ensures var t := Record(s, o, now);
            && t.counter == s.counter && t.closed == s.closed
            && t.acts == if o.actor != "" && o.status in {"completed", "observation"} then EndedAt(s, o.actor, Completed) else s.acts
  {
    hide KeyOf, Position, StopLive, Unhooked, Freed;
    var kept := s.(results := s.results[o.actor := o.(createdAt := now)]);
    var i := Position(s.acts, o.actor);
    if i < |s.acts| {
      var key, e := KeyOf(s.acts[i]), Ended(kept, i, Completed);
      PartsKeepRecords(e, o.actor, key);
      PartsKeepRecords(StopLive(e, o.actor), o.actor, key);
    }
  }

  /** An exit changes at most the record it names: if that is active it gets the status of the exit. */
  lemma {:induction false} ExitExactly(l: Limits, s: State, a: Step)
    requires !a.DoActivate? && !a.DoClean?
    ensures var t := Do(l, s, a);
            && t.counter == s.counter && t.closed == (s.closed || a.DoShutdown?)
            && t.acts == if NamedBy(a).None? || EndsAs(a).None? then s.acts else EndedAt(s, NamedBy(a).value, EndsAs(a).value)
  {
    hide EndedAt, Expire, Complete, FailActor, Record, Stopped, Panicked;
    match a
    case DoExpire(id) => StopsExactly(s, id);
    case DoComplete(id) => CompletesExactly(s, id);
    case DoFail(id) => FailsExactly(s, id);
    case DoRecord(o, now) => RecordsExactly(s, o, now);
    case DoStopped(id) => StopsExactly(s, id);
    case DoPanic(id) => FailsExactly(s, id);
    case DoShutdown =>
  }

  // ----- Activations -----

  /** The request names the subject of its parent. */
  predicate Repeats(p: Act, r: Request) {
    p.node != "" && r.workspace == p.node && r.action == p.action && r.path == p.path
  }

  /** An active record of this lineage has the subject of the request. */
  ghost predicate Taken(acts: seq<Act>, lineage: string, r: Request) {
    exists a :: a in acts && a.status.Active? && a.lineage == lineage && a.workspace == r.workspace && a.action == r.action && a.path == r.path
  }

  /** The places of the active records. */
  function ActivePlaces(acts: seq<Act>): set<int> {
    set i | 0 <= i < |acts| && acts[i].status.Active?
  }

  lemma {:induction false} TakenExactly(acts: seq<Act>, lineage: string, r: Request)
    ensures Busy(acts, lineage, r.workspace, r.action, r.path) <==> Taken(acts, lineage, r)
  {
    if Busy(acts, lineage, r.workspace, r.action, r.path) {
      var i :| 0 <= i < |acts| && acts[i].status.Active? && Same(acts[i], lineage, r.workspace, r.action, r.path);
      assert acts[i] in acts;
    }
  }

  lemma {:induction false} RepeatsExactly(p: Act, r: Request)
    ensures Cycle(p, r) <==> Repeats(p, r)
  {
  }

  lemma {:induction false} CountExactly(acts: seq<Act>)
    ensures ActiveCount(acts) == |ActivePlaces(acts)|
    decreases |acts|
  {
    if acts != [] {
      var m := |acts| - 1;
      CountExactly(acts[..m]);
      assert forall i :: 0 <= i < m ==> acts[..m][i] == acts[i];
      assert ActivePlaces(acts) == ActivePlaces(acts[..m]) + if acts[m].status.Active? then {m} else {};
    }
  }

  /** What an activation adds: nothing, or a record of this status. */
  ghost function Verdict(l: Limits, s: State, r: Request, pid: Option<nat>, now: int): Option<Status> {
    var left, i := Cleaned(s.acts, 0, now), Position(s.acts, r.parent);
    var full, dead := |ActivePlaces(left)| >= l.maxActive, s.closed || pid.None?;
    var last := if full then RejectedBudget else if dead then Failed else Active;
    if r.parent == "" then
      if WindowOpen(s, DedupKey(r.workspace, r.action, r.path), now) then None
      else if l.maxDepth < 1 then Some(RejectedDepth)
      else if l.maxBudget < 0 then Some(RejectedBudgetExhausted)
      else Some(last)
    else if i == |s.acts| || s.acts[i].lineage == "" then Some(RejectedInvalidLineage)
    else if Repeats(s.acts[i], r) then Some(RejectedCycle)
    else if Taken(left, s.acts[i].lineage, r) then None
    else if s.acts[i].depth >= l.maxDepth then Some(RejectedDepth)
    else if s.acts[i].remaining <= 0 then Some(RejectedBudgetExhausted)
    else Some(last)
  }

  /** The place in a lineage that a record takes. */
  datatype Place = Place(lineage: string, parent: string, depth: int, remaining: int, count: int)

  /** A root begins a lineage, a child goes one step down its parent's, and a child without one has none. */
  ghost function PlaceOf(l: Limits, s: State, r: Request): Place {
    var i := Position(s.acts, r.parent);
    if r.parent == "" then Place(LineageId(s.counter + 1), "", 1, l.maxBudget, 1)
    else if i == |s.acts| || s.acts[i].lineage == "" then Place("", r.parent, 0, 0, 1)
    else
      var p := s.acts[i];
      Place(p.lineage, r.parent, p.depth + 1, p.remaining - 1, if Repeats(p, r) then 1 else p.count + 1)
  }

  /** The record is the request's, at this place, made now. */
  ghost predicate IsRecord(l: Limits, a: Act, n: nat, r: Request, now: int, place: Place, status: Status) {
    a == Act(ActorId(n), r.workspace, r.action, r.path, r.workspace, place.lineage, place.parent, place.depth, place.remaining,
             place.remaining, place.count, now, now + l.ttl, status)
  }

  /** Exactly one record of this kind was added to these. */
  ghost predicate AddsOne(l: Limits, before: seq<Act>, after: seq<Act>, n: nat, r: Request, now: int, place: Place, status: Status) {
    |after| == |before| + 1 && after[..|before|] == before && IsRecord(l, after[|before|], n, r, now, place, status)
  }

  lemma {:induction false} AddedOne(l: Limits, s: State, a: Act, n: nat, r: Request, now: int, place: Place, status: Status)
    requires IsRecord(l, a, n, r, now, place, status)
    ensures AddsOne(l, s.acts, Added(s, a).acts, n, r, now, place, status)
  {
    hide IsRecord;
    assert (s.acts + [a])[..|s.acts|] == s.acts && (s.acts + [a])[|s.acts|] == a;
  }

  lemma {:induction false} AdmitAddsOne(l: Limits, s: State, active: nat, a: Act, pid: Option<nat>, n: nat, r: Request, now: int, place: Place)
    requires IsRecord(l, a, n, r, now, place, Active)
    ensures AddsOne(l, s.acts, Admit(l, s, active, a, pid, now).acts, n, r, now, place,
                    if active >= l.maxActive then RejectedBudget else if s.closed || pid.None? then Failed else Active)
    ensures Admit(l, s, active, a, pid, now).counter == s.counter
  {
    hide KeyOf, ActorId;
    AddedOne(l, s, a.(status := RejectedBudget), n, r, now, place, RejectedBudget);
    AddedOne(l, s, a, n, r, now, place, Active);
    AddedOne(l, s, a.(status := Failed), n, r, now, place, Failed);
    assert (s.acts + [a])[|s.acts| := a.(status := Failed)] == s.acts + [a.(status := Failed)];
  }

  lemma {:induction false} RootAnswer(l: Limits, s: State, active: nat, r: Request, pid: Option<nat>, now: int)
    ensures var t := ActivateRoot(l, s, active, r, pid, now);
            && AddsOne(l, s.acts, t.acts, s.counter, r, now, Place(LineageId(s.counter), "", 1, l.maxBudget, 1),
                       if l.maxDepth < 1 then RejectedDepth else if l.maxBudget < 0 then RejectedBudgetExhausted
                       else if active >= l.maxActive then RejectedBudget else if s.closed || pid.None? then Failed else Active)
            && t.counter == s.counter
  {
    var place := Place(LineageId(s.counter), "", 1, l.maxBudget, 1);
    var root := NewAct(l, s.counter, r, now, LineageId(s.counter), "", 1, l.maxBudget, 1, Active);
    assert IsRecord(l, root, s.counter, r, now, place, Active);
    hide LineageId, Admit, AddsOne, ActorId;
    AddedOne(l, s, root.(status := RejectedDepth), s.counter, r, now, place, RejectedDepth);
    AddedOne(l, s, root.(status := RejectedBudgetExhausted), s.counter, r, now, place, RejectedBudgetExhausted);
    AdmitAddsOne(l, s, active, root, pid, s.counter, r, now, place);
  }

  lemma {:induction false} OrphanAnswer(l: Limits, s: State, active: nat, r: Request, pid: Option<nat>, now: int)
    requires var i := Position(s.acts, r.parent); i == |s.acts| || s.acts[i].lineage == ""
    ensures var t := ActivateChild(l, s, active, r, pid, now);
            AddsOne(l, s.acts, t.acts, s.counter, r, now, Place("", r.parent, 0, 0, 1), RejectedInvalidLineage) && t.counter == s.counter
  {
    hide ActorId, Position, Busy, Cycle, Admit;
    AddedOne(l, s, Orphan(l, s.counter, r, now), s.counter, r, now, Place("", r.parent, 0, 0, 1), RejectedInvalidLineage);
  }

  lemma {:induction false} ChildAnswer(l: Limits, s: State, active: nat, r: Request, pid: Option<nat>, now: int)
    requires var i := Position(s.acts, r.parent); i < |s.acts| && s.acts[i].lineage != ""
    ensures var t := ActivateChild(l, s, active, r, pid, now);
            var p := s.acts[Position(s.acts, r.parent)];
            var place := Place(p.lineage, r.parent, p.depth + 1, p.remaining - 1, if Cycle(p, r) then 1 else p.count + 1);
            && t.counter == s.counter
            && (if Cycle(p, r) then AddsOne(l, s.acts, t.acts, s.counter, r, now, place, RejectedCycle)
                else if Busy(s.acts, p.lineage, r.workspace, r.action, r.path) then t.acts == s.acts
                else
                  AddsOne(l, s.acts, t.acts, s.counter, r, now, place,
                          if p.depth >= l.maxDepth then RejectedDepth else if p.remaining <= 0 then RejectedBudgetExhausted
                          else if active >= l.maxActive then RejectedBudget else if s.closed || pid.None? then Failed else Active))
  {
    hide ActorId, Position, Busy, Cycle, Admit, AddsOne, NewAct, IsRecord;
    var p, n := s.acts[Position(s.acts, r.parent)], s.counter;
    var place := Place(p.lineage, r.parent, p.depth + 1, p.remaining - 1, if Cycle(p, r) then 1 else p.count + 1);
    var child := NewAct(l, n, r, now, p.lineage, r.parent, p.depth + 1, p.remaining - 1, p.count + 1, Active);
    ChildRecords(l, n, r, now, p);
    if Cycle(p, r) {
      AddedOne(l, s, child.(count := 1, status := RejectedCycle), n, r, now, place, RejectedCycle);
    } else {
      AddedOne(l, s, child.(status := RejectedDepth), n, r, now, place, RejectedDepth);
      AddedOne(l, s, child.(status := RejectedBudgetExhausted), n, r, now, place, RejectedBudgetExhausted);
      AdmitAddsOne(l, s, active, child, pid, n, r, now, place);
    }
  }

  lemma {:induction false} ChildRecords(l: Limits, n: nat, r: Request, now: int, p: Act)
    ensures var place := Place(p.lineage, r.parent, p.depth + 1, p.remaining - 1, p.count + 1);
            var child := NewAct(l, n, r, now, p.lineage, r.parent, p.depth + 1, p.remaining - 1, p.count + 1, Active);
            && IsRecord(l, child, n, r, now, place, Active) && IsRecord(l, child.(status := RejectedDepth), n, r, now, place, RejectedDepth)
            && IsRecord(l, child.(status := RejectedBudgetExhausted), n, r, now, place, RejectedBudgetExhausted)
            && IsRecord(l, child.(count := 1, status := RejectedCycle), n, r, now, place.(count := 1), RejectedCycle)
            && child.depth == p.depth + 1 && child.remaining == p.remaining - 1
  {
    hide ActorId;
  }

  /**
   * Exactly what an activation adds to the records that cleaning leaves, for every request and
   * state: nothing if it is suppressed, else one record with the status of the first thing that
   * speaks against it, active if nothing does, at its place in its lineage.
   */
  lemma {:induction false} AnswerExactly(l: Limits, s: State, r: Request, pid: Option<nat>, now: int)
    ensures var t, left, v := Activate(l, s, r, pid, now), Cleaned(s.acts, 0, now), Verdict(l, s, r, pid, now);
            if v.None? then t.acts == left
            else AddsOne(l, left, t.acts, s.counter + 1, r, now, PlaceOf(l, s, r), v.value)
  {
    hide CleanFrom, Cleaned, Overdue, DedupKey, ActorId, LineageId, ActiveCount, ActivateRoot, ActivateChild, Position, Busy, Cycle, AddsOne, Taken, Repeats, ActivePlaces;
    var clean, left, key := Clean(s, now), Cleaned(s.acts, 0, now), DedupKey(r.workspace, r.action, r.path);
    CleanActs(s, 0, now);
    CleanFrees(s, 0, now, key);
    CleanedParent(s, r.parent, now);
    CountExactly(left);
    var counted, active := clean.(counter := clean.counter + 1), ActiveCount(left);
    if r.parent == "" {
      RootAnswer(l, counted, active, r, pid, now);
    } else {
      var i := Position(s.acts, r.parent);
      if i == |s.acts| || s.acts[i].lineage == "" {
        OrphanAnswer(l, counted, active, r, pid, now);
      } else {
        RepeatsExactly(s.acts[i], r);
        TakenExactly(left, s.acts[i].lineage, r);
        ChildAnswer(l, counted, active, r, pid, now);
      }
    }
  }

  /** The counter moves on exactly when a root's window is not open, a suppressed child included. */
  lemma {:induction false} CounterExactly(l: Limits, s: State, r: Request, pid: Option<nat>, now: int)
    ensures Activate(l, s, r, pid, now).counter ==
            if r.parent == "" && WindowOpen(s, DedupKey(r.workspace, r.action, r.path), now) then s.counter else s.counter + 1
  {
    hide CleanFrom, Overdue, DedupKey, ActiveCount, ActivateRoot, ActivateChild, Position, Busy, Cycle, AddsOne, LineageId;
    var clean, key := Clean(s, now), DedupKey(r.workspace, r.action, r.path);
    CleanActs(s, 0, now);
    CleanFrees(s, 0, now, key);
    var counted, active := clean.(counter := clean.counter + 1), ActiveCount(clean.acts);
    var i := Position(counted.acts, r.parent);
    RootAnswer(l, counted, active, r, pid, now);
    if i == |counted.acts| || counted.acts[i].lineage == "" {
      OrphanAnswer(l, counted, active, r, pid, now);
    } else {
      ChildAnswer(l, counted, active, r, pid, now);
    }
  }

  // ----- Names and limits -----

  lemma {:induction false} DecLength(n: nat, k: nat)
    requires k > 0 && n < Power(k)
    ensures |Dec(n)| <= k
    decreases k
  {
    if n >= 10 {
      assert n / 10 < Power(k - 1);
      DecLength(n / 10, k - 1);
    }
  }

  function Power(k: nat): nat {
    if k == 0 then 1 else 10 * Power(k - 1)
  }

  /** A counter in a name is its decimal value, padded with zeros to at least six digits and no further. */
  lemma {:induction false} SixExactly(n: nat)
    ensures forall i :: 0 <= i < |Six(n)| ==> Digit(Six(n)[i])
    ensures Undec(Six(n)) == n && |Six(n)| >= 6 && (n < 1000000 ==> |Six(n)| == 6) && (|Six(n)| > 6 ==> Six(n)[0] != '0')
    ensures ActorId(n) == "actor-" + Six(n) && LineageId(n) == "lineage-" + Six(n)
  {
    SixReads(n);
    assert Power(6) == 1000000;
    if n < 1000000 { DecLength(n, 6); }
    if |Dec(n)| > 6 { NoLeadingZero(n); }
    hide Dec, Undec;
  }

  lemma {:induction false} NoLeadingZero(n: nat)
    requires |Dec(n)| > 1
    ensures Dec(n)[0] != '0'
  {
    IntRoundTrip(n);
    var lit := Int(n).lit;
    assert lit == Dec(n);
    hide Dec;
  }

  /** The limits a controller works with: those given, and 16 active, depth 8, budget 32 and 300 seconds for what is not positive. */
  lemma {:induction false} DefaultsExactly(l: Limits)
    ensures var d := WithDefaults(l);
            && d.maxActive > 0 && d.maxDepth > 0 && d.maxBudget > 0 && d.ttl > 0 && WithDefaults(d) == d
            && (l.maxActive > 0 ==> d.maxActive == l.maxActive) && (l.maxDepth > 0 ==> d.maxDepth == l.maxDepth)
            && (l.maxBudget > 0 ==> d.maxBudget == l.maxBudget) && (l.ttl > 0 ==> d.ttl == l.ttl)
            && WithDefaults(Limits(0, 0, 0, 0)) == Limits(16, 8, 32, 300)
            && (l.maxActive <= 0 ==> d.maxActive == 16) && (l.maxDepth <= 0 ==> d.maxDepth == 8)
            && (l.maxBudget <= 0 ==> d.maxBudget == 32) && (l.ttl <= 0 ==> d.ttl == 300)
  {
  }

  // ----- Dedup keys -----

  /** Where no workspace and no action holds a zero character, two subjects have one dedup key exactly if they are the same. */
  lemma {:induction false} KeysApart(a: Request, b: Request)
    requires forall s :: s in [a.workspace, a.action, b.workspace, b.action] ==> 0 as char !in s
    ensures DedupKey(a.workspace, a.action, a.path) == DedupKey(b.workspace, b.action, b.path) <==>
            a.workspace == b.workspace && a.action == b.action && a.path == b.path
  {
    var parts := [a.workspace, a.action, b.workspace, b.action];
    assert parts[0] in parts && parts[1] in parts && parts[2] in parts && parts[3] in parts;
    var zero := 0 as char;
    var x, y := a.action + [zero] + a.path, b.action + [zero] + b.path;
    assert DedupKey(a.workspace, a.action, a.path) == a.workspace + [zero] + x;
    assert DedupKey(b.workspace, b.action, b.path) == b.workspace + [zero] + y;
    if DedupKey(a.workspace, a.action, a.path) == DedupKey(b.workspace, b.action, b.path) {
      FirstPart(a.workspace, x, b.workspace, y, zero);
      FirstPart(a.action, a.path, b.action, b.path, zero);
    }
  }

  /** What comes before the first separator, and what comes after it. */
  lemma {:induction false} FirstPart(a: string, x: string, b: string, y: string, sep: char)
    requires sep !in a && sep !in b && a + [sep] + x == b + [sep] + y
    ensures a == b && x == y
  {
    var s, t := a + [sep] + x, b + [sep] + y;
    assert s[|a|] == sep && t[|b|] == sep;
    assert forall k :: 0 <= k < |a| ==> s[k] == a[k] && a[k] in a;
    assert forall k :: 0 <= k < |b| ==> t[k] == b[k] && b[k] in b;
    assert s[..|a|] == a && t[..|b|] == b && s[|a| + 1..] == x && t[|b| + 1..] == y;
  }

  /** The condition is needed: a zero character can stand in either of two places. */
  lemma {:induction false} KeysMeet()
    ensures var zero := 0 as char; DedupKey("a" + [zero] + "b", "c", "d") == DedupKey("a", "b" + [zero] + "c", "d")
  {
    var zero := 0 as char;
    assert DedupKey("a" + [zero] + "b", "c", "d") == ['a', zero, 'b', zero, 'c', zero, 'd'];
    assert DedupKey("a", "b" + [zero] + "c", "d") == ['a', zero, 'b', zero, 'c', zero, 'd'];
  }
}
