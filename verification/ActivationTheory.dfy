/**
 * What the activation controller keeps over every run, in any order of activations, expiries,
 * completions, failures, stops and shutdown: conservation of depth and budget along lineages,
 * agreement of the live actors with the active records, and statuses that change once.
 */
module ActivationTheory {
  import opened Wrappers
  import opened Json
  import opened Decimal
  import opened Activations

  // ----- Names are fresh -----

  lemma {:induction false} UndecZeros(z: nat, s: string)
    requires forall i :: 0 <= i < |s| ==> Digit(s[i])
    ensures forall i :: 0 <= i < z + |s| ==> Digit((Zeros(z) + s)[i])
    ensures Undec(Zeros(z) + s) == Undec(s)
    decreases z + |s|
  {
    var t := Zeros(z) + s;
    if s == [] {
      assert t == Zeros(z);
      if z > 0 {
        assert t[..|t| - 1] == Zeros(z - 1) + [];
        UndecZeros(z - 1, []);
        assert Zeros(z - 1) + [] == Zeros(z - 1);
      }
    } else {
      assert t[..|t| - 1] == Zeros(z) + s[..|s| - 1];
      UndecZeros(z, s[..|s| - 1]);
    }
  }

  lemma {:induction false} SixInjective(m: nat, n: nat)
    requires Six(m) == Six(n)
    ensures m == n
  {
    DecRoundTrip(m);
    DecRoundTrip(n);
    SixReads(m);
    SixReads(n);
    hide Dec, Undec, Six;
  }

  lemma {:induction false} SixReads(n: nat)
    ensures forall i :: 0 <= i < |Six(n)| ==> Digit(Six(n)[i])
    ensures Undec(Six(n)) == n
  {
    DecRoundTrip(n);
    hide Dec, Undec;
    if |Dec(n)| < 6 {
      UndecZeros(6 - |Dec(n)|, Dec(n));
    } else {
      assert "" + Dec(n) == Dec(n);
    }
  }

  lemma {:induction false} NamesInjective(m: nat, n: nat)
    ensures ActorId(m) == ActorId(n) ==> m == n
    ensures LineageId(m) == LineageId(n) ==> m == n
    ensures ActorId(n) != "" && LineageId(n) != ""
  {
    hide Six;
    if ActorId(m) == ActorId(n) {
      assert ActorId(m)[6..] == Six(m) && ActorId(n)[6..] == Six(n);
      SixInjective(m, n);
    }
    if LineageId(m) == LineageId(n) {
      assert LineageId(m)[8..] == Six(m) && LineageId(n)[8..] == Six(n);
      SixInjective(m, n);
    }
  }

  // ----- The invariants -----

  predicate Final(s: Status) {
    s.Expired? || s.Completed? || s.Failed? || s.Passivated?
  }

  /** The activation was granted: it is or was active. */
  predicate Granted(s: Status) {
    s.Active? || Final(s)
  }

  ghost predicate DistinctIds(acts: seq<Act>) {
    forall i, j :: 0 <= i < j < |acts| ==> acts[i].id != acts[j].id
  }

  /** Names of later counters are not in use. */
  ghost predicate FreshNames(acts: seq<Act>, counter: nat) {
    forall a, k: nat :: a in acts && k > counter ==> a.id != ActorId(k) && a.lineage != LineageId(k)
  }

  /** A record with a lineage is a root with the whole budget, or one step below an earlier record of the same lineage. */
  predicate Linked(l: Limits, acts: seq<Act>, i: nat)
    requires i < |acts|
  {
    var a := acts[i];
    && a.budget == a.remaining
    && (a.parent == "" ==> a.lineage != "")
    && (a.lineage != "" ==>
          if a.parent == "" then a.depth == 1 && a.remaining == l.maxBudget
          else
            var j := Position(acts, a.parent);
            j < i && acts[j].lineage == a.lineage && a.depth == acts[j].depth + 1 && a.remaining == acts[j].remaining - 1)
    && (Granted(a.status) ==> a.lineage != "" && a.depth <= l.maxDepth && a.remaining >= 0)
  }

  ghost predicate AllLinked(l: Limits, acts: seq<Act>) {
    forall i :: 0 <= i < |acts| ==> Linked(l, acts, i)
  }

  /** Each lineage has one root. */
  ghost predicate OneRoot(acts: seq<Act>) {
    forall i, j :: 0 <= i < j < |acts| && acts[i].parent == "" && acts[j].parent == "" ==> acts[i].lineage != acts[j].lineage
  }

  ghost predicate Lineages(l: Limits, acts: seq<Act>, counter: nat) {
    DistinctIds(acts) && FreshNames(acts, counter) && AllLinked(l, acts) && OneRoot(acts)
  }

  /** No lineage has two active records with one subject. */
  ghost predicate Solo(acts: seq<Act>) {
    forall i, j :: 0 <= i < j < |acts| && acts[i].status.Active? && acts[j].status.Active? ==>
      !Same(acts[i], acts[j].lineage, acts[j].workspace, acts[j].action, acts[j].path)
  }

  predicate ActiveId(acts: seq<Act>, id: string) {
    var i := Position(acts, id);
    i < |acts| && acts[i].status.Active?
  }

  /** Live actors, timers and active records agree; after shutdown nothing is live. */
  ghost predicate Hooked(s: State) {
    && s.timers.Keys == s.live.Keys
    && (forall id :: id in s.live ==> ActiveId(s.acts, id))
    && (!s.closed ==> forall i :: 0 <= i < |s.acts| && s.acts[i].status.Active? ==> s.acts[i].id in s.live)
    && (s.closed ==> s.live == map[])
  }

  ghost predicate Books(l: Limits, s: State) {
    ActiveCount(s.acts) <= l.maxActive && Hooked(s) && Solo(s.acts)
  }

  ghost predicate Inv(l: Limits, s: State) {
    Lineages(l, s.acts, s.counter) && Books(l, s)
  }

  // ----- Position -----

  lemma {:induction false} PositionIs(acts: seq<Act>, i: nat)
    requires DistinctIds(acts) && i < |acts|
    ensures Position(acts, acts[i].id) == i
  {
    var p := Position(acts, acts[i].id);
    if p < i {
    } else if i < p {
      assert false;
    }
  }

  lemma {:induction false} PositionMarked(acts: seq<Act>, i: nat, status: Status, id: string)
    requires i < |acts|
    ensures Position(Marked(acts, i, status), id) == Position(acts, id)
  {
    var after := Marked(acts, i, status);
    var p, q := Position(acts, id), Position(after, id);
    assert forall k :: 0 <= k < |acts| ==> after[k].id == acts[k].id;
    if p < |acts| { assert after[p].id == id; }
    if q < |acts| { assert acts[q].id == id; }
  }

  lemma {:induction false} PositionAdded(acts: seq<Act>, a: Act, id: string)
    ensures Position(acts + [a], id) ==
            if Position(acts, id) < |acts| then Position(acts, id) else if a.id == id then |acts| else |acts| + 1
  {
    var all := acts + [a];
    var p, q := Position(acts, id), Position(all, id);
    assert forall k :: 0 <= k < |acts| ==> all[k] == acts[k];
    assert all[|acts|] == a;
    if p < |acts| { assert all[p].id == id; }
    if q < |acts| { assert acts[q].id == id; }
  }

  // ----- A record ends -----

  lemma {:induction false} CountMarked(acts: seq<Act>, i: nat, status: Status)
    requires i < |acts| && acts[i].status.Active? && !status.Active?
    ensures ActiveCount(Marked(acts, i, status)) == ActiveCount(acts) - 1
    decreases |acts|
  {
    var m := |acts| - 1;
    var after := Marked(acts, i, status);
    if i == m {
      assert after[..m] == acts[..m];
    } else {
      CountMarked(acts[..m], i, status);
      assert after[..m] == Marked(acts[..m], i, status);
    }
  }

  lemma {:induction false} MarkedLineages(l: Limits, acts: seq<Act>, counter: nat, i: nat, status: Status)
    requires Lineages(l, acts, counter) && i < |acts| && acts[i].status.Active? && Final(status)
    ensures Lineages(l, Marked(acts, i, status), counter)
  {
    hide Position, ActorId, LineageId;
    var after := Marked(acts, i, status);
    forall a, k: nat | a in after && k > counter ensures a.id != ActorId(k) && a.lineage != LineageId(k) {
      var j :| 0 <= j < |after| && after[j] == a;
      assert acts[j] in acts;
    }
    forall k | 0 <= k < |after| ensures Linked(l, after, k) {
      assert Linked(l, acts, k);
      PositionMarked(acts, i, status, acts[k].parent);
    }
  }

  /** Ending an active record and unhooking its actor. */
  function End(s: State, i: nat, status: Status): State
    requires i < |s.acts|
  {
    Unhooked(Ended(s, i, status), s.acts[i].id)
  }

  lemma {:induction false} EndKeepsHooked(s: State, i: nat, status: Status)
    requires DistinctIds(s.acts) && i < |s.acts| && s.acts[i].status.Active? && Final(status) && Hooked(s)
    ensures Hooked(End(s, i, status))
  {
    hide Position;
    var t := End(s, i, status);
    forall id | id in t.live ensures ActiveId(t.acts, id) {
      assert ActiveId(s.acts, id);
      PositionMarked(s.acts, i, status, id);
    }
    hide ActiveId;
    forall j | 0 <= j < |t.acts| && t.acts[j].status.Active? && !t.closed ensures t.acts[j].id in t.live {
      assert j != i && t.acts[j] == s.acts[j];
      assert s.acts[j].id != s.acts[i].id;
    }
  }

  lemma {:induction false} EndKeepsSolo(acts: seq<Act>, i: nat, status: Status)
    requires Solo(acts) && i < |acts| && Final(status)
    ensures Solo(Marked(acts, i, status))
  {
    var after := Marked(acts, i, status);
    forall j, k | 0 <= j < k < |after| && after[j].status.Active? && after[k].status.Active?
      ensures !Same(after[j], after[k].lineage, after[k].workspace, after[k].action, after[k].path)
    {
      assert after[j] == acts[j] && after[k] == acts[k];
    }
  }

  lemma {:induction false} EndKeepsBooks(l: Limits, s: State, i: nat, status: Status)
    requires Inv(l, s) && i < |s.acts| && s.acts[i].status.Active? && Final(status)
    ensures Books(l, End(s, i, status))
  {
    hide AllLinked, FreshNames, OneRoot, Solo, Hooked, ActiveCount;
    EndKeepsSolo(s.acts, i, status);
    CountMarked(s.acts, i, status);
    EndKeepsHooked(s, i, status);
  }

  lemma {:induction false} EndKeeps(l: Limits, s: State, i: nat, status: Status)
    requires Inv(l, s) && i < |s.acts| && s.acts[i].status.Active? && Final(status)
    ensures Inv(l, End(s, i, status))
  {
    EndKeepsBooks(l, s, i, status);
    MarkedLineages(l, s.acts, s.counter, i, status);
    hide Books, Lineages;
  }

  // ----- A record is added -----

  lemma {:induction false} CountAdded(acts: seq<Act>, a: Act)
    ensures ActiveCount(acts + [a]) == ActiveCount(acts) + if a.status.Active? then 1 else 0
  {
    assert (acts + [a])[..|acts|] == acts;
  }

  /** A record that may follow these: it is named by the next counter, and linked where it stands. */
  ghost predicate Follows(l: Limits, acts: seq<Act>, counter: nat, a: Act) {
    && a.id == ActorId(counter + 1)
    && (a.lineage == "" || a.lineage == LineageId(counter + 1) || exists b :: b in acts && b.lineage == a.lineage)
    && (a.parent == "" ==> a.lineage == LineageId(counter + 1))
    && Linked(l, acts + [a], |acts|)
  }

  lemma {:induction false} AddedLineages(l: Limits, acts: seq<Act>, counter: nat, a: Act)
    requires Lineages(l, acts, counter) && Follows(l, acts, counter, a)
    ensures Lineages(l, acts + [a], counter + 1)
  {
    hide Position, ActorId, LineageId;
    var all := acts + [a];
    forall i | 0 <= i < |acts| ensures all[i].id != a.id && (a.parent == "" ==> all[i].lineage != a.lineage) {
      assert acts[i] in acts;
    }
    forall b, k: nat | b in all && k > counter + 1 ensures b.id != ActorId(k) && b.lineage != LineageId(k) {
      NamesInjective(counter + 1, k);
      if b !in acts {
        assert b == a;
      }
    }
    forall i | 0 <= i < |all| ensures Linked(l, all, i) {
      if i < |acts| {
        assert Linked(l, acts, i) && all[i] == acts[i];
        PositionAdded(acts, a, acts[i].parent);
      }
    }
  }

  /** The state with one more record, under the next counter. */
  function Grown(s: State, a: Act): State {
    s.(acts := s.acts + [a], counter := s.counter + 1)
  }

  lemma {:induction false} AddedKeepsActive(acts: seq<Act>, a: Act, id: string)
    requires ActiveId(acts, id)
    ensures ActiveId(acts + [a], id)
  {
    PositionAdded(acts, a, id);
  }

  lemma {:induction false} AddedSolo(acts: seq<Act>, a: Act)
    requires Solo(acts) && (a.status.Active? ==> !Busy(acts, a.lineage, a.workspace, a.action, a.path))
    ensures Solo(acts + [a])
  {
    var all := acts + [a];
    forall j, k | 0 <= j < k < |all| && all[j].status.Active? && all[k].status.Active?
      ensures !Same(all[j], all[k].lineage, all[k].workspace, all[k].action, all[k].path)
    {
      assert all[j] == acts[j];
      assert k < |acts| ==> all[k] == acts[k];
    }
  }

  lemma {:induction false} AddInactiveHooked(s: State, a: Act)
    requires Hooked(s) && !a.status.Active?
    ensures Hooked(Grown(s, a))
  {
    hide ActiveId;
    var t := Grown(s, a);
    forall id | id in t.live ensures ActiveId(t.acts, id) {
      AddedKeepsActive(s.acts, a, id);
    }
    forall i | 0 <= i < |t.acts| && t.acts[i].status.Active? && !t.closed ensures t.acts[i].id in t.live {
      assert i < |s.acts| && t.acts[i] == s.acts[i];
    }
  }

  /** Adding a record that is not active. */
  lemma {:induction false} AddInactive(l: Limits, s: State, a: Act)
    requires Inv(l, s) && Follows(l, s.acts, s.counter, a) && !a.status.Active?
    ensures Inv(l, Grown(s, a))
  {
    hide Lineages, Follows, Solo, Hooked, ActiveCount;
    AddedLineages(l, s.acts, s.counter, a);
    AddedSolo(s.acts, a);
    CountAdded(s.acts, a);
    AddInactiveHooked(s, a);
  }

  /** The state with one more active record whose actor runs. */
  function Running(s: State, a: Act, pid: nat, deadline: int): State {
    Grown(s, a).(live := s.live[a.id := pid], timers := s.timers[a.id := deadline])
  }

  lemma {:induction false} AddActiveHooked(s: State, a: Act, pid: nat, deadline: int)
    requires Hooked(s) && !s.closed && a.status.Active? && DistinctIds(s.acts + [a])
    ensures Hooked(Running(s, a, pid, deadline))
  {
    var t := Running(s, a, pid, deadline);
    PositionIs(t.acts, |s.acts|);
    assert t.acts[|s.acts|] == a;
    assert ActiveId(t.acts, a.id);
    hide ActiveId, DistinctIds;
    forall id | id in t.live ensures ActiveId(t.acts, id) {
      if id != a.id { AddedKeepsActive(s.acts, a, id); }
    }
    forall i | 0 <= i < |t.acts| && t.acts[i].status.Active? ensures t.acts[i].id in t.live {
      assert i < |s.acts| ==> t.acts[i] == s.acts[i];
    }
  }

  /** Adding an active record within the limits. */
  lemma {:induction false} AddActive(l: Limits, s: State, a: Act, pid: nat, deadline: int)
    requires Inv(l, s) && Follows(l, s.acts, s.counter, a) && a.status.Active?
    requires !s.closed && ActiveCount(s.acts) < l.maxActive && !Busy(s.acts, a.lineage, a.workspace, a.action, a.path)
    ensures Inv(l, Running(s, a, pid, deadline))
  {
    hide DistinctIds, FreshNames, AllLinked, OneRoot, Follows, Solo, Hooked, ActiveCount, Busy;
    AddedLineages(l, s.acts, s.counter, a);
    AddedSolo(s.acts, a);
    CountAdded(s.acts, a);
    AddActiveHooked(s, a, pid, deadline);
  }

  // ----- Activation keeps the invariants -----

  /** The same state but for the dedup window and the results. */
  predicate Alike(s: State, t: State) {
    s.(dedup := map[], results := map[]) == t.(dedup := map[], results := map[])
  }

  lemma {:induction false} AlikeKeeps(l: Limits, s: State, t: State)
    requires Inv(l, s) && Alike(s, t)
    ensures Inv(l, t)
  {
    hide Lineages, Solo, ActiveId, ActiveCount;
    assert t.acts == s.(dedup := map[], results := map[]).acts && t.live == s.(dedup := map[], results := map[]).live;
  }

  /** A failed spawn leaves a failed record. */
  lemma {:induction false} AdmitCases(l: Limits, s: State, active: nat, a: Act, pid: Option<nat>, now: int)
    requires a.status.Active?
    ensures var t := Admit(l, s.(counter := s.counter + 1), active, a, pid, now);
            if active >= l.maxActive then t == Grown(s, a.(status := RejectedBudget))
            else if s.closed || pid.None? then Alike(Grown(s, a.(status := Failed)), t)
            else Alike(Running(s, a, pid.value, now + l.ttl), t)
  {
    hide DedupKey;
    var all := s.acts + [a];
    assert all[|all| - 1 := a.(status := Failed)] == s.acts + [a.(status := Failed)];
  }

  lemma {:induction false} AdmitKeeps(l: Limits, s: State, a: Act, pid: Option<nat>, now: int)
    requires Inv(l, s) && Follows(l, s.acts, s.counter, a) && a.status.Active?
    requires !Busy(s.acts, a.lineage, a.workspace, a.action, a.path)
    ensures Inv(l, Admit(l, s.(counter := s.counter + 1), ActiveCount(s.acts), a, pid, now))
  {
    hide Inv, Follows, Admit, ActiveCount, Busy, Alike, Grown, Running;
    var active := ActiveCount(s.acts);
    var t := Admit(l, s.(counter := s.counter + 1), active, a, pid, now);
    AdmitCases(l, s, active, a, pid, now);
    if active >= l.maxActive {
      FollowsStatus(l, s.acts, s.counter, a, RejectedBudget);
      AddInactive(l, s, a.(status := RejectedBudget));
    } else if s.closed || pid.None? {
      FollowsStatus(l, s.acts, s.counter, a, Failed);
      AddInactive(l, s, a.(status := Failed));
      AlikeKeeps(l, Grown(s, a.(status := Failed)), t);
    } else {
      AddActive(l, s, a, pid.value, now + l.ttl);
      AlikeKeeps(l, Running(s, a, pid.value, now + l.ttl), t);
    }
  }

  lemma {:induction false} FollowsStatus(l: Limits, acts: seq<Act>, counter: nat, a: Act, status: Status)
    requires Follows(l, acts, counter, a) && !status.Active? && (Granted(status) ==> Granted(a.status))
    ensures Follows(l, acts, counter, a.(status := status))
  {
    hide ActorId, LineageId, Position;
    PositionAdded(acts, a, a.parent);
    PositionAdded(acts, a.(status := status), a.parent);
    var x, y := acts + [a], acts + [a.(status := status)];
    assert forall j :: 0 <= j < |acts| ==> x[j] == y[j];
    assert x[|acts|] == a && y[|acts|] == a.(status := status);
  }

  lemma {:induction false} OrphanFollows(l: Limits, s: State, r: Request, now: int)
    requires r.parent != ""
    ensures Follows(l, s.acts, s.counter, Orphan(l, s.counter + 1, r, now))
  {
    var a := Orphan(l, s.counter + 1, r, now);
    assert (s.acts + [a])[|s.acts|] == a;
  }

  lemma {:induction false} RootFollows(l: Limits, s: State, r: Request, now: int, status: Status)
    requires Granted(status) ==> 1 <= l.maxDepth && l.maxBudget >= 0
    ensures Follows(l, s.acts, s.counter, NewAct(l, s.counter + 1, r, now, LineageId(s.counter + 1), "", 1, l.maxBudget, 1, status))
  {
    var a := NewAct(l, s.counter + 1, r, now, LineageId(s.counter + 1), "", 1, l.maxBudget, 1, status);
    NamesInjective(s.counter + 1, s.counter + 1);
    assert (s.acts + [a])[|s.acts|] == a;
  }

  /** The record of a child of the record at position i. */
  function Child(l: Limits, s: State, i: nat, r: Request, now: int): Act
    requires i < |s.acts|
  {
    var p := s.acts[i];
    NewAct(l, s.counter + 1, r, now, p.lineage, r.parent, p.depth + 1, p.remaining - 1, p.count + 1, Active)
  }

  lemma {:induction false} ChildFollows(l: Limits, s: State, r: Request, now: int, i: nat, a: Act)
    requires r.parent != "" && i == Position(s.acts, r.parent) < |s.acts| && s.acts[i].lineage != ""
    requires a == Child(l, s, i, r, now).(count := a.count, status := a.status)
    requires Granted(a.status) ==> a.depth <= l.maxDepth && a.remaining >= 0
    ensures Follows(l, s.acts, s.counter, a)
  {
    hide ActorId, LineageId, Position;
    assert s.acts[i] in s.acts;
    PositionAdded(s.acts, a, r.parent);
    var all := s.acts + [a];
    assert all[i] == s.acts[i] && all[|s.acts|] == a;
  }

  lemma {:induction false} ActivateChildKeeps(l: Limits, s: State, r: Request, pid: Option<nat>, now: int)
    requires Inv(l, s) && r.parent != ""
    ensures Inv(l, ActivateChild(l, s.(counter := s.counter + 1), ActiveCount(s.acts), r, pid, now))
  {
    var i := Position(s.acts, r.parent);
    hide Inv, ActiveCount, Busy, Admit, Position, ActorId, Follows, Cycle;
    CounterKeeps(l, s);
    if i == |s.acts| || s.acts[i].lineage == "" {
      OrphanFollows(l, s, r, now);
      AddInactive(l, s, Orphan(l, s.counter + 1, r, now));
    } else {
      var p := s.acts[i];
      var child := Child(l, s, i, r, now);
      if Cycle(p, r) {
        ChildFollows(l, s, r, now, i, child.(count := 1, status := RejectedCycle));
        AddInactive(l, s, child.(count := 1, status := RejectedCycle));
      } else if !Busy(s.acts, p.lineage, r.workspace, r.action, r.path) {
        if child.depth > l.maxDepth {
          ChildFollows(l, s, r, now, i, child.(status := RejectedDepth));
          AddInactive(l, s, child.(status := RejectedDepth));
        } else if child.remaining < 0 {
          ChildFollows(l, s, r, now, i, child.(status := RejectedBudgetExhausted));
          AddInactive(l, s, child.(status := RejectedBudgetExhausted));
        } else {
          ChildFollows(l, s, r, now, i, child);
          AdmitKeeps(l, s, child, pid, now);
        }
      }
    }
  }

  lemma {:induction false} CounterKeeps(l: Limits, s: State)
    requires Inv(l, s)
    ensures Inv(l, s.(counter := s.counter + 1))
  {
    hide ActorId, LineageId, AllLinked, OneRoot, DistinctIds, Books;
    assert Books(l, s.(counter := s.counter + 1)) by { BooksIgnoreCounter(l, s); }
  }

  lemma {:induction false} BooksIgnoreCounter(l: Limits, s: State)
    requires Books(l, s)
    ensures Books(l, s.(counter := s.counter + 1))
  {
    hide Solo, ActiveId, ActiveCount;
    assert Hooked(s);
  }

  lemma {:induction false} ActivateRootKeeps(l: Limits, s: State, r: Request, pid: Option<nat>, now: int)
    requires Inv(l, s)
    ensures Inv(l, ActivateRoot(l, s.(counter := s.counter + 1), ActiveCount(s.acts), r, pid, now))
  {
    var root := NewAct(l, s.counter + 1, r, now, LineageId(s.counter + 1), "", 1, l.maxBudget, 1, Active);
    assert !Busy(s.acts, root.lineage, root.workspace, root.action, root.path) by {
      assert forall i :: 0 <= i < |s.acts| ==> s.acts[i] in s.acts;
      hide LineageId;
    }
    hide Inv, ActiveCount, Busy, Admit, ActorId, LineageId, Follows;
    if root.depth > l.maxDepth {
      RootFollows(l, s, r, now, RejectedDepth);
      AddInactive(l, s, root.(status := RejectedDepth));
    } else if root.remaining < 0 {
      RootFollows(l, s, r, now, RejectedBudgetExhausted);
      AddInactive(l, s, root.(status := RejectedBudgetExhausted));
    } else {
      RootFollows(l, s, r, now, Active);
      AdmitKeeps(l, s, root, pid, now);
    }
  }

  // ----- Every other step either ends one active record or touches no record -----

  /** t is s but for dedup and results, possibly with one active record ended and unhooked. */
  ghost predicate Leaves(s: State, t: State) {
    Alike(s, t) || exists i, status :: EndsAt(s, t, i, status)
  }

  ghost predicate EndsAt(s: State, t: State, i: int, status: Status) {
    0 <= i < |s.acts| && s.acts[i].status.Active? && Final(status) && Alike(End(s, i, status), t)
  }

  lemma {:induction false} LeavesKeeps(l: Limits, s: State, t: State)
    requires Inv(l, s) && Leaves(s, t)
    ensures Inv(l, t)
  {
    hide Inv, End, Alike;
    if Alike(s, t) {
      AlikeKeeps(l, s, t);
    } else {
      var i, status :| EndsAt(s, t, i, status);
      EndKeeps(l, s, i, status);
      AlikeKeeps(l, End(s, i, status), t);
    }
  }

  /** With timers in step, stopping a live actor is unhooking it; an id that is not live has nothing to unhook. */
  lemma {:induction false} StopIsUnhook(s: State, id: string)
    requires s.timers.Keys == s.live.Keys
    ensures StopLive(s, id) == Unhooked(s, id)
    ensures id !in s.live ==> Unhooked(s, id) == s
  {
    if id !in s.live {
      assert s.live - {id} == s.live && s.timers - {id} == s.timers;
    }
  }

  /** Only the id of an active record is live. */
  lemma {:induction false} NotLive(s: State, id: string)
    requires Hooked(s) && !ActiveId(s.acts, id)
    ensures StopLive(s, id) == s == Unhooked(s, id)
  {
    StopIsUnhook(s, id);
    hide Position;
  }

  lemma {:induction false} ExpireAtLeaves(l: Limits, s: State, i: nat)
    requires Inv(l, s) && i < |s.acts| && s.acts[i].status.Active?
    ensures EndsAt(s, ExpireAt(s, i), i, Expired)
  {
    hide Lineages, ActiveCount, Solo, ActiveId, DedupKey;
    StopIsUnhook(Ended(s, i, Expired), s.acts[i].id);
  }

  lemma {:induction false} NotFoundOrEnded(l: Limits, s: State, id: string)
    requires Inv(l, s)
    ensures var i := Position(s.acts, id);
            if i < |s.acts| && s.acts[i].status.Active? then
              forall status: Status :: StopLive(Ended(s, i, status), id) == Unhooked(Ended(s, i, status), id) == End(s, i, status)
            else StopLive(s, id) == Unhooked(s, id) == s
  {
    hide Lineages, ActiveCount, Solo, Position;
    var i := Position(s.acts, id);
    if i < |s.acts| && s.acts[i].status.Active? {
      forall status: Status ensures StopLive(Ended(s, i, status), id) == Unhooked(Ended(s, i, status), id) == End(s, i, status) {
        StopIsUnhook(Ended(s, i, status), id);
      }
    } else {
      NotLive(s, id);
    }
  }

  lemma {:induction false} ExpireLeaves(l: Limits, s: State, id: string)
    requires Inv(l, s)
    ensures Leaves(s, Expire(s, id))
  {
    NotFoundOrEnded(l, s, id);
    hide Position, DedupKey, Inv, StopLive, Unhooked, End;
    var i := Position(s.acts, id);
    if i < |s.acts| && s.acts[i].status.Active? {
      assert StopLive(Ended(s, i, Expired), id) == Unhooked(Ended(s, i, Expired), id) == End(s, i, Expired);
      assert EndsAt(s, Expire(s, id), i, Expired);
    } else {
      assert Alike(s, Expire(s, id));
    }
  }

  lemma {:induction false} CompleteLeaves(l: Limits, s: State, id: string)
    requires Inv(l, s)
    ensures Leaves(s, Complete(s, id))
  {
    NotFoundOrEnded(l, s, id);
    hide Position, DedupKey, Inv, StopLive, Unhooked, End;
    var i := Position(s.acts, id);
    if i < |s.acts| && s.acts[i].status.Active? {
      assert StopLive(Ended(s, i, Completed), id) == Unhooked(Ended(s, i, Completed), id) == End(s, i, Completed);
      assert EndsAt(s, Complete(s, id), i, Completed);
    } else {
      assert Alike(s, Complete(s, id));
    }
  }

  lemma {:induction false} FailLeaves(l: Limits, s: State, id: string)
    requires Inv(l, s)
    ensures Leaves(s, FailActor(s, id))
  {
    NotFoundOrEnded(l, s, id);
    hide Position, DedupKey, Inv, StopLive, Unhooked, End;
    var i := Position(s.acts, id);
    if i < |s.acts| && s.acts[i].status.Active? {
      assert StopLive(Ended(s, i, Failed), id) == Unhooked(Ended(s, i, Failed), id) == End(s, i, Failed);
      assert EndsAt(s, FailActor(s, id), i, Failed);
    } else {
      assert Alike(s, FailActor(s, id));
    }
  }

  lemma {:induction false} StoppedLeaves(l: Limits, s: State, id: string)
    requires Inv(l, s)
    ensures Leaves(s, Stopped(s, id))
  {
    NotFoundOrEnded(l, s, id);
    hide Position, DedupKey, Inv, StopLive, Unhooked, End;
    var i := Position(s.acts, id);
    if i < |s.acts| && s.acts[i].status.Active? {
      assert StopLive(Ended(s, i, Passivated), id) == Unhooked(Ended(s, i, Passivated), id) == End(s, i, Passivated);
      assert EndsAt(s, Stopped(s, id), i, Passivated);
    } else {
      assert Alike(s, Stopped(s, id));
    }
  }

  lemma {:induction false} PanickedLeaves(l: Limits, s: State, id: string)
    requires Inv(l, s)
    ensures Leaves(s, Panicked(s, id))
  {
    NotFoundOrEnded(l, s, id);
    hide Position, DedupKey, Inv, StopLive, Unhooked, End;
    var i := Position(s.acts, id);
    if i < |s.acts| && s.acts[i].status.Active? {
      assert StopLive(Ended(s, i, Failed), id) == Unhooked(Ended(s, i, Failed), id) == End(s, i, Failed);
      assert EndsAt(s, Panicked(s, id), i, Failed);
    } else {
      assert Alike(s, Panicked(s, id));
    }
  }

  lemma {:induction false} RecordLeaves(l: Limits, s: State, o: Outcome, now: int)
    requires Inv(l, s)
    ensures Leaves(s, Record(s, o, now))
  {
    var i := Position(s.acts, o.actor);
    var kept := s.(results := s.results[o.actor := o.(createdAt := now)]);
    assert Hooked(s);
    hide Inv, Position, DedupKey, Hooked;
    if i < |s.acts| && s.acts[i].status.Active? && o.actor != "" && (o.status == "completed" || o.status == "observation") {
      HookedKeys(s);
      StopIsUnhook(Ended(kept, i, Completed), o.actor);
      hide StopLive;
      assert EndsAt(s, Record(s, o, now), i, Completed);
    } else {
      assert Alike(s, Record(s, o, now));
    }
  }

  lemma {:induction false} HookedKeys(s: State)
    requires Hooked(s)
    ensures s.timers.Keys == s.live.Keys
  {
  }

  /** The record that is found is ended, in each of the ways a step can end it. */
  lemma {:induction false} ExitLeaves(l: Limits, s: State, a: Step)
    requires Inv(l, s) && !a.DoActivate? && !a.DoClean? && !a.DoShutdown?
    ensures Leaves(s, Do(l, s, a))
  {
    hide Inv, Leaves, Expire, Complete, FailActor, Record, Stopped, Panicked;
    match a
    case DoExpire(id) => ExpireLeaves(l, s, id);
    case DoComplete(id) => CompleteLeaves(l, s, id);
    case DoFail(id) => FailLeaves(l, s, id);
    case DoRecord(o, now) => RecordLeaves(l, s, o, now);
    case DoStopped(id) => StoppedLeaves(l, s, id);
    case DoPanic(id) => PanickedLeaves(l, s, id);
    case _ =>
  }


  lemma {:induction false} CleanKeeps(l: Limits, s: State, i: nat, now: int)
    requires Inv(l, s) && i <= |s.acts|
    ensures Inv(l, CleanFrom(s, i, now))
    decreases |s.acts| - i
  {
    hide Inv, Leaves;
    if i < |s.acts| {
      if s.acts[i].status.Active? && now > s.acts[i].expires {
        ExpireAtLeaves(l, s, i);
        assert Leaves(s, ExpireAt(s, i)) by { EndsLeave(s, ExpireAt(s, i), i, Expired); }
        LeavesKeeps(l, s, ExpireAt(s, i));
        CleanKeeps(l, ExpireAt(s, i), i + 1, now);
      } else {
        CleanKeeps(l, s, i + 1, now);
      }
    }
  }

  lemma {:induction false} EndsLeave(s: State, t: State, i: int, status: Status)
    requires EndsAt(s, t, i, status)
    ensures Leaves(s, t)
  {
  }

  lemma {:induction false} ShutdownKeeps(l: Limits, s: State)
    requires Inv(l, s)
    ensures Inv(l, Shutdown(s))
  {
    hide Lineages, Solo, ActiveCount, ActiveId;
    assert Hooked(Shutdown(s));
  }

  lemma {:induction false} ActivateKeeps(l: Limits, before: State, r: Request, pid: Option<nat>, now: int)
    requires Inv(l, before)
    ensures Inv(l, Activate(l, before, r, pid, now))
  {
    hide Inv, ActivateChild, ActivateRoot, ActiveCount, DedupKey;
    CleanKeeps(l, before, 0, now);
    var s := Clean(before, now);
    if r.parent != "" {
      ActivateChildKeeps(l, s, r, pid, now);
    } else {
      ActivateRootKeeps(l, s, r, pid, now);
    }
  }

  /** Every step keeps every invariant. */
  lemma {:induction false} StepKeeps(l: Limits, s: State, a: Step)
    requires Inv(l, s)
    ensures Inv(l, Do(l, s, a))
  {
    hide Inv, Leaves, Activate, Shutdown;
    match a
    case DoActivate(r, pid, now) => ActivateKeeps(l, s, r, pid, now);
    case DoClean(now) => CleanKeeps(l, s, 0, now);
    case DoShutdown => ShutdownKeeps(l, s);
    case _ =>
      ExitLeaves(l, s, a);
      LeavesKeeps(l, s, Do(l, s, a));
  }

  /** Every reachable state satisfies every invariant, whatever the order of steps. */
  lemma {:induction false} RunKeeps(l: Limits, s: State, steps: seq<Step>)
    requires Inv(l, s)
    ensures Inv(l, DoAll(l, s, steps))
    decreases |steps|
  {
    hide Inv, Do;
    if steps != [] {
      StepKeeps(l, s, steps[0]);
      RunKeeps(l, Do(l, s, steps[0]), steps[1..]);
    }
  }

  lemma {:induction false} EmptyIsInv(l: Limits)
    requires l.maxActive >= 0
    ensures Inv(l, Empty)
  {
    hide ActorId, LineageId;
  }

  // ----- What the invariants mean -----

  /** The length of the chain of parents from a record to its root. */
  function ChainLength(acts: seq<Act>, i: nat): nat
    requires i < |acts|
    decreases i
  {
    var j := Position(acts, acts[i].parent);
    if acts[i].parent == "" || j >= i then 1 else 1 + ChainLength(acts, j)
  }

  /** The record at the end of that chain. */
  function RootOf(acts: seq<Act>, i: nat): (k: nat)
    requires i < |acts|
    ensures k <= i
    decreases i
  {
    var j := Position(acts, acts[i].parent);
    if acts[i].parent == "" || j >= i then i else RootOf(acts, j)
  }

  /** Depth and budget are conserved down a lineage: the depth is the length of the parent chain, and each step down costs one. */
  lemma {:induction false} Conserved(l: Limits, acts: seq<Act>, i: nat)
    requires AllLinked(l, acts) && i < |acts| && acts[i].lineage != ""
    ensures acts[i].depth == ChainLength(acts, i)
    ensures acts[i].depth + acts[i].remaining == l.maxBudget + 1
    ensures var k := RootOf(acts, i); acts[k].parent == "" && acts[k].lineage == acts[i].lineage
    decreases i
  {
    assert Linked(l, acts, i);
    var j := Position(acts, acts[i].parent);
    hide Position;
    if acts[i].parent != "" {
      Conserved(l, acts, j);
    }
  }

  /** Two records share a lineage exactly when they descend from the same root. */
  lemma {:induction false} LineageIsTree(l: Limits, acts: seq<Act>, counter: nat, i: nat, j: nat)
    requires Lineages(l, acts, counter) && i < |acts| && j < |acts| && acts[i].lineage != "" && acts[j].lineage != ""
    ensures acts[i].lineage == acts[j].lineage <==> RootOf(acts, i) == RootOf(acts, j)
  {
    hide Linked, FreshNames, DistinctIds, RootOf;
    Conserved(l, acts, i);
    Conserved(l, acts, j);
    var a, b := RootOf(acts, i), RootOf(acts, j);
    if a < b {
      assert acts[a].lineage != acts[b].lineage;
    } else if b < a {
      assert acts[b].lineage != acts[a].lineage;
    }
  }

  /**
   * Lineage conservation over all runs: every record with a lineage has depth plus remaining
   * budget equal to the budget plus one, as deep as its chain of parents is long, in the
   * lineage of its root; and one that was ever activated is within both limits.
   */
  lemma {:induction false} LineageConservation(l: Limits, steps: seq<Step>)
    requires l.maxActive >= 0
    ensures var acts := DoAll(l, Empty, steps).acts;
            forall i :: 0 <= i < |acts| ==>
              && (acts[i].lineage != "" ==>
                    acts[i].depth + acts[i].remaining == l.maxBudget + 1 && acts[i].depth == ChainLength(acts, i)
                    && acts[RootOf(acts, i)].parent == "" && acts[RootOf(acts, i)].lineage == acts[i].lineage)
              && (Granted(acts[i].status) ==> acts[i].lineage != "" && acts[i].depth <= l.maxDepth && acts[i].remaining >= 0)
  {
    EmptyIsInv(l);
    RunKeeps(l, Empty, steps);
    var s := DoAll(l, Empty, steps);
    hide DoAll, ChainLength, RootOf, Books;
    forall i | 0 <= i < |s.acts|
      ensures s.acts[i].lineage != "" ==>
                s.acts[i].depth + s.acts[i].remaining == l.maxBudget + 1 && s.acts[i].depth == ChainLength(s.acts, i)
                && s.acts[RootOf(s.acts, i)].parent == "" && s.acts[RootOf(s.acts, i)].lineage == s.acts[i].lineage
      ensures Granted(s.acts[i].status) ==> s.acts[i].lineage != "" && s.acts[i].depth <= l.maxDepth && s.acts[i].remaining >= 0
    {
      assert Linked(l, s.acts, i);
      if s.acts[i].lineage != "" {
        Conserved(l, s.acts, i);
      }
    }
  }

  /** The ids of the active records. */
  function ActiveIds(acts: seq<Act>): set<string> {
    set i | 0 <= i < |acts| && acts[i].status.Active? :: acts[i].id
  }

  lemma {:induction false} ActiveIdsStep(acts: seq<Act>, m: nat)
    requires |acts| == m + 1
    ensures ActiveIds(acts) == ActiveIds(acts[..m]) + if acts[m].status.Active? then {acts[m].id} else {}
  {
    assert forall i :: 0 <= i < m ==> acts[..m][i] == acts[i];
  }

  lemma {:induction false} ActiveIdsCount(acts: seq<Act>)
    requires DistinctIds(acts)
    ensures |ActiveIds(acts)| == ActiveCount(acts)
  {
    if acts != [] {
      var m := |acts| - 1;
      var before := acts[..m];
      assert forall i :: 0 <= i < m ==> before[i] == acts[i];
      ActiveIdsCount(before);
      ActiveIdsStep(acts, m);
      assert acts[m].id !in ActiveIds(before);
    }
  }

  /**
   * Liveness bookkeeping over all runs: until shutdown the live actors are exactly the active
   * records, and there are never more than the limit; after shutdown nothing is live; timers
   * always belong to live actors; and no lineage has two active records with one subject.
   */
  lemma {:induction false} LiveBookkeeping(l: Limits, steps: seq<Step>)
    requires l.maxActive >= 0
    ensures var s := DoAll(l, Empty, steps);
            && (if s.closed then s.live == map[] else s.live.Keys == ActiveIds(s.acts))
            && s.timers.Keys == s.live.Keys && |ActiveIds(s.acts)| <= l.maxActive && Solo(s.acts)
  {
    EmptyIsInv(l);
    RunKeeps(l, Empty, steps);
    var s := DoAll(l, Empty, steps);
    hide DoAll, FreshNames, AllLinked, OneRoot, ActiveCount, Solo;
    ActiveIdsCount(s.acts);
    forall id | id in s.live ensures id in ActiveIds(s.acts) {
      assert ActiveId(s.acts, id);
      assert s.acts[Position(s.acts, id)].id == id;
    }
  }

  // ----- Records change once -----

  /** b is a, or a was active and b is a with a final status. */
  predicate Later(a: Act, b: Act) {
    b == a || (a.status.Active? && Final(b.status) && b == a.(status := b.status))
  }

  /** No record is removed or reordered, and only active ones change, once, by ending. */
  ghost predicate Evolves(s: State, t: State) {
    |s.acts| <= |t.acts| && forall i :: 0 <= i < |s.acts| ==> Later(s.acts[i], t.acts[i])
  }

  lemma {:induction false} EvolvesTransitive(s: State, t: State, u: State)
    requires Evolves(s, t) && Evolves(t, u)
    ensures Evolves(s, u)
  {
    forall i | 0 <= i < |s.acts| ensures Later(s.acts[i], u.acts[i]) {
      assert Later(s.acts[i], t.acts[i]) && Later(t.acts[i], u.acts[i]);
    }
  }

  lemma {:induction false} LeavesEvolves(s: State, t: State)
    requires Leaves(s, t)
    ensures Evolves(s, t) && |t.acts| == |s.acts|
  {
    if Alike(s, t) {
      assert t.acts == s.(dedup := map[], results := map[]).acts;
    } else {
      var i, status :| EndsAt(s, t, i, status);
      assert t.acts == End(s, i, status).(dedup := map[], results := map[]).acts;
    }
  }

  lemma {:induction false} CleanEvolves(l: Limits, s: State, i: nat, now: int)
    requires Inv(l, s) && i <= |s.acts|
    ensures Evolves(s, CleanFrom(s, i, now))
    decreases |s.acts| - i
  {
    hide Inv, Leaves;
    if i < |s.acts| {
      if s.acts[i].status.Active? && now > s.acts[i].expires {
        ExpireAtLeaves(l, s, i);
        var t := ExpireAt(s, i);
        EndsLeave(s, t, i, Expired);
        LeavesKeeps(l, s, t);
        LeavesEvolves(s, t);
        CleanEvolves(l, t, i + 1, now);
        hide Later, ExpireAt;
        EvolvesTransitive(s, t, CleanFrom(t, i + 1, now));
      } else {
        CleanEvolves(l, s, i + 1, now);
      }
    }
  }

  lemma {:induction false} ActivateEvolves(l: Limits, s: State, r: Request, pid: Option<nat>, now: int)
    requires Inv(l, s)
    ensures Evolves(s, Activate(l, s, r, pid, now))
  {
    var cleaned := Clean(s, now);
    CleanEvolves(l, s, 0, now);
    ActivateAppends(l, s, r, pid, now);
    hide Activate, Clean, Later, Inv;
    var t := Activate(l, s, r, pid, now);
    assert forall i :: 0 <= i < |s.acts| ==> t.acts[i] == t.acts[..|cleaned.acts|][i] == cleaned.acts[i];
  }

  predicate Extends(before: seq<Act>, after: seq<Act>) {
    |before| <= |after| <= |before| + 1 && after[..|before|] == before
  }

  lemma {:induction false} AddedExtends(acts: seq<Act>, a: Act)
    ensures Extends(acts, acts + [a]) && Extends(acts, acts)
  {
    assert (acts + [a])[..|acts|] == acts == acts[..|acts|];
  }

  lemma {:induction false} NewActStatus(l: Limits, n: nat, r: Request, now: int, lineage: string, parent: string, depth: int,
                                        remaining: int, count: int, status: Status)
    ensures NewAct(l, n, r, now, lineage, parent, depth, remaining, count, status).status == status
  {
  }

  lemma {:induction false} AdmitAppends(l: Limits, s: State, active: nat, a: Act, pid: Option<nat>, now: int)
    requires a.status.Active?
    ensures Extends(s.acts, Admit(l, s, active, a, pid, now).acts)
  {
    hide DedupKey;
    assert (s.acts + [a])[..|s.acts|] == s.acts;
  }

  lemma {:induction false} ChildAppends(l: Limits, s: State, active: nat, r: Request, pid: Option<nat>, now: int)
    ensures Extends(s.acts, ActivateChild(l, s, active, r, pid, now).acts)
  {
    hide Position, ActorId, Busy, Cycle, Admit, NewAct, Extends;
    var i := Position(s.acts, r.parent);
    AddedExtends(s.acts, Orphan(l, s.counter, r, now));
    if i < |s.acts| {
      var p := s.acts[i];
      var child := NewAct(l, s.counter, r, now, p.lineage, r.parent, p.depth + 1, p.remaining - 1, p.count + 1, Active);
      AddedExtends(s.acts, child.(count := 1, status := RejectedCycle));
      AddedExtends(s.acts, child.(status := RejectedDepth));
      AddedExtends(s.acts, child.(status := RejectedBudgetExhausted));
      assert child.status.Active? by { NewActStatus(l, s.counter, r, now, p.lineage, r.parent, p.depth + 1, p.remaining - 1, p.count + 1, Active); }
      AdmitAppends(l, s, active, NewAct(l, s.counter, r, now, p.lineage, r.parent, p.depth + 1, p.remaining - 1, p.count + 1, Active), pid, now);
    }
  }

  lemma {:induction false} RootAppends(l: Limits, s: State, active: nat, r: Request, pid: Option<nat>, now: int)
    ensures Extends(s.acts, ActivateRoot(l, s, active, r, pid, now).acts)
  {
    hide ActorId, LineageId, Admit;
    AdmitAppends(l, s, active, NewAct(l, s.counter, r, now, LineageId(s.counter), "", 1, l.maxBudget, 1, Active), pid, now);
  }

  /** An activation adds at most one record to what cleaning leaves. */
  lemma {:induction false} ActivateAppends(l: Limits, s: State, r: Request, pid: Option<nat>, now: int)
    ensures Extends(Clean(s, now).acts, Activate(l, s, r, pid, now).acts)
  {
    hide Clean, DedupKey, ActiveCount, ActivateChild, ActivateRoot;
    var counted := Clean(s, now).(counter := Clean(s, now).counter + 1);
    var active := ActiveCount(Clean(s, now).acts);
    ChildAppends(l, counted, active, r, pid, now);
    RootAppends(l, counted, active, r, pid, now);
    assert Clean(s, now).acts[..|Clean(s, now).acts|] == Clean(s, now).acts;
  }

  lemma {:induction false} StepEvolves(l: Limits, s: State, a: Step)
    requires Inv(l, s)
    ensures Evolves(s, Do(l, s, a))
  {
    hide Inv, Leaves, Activate, Later;
    match a
    case DoActivate(r, pid, now) => ActivateEvolves(l, s, r, pid, now);
    case DoClean(now) => CleanEvolves(l, s, 0, now);
    case DoShutdown => assert Evolves(s, s) by { SelfEvolves(s); }
    case _ =>
      ExitLeaves(l, s, a);
      LeavesEvolves(s, Do(l, s, a));
  }

  lemma {:induction false} SelfEvolves(s: State)
    ensures Evolves(s, s)
  {
  }

  /** Over every run a record that is not active never changes again, and an active one changes only by ending. */
  lemma {:induction false} RunEvolves(l: Limits, s: State, steps: seq<Step>)
    requires Inv(l, s)
    ensures Evolves(s, DoAll(l, s, steps))
    decreases |steps|
  {
    hide Inv, Do, Evolves;
    if steps == [] {
      SelfEvolves(s);
    } else {
      StepKeeps(l, s, steps[0]);
      StepEvolves(l, s, steps[0]);
      RunEvolves(l, Do(l, s, steps[0]), steps[1..]);
      EvolvesTransitive(s, Do(l, s, steps[0]), DoAll(l, s, steps));
    }
  }

  // ----- Results -----

  /** What one step makes of the stored results: a recorded one is put under its actor with the time of the call, and nothing else changes them. */
  lemma {:induction false} ResultsExactly(l: Limits, s: State, a: Step)
    ensures Do(l, s, a).results ==
            if a.DoRecord? && a.o.actor != "" then s.results[a.o.actor := a.o.(createdAt := a.now)] else s.results
  {
    hide Activate, CleanFrom, Expire, Complete, FailActor, Record, Stopped, Panicked;
    match a
    case DoActivate(r, pid, now) => ActivateResults(l, s, r, pid, now);
    case DoExpire(id) => ExpireResults(s, id);
    case DoComplete(id) => CompleteResults(s, id);
    case DoFail(id) => FailResults(s, id);
    case DoRecord(o, now) => RecordResults(s, o, now);
    case DoStopped(id) => StoppedResults(s, id);
    case DoPanic(id) => FailResults(s, id);
    case DoClean(now) => CleanResults(s, 0, now);
    case DoShutdown =>
  }

  lemma {:induction false} ExpireResults(s: State, id: string)
    ensures Expire(s, id).results == s.results
  {
    hide KeyOf, Position, Marked;
  }

  lemma {:induction false} CompleteResults(s: State, id: string)
    ensures Complete(s, id).results == s.results
  {
    hide KeyOf, Position, Marked;
  }

  lemma {:induction false} StoppedResults(s: State, id: string)
    ensures Stopped(s, id).results == s.results
  {
    hide KeyOf, Position, Marked;
  }

  lemma {:induction false} FailResults(s: State, id: string)
    ensures FailActor(s, id).results == s.results
    ensures Panicked(s, id).results == s.results
  {
    hide KeyOf, Position, Marked;
  }

  lemma {:induction false} RecordResults(s: State, o: Outcome, now: int)
    ensures Record(s, o, now).results == if o.actor != "" then s.results[o.actor := o.(createdAt := now)] else s.results
  {
    hide KeyOf, Position, Marked;
  }

  lemma {:induction false} CleanResults(s: State, i: nat, now: int)
    requires i <= |s.acts|
    ensures CleanFrom(s, i, now).results == s.results
    decreases |s.acts| - i
  {
    hide KeyOf;
    if i < |s.acts| {
      CleanResults(s, i + 1, now);
      CleanResults(ExpireAt(s, i), i + 1, now);
    }
  }

  lemma {:induction false} AdmitResults(l: Limits, s: State, active: nat, a: Act, pid: Option<nat>, now: int)
    requires a.status.Active?
    ensures Admit(l, s, active, a, pid, now).results == s.results
  {
    hide KeyOf, Marked;
  }

  lemma {:induction false} ChildResults(l: Limits, s: State, active: nat, r: Request, pid: Option<nat>, now: int)
    ensures ActivateChild(l, s, active, r, pid, now).results == s.results
  {
    hide ActorId, Position, Busy, Cycle, Admit, NewAct;
    var i := Position(s.acts, r.parent);
    if i < |s.acts| {
      var p := s.acts[i];
      var child := NewAct(l, s.counter, r, now, p.lineage, r.parent, p.depth + 1, p.remaining - 1, p.count + 1, Active);
      NewActStatus(l, s.counter, r, now, p.lineage, r.parent, p.depth + 1, p.remaining - 1, p.count + 1, Active);
      AdmitResults(l, s, active, child, pid, now);
    }
  }

  lemma {:induction false} RootResults(l: Limits, s: State, active: nat, r: Request, pid: Option<nat>, now: int)
    ensures ActivateRoot(l, s, active, r, pid, now).results == s.results
  {
    hide ActorId, LineageId, Admit;
    AdmitResults(l, s, active, NewAct(l, s.counter, r, now, LineageId(s.counter), "", 1, l.maxBudget, 1, Active), pid, now);
  }

  lemma {:induction false} ActivateResults(l: Limits, s: State, r: Request, pid: Option<nat>, now: int)
    ensures Activate(l, s, r, pid, now).results == s.results
  {
    hide CleanFrom, DedupKey, ActiveCount, ActivateChild, ActivateRoot;
    CleanResults(s, 0, now);
    var counted := Clean(s, now).(counter := Clean(s, now).counter + 1);
    var active := ActiveCount(Clean(s, now).acts);
    ChildResults(l, counted, active, r, pid, now);
    RootResults(l, counted, active, r, pid, now);
  }
}
