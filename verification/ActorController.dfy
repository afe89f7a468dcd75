/** The activation controller as it runs: record objects shared by a list and a map, and the maps beside them. */
module ActorController {
  import opened Wrappers
  import opened Activations
  import opened ActivationTheory

  /** One activation record; only its status is ever assigned after it is made. */
  class Activation {
    const fixed: Act
    var status: Status

    constructor (a: Act)
      ensures fixed == a && status == a.status
    {
      fixed := a;
      status := a.status;
    }

    function Value(): Act
      reads this
    {
      fixed.(status := status)
    }
  }

  /** The map has exactly the listed records, each under its id. */
  ghost predicate WiredWith(list: seq<Activation>, byId: map<string, Activation>) {
    && (forall i, j :: 0 <= i < j < |list| ==> list[i].fixed.id != list[j].fixed.id)
    && (forall i :: 0 <= i < |list| ==> list[i].fixed.id in byId && byId[list[i].fixed.id] == list[i])
    && (forall k :: k in byId ==> byId[k] in list && byId[k].fixed.id == k)
  }

  lemma {:induction false} WiredGrows(list: seq<Activation>, byId: map<string, Activation>, act: Activation)
    requires WiredWith(list, byId) && act.fixed.id !in byId
    ensures WiredWith(list + [act], byId[act.fixed.id := act])
  {
    var all := list + [act];
    forall i | 0 <= i < |list| ensures all[i].fixed.id != act.fixed.id {
      assert list[i].fixed.id in byId;
    }
  }

  class Controller {
    const limits: Limits
    var activations: seq<Activation>
    var descriptors: map<string, Activation>
    var dedup: map<string, int>
    var live: map<string, nat>
    var timers: map<string, int>
    var results: map<string, Outcome>
    var counter: nat
    var closed: bool

    function Values(): seq<Act>
      reads this`activations, activations
    {
      var list := activations;
      seq(|list|, i requires 0 <= i < |list| reads list => list[i].Value())
    }

    function Model(): State
      reads this, activations
    {
      State(Values(), dedup, live, timers, results, counter, closed)
    }

    ghost predicate Wired()
      reads this`activations, this`descriptors
    {
      WiredWith(activations, descriptors)
    }

    ghost predicate Valid()
      reads this, activations
    {
      Wired() && Inv(limits, Model())
    }

    /** NewWithConfig. */
    constructor (config: Limits)
      ensures Valid() && limits == WithDefaults(config) && Model() == Empty
      ensures limits.maxActive > 0 && limits.maxDepth > 0 && limits.maxBudget > 0 && limits.ttl > 0
    {
      limits := WithDefaults(config);
      activations := [];
      descriptors := map[];
      dedup := map[];
      live := map[];
      timers := map[];
      results := map[];
      counter := 0;
      closed := false;
      new;
      EmptyIsInv(limits);
    }

    /** Where the model finds the record of an id. */
    lemma {:induction false} Found(id: string)
      requires Wired()
      ensures |Values()| == |activations|
      ensures id in descriptors <==> Position(Values(), id) < |activations|
      ensures id in descriptors ==> activations[Position(Values(), id)] == descriptors[id]
    {
      var i := Position(Values(), id);
      if i < |activations| {
        assert Values()[i].id == activations[i].fixed.id == id;
      }
      if id in descriptors {
        var k :| 0 <= k < |activations| && activations[k] == descriptors[id];
        assert Values()[k].id == id;
      }
    }

    lemma {:induction false} Apart(i: nat, j: nat)
      requires Wired() && i < |activations| && j < |activations| && i != j
      ensures activations[i] != activations[j]
    {
    }

    lemma {:induction false} ValueAt(i: nat)
      requires i < |activations|
      ensures Values()[i] == activations[i].Value()
    {
    }

    /** Assigning a record's status. */
    method Mark(act: Activation, status: Status, ghost i: nat)
      requires Wired() && i < |activations| && activations[i] == act
      modifies act
      ensures Model() == Ended(old(Model()), i, status)
    {
      hide Wired;
      act.status := status;
      forall k | 0 <= k < |activations| ensures Values()[k] == Marked(old(Values()), i, status)[k] {
        if k != i { Apart(k, i); }
      }
    }

    /** stopLiveLocked. */
    method StopLiveActor(id: string)
      modifies this`live, this`timers
      ensures Model() == StopLive(old(Model()), id)
    {
      if id in live {
        live := live - {id};
        if id in timers {
          timers := timers - {id};
        }
        assert id !in old(timers) ==> old(timers) - {id} == old(timers);
      }
    }

    /** Deletes an actor and its timer, live or not. */
    method Unhook(id: string)
      modifies this`live, this`timers
      ensures Model() == Unhooked(old(Model()), id)
    {
      live := live - {id};
      if id in timers {
        timers := timers - {id};
      }
      assert id !in old(timers) ==> old(timers) - {id} == old(timers);
    }

    /** Ends an active record: its final status, its actor stopped, its key freed. */
    method Finish(act: Activation, status: Status, ghost i: nat)
      requires Wired() && i < |activations| && activations[i] == act
      modifies act, this`dedup, this`live, this`timers
      ensures Model() == Freed(StopLive(Ended(old(Model()), i, status), act.fixed.id), KeyOf(act.fixed))
      ensures Wired()
    {
      hide Wired, Values, DedupKey, StopLive, Marked;
      Mark(act, status, i);
      StopLiveActor(act.fixed.id);
      dedup := dedup - {KeyOf(act.fixed)};
    }

    /** expireActor: the timer fired. */
    method ExpireActor(id: string)
      requires Valid()
      modifies this`dedup, this`live, this`timers, activations
      ensures Valid() && Model() == Expire(old(Model()), id)
    {
      hide Inv, Position, Wired, Values, DedupKey, StopLive, Marked;
      ghost var before, i := Model(), Position(Values(), id);
      Found(id);
      StepKeeps(limits, before, DoExpire(id));
      if id !in descriptors {
        return;
      }
      ValueAt(i);
      var act := descriptors[id];
      if act.status != Active {
        return;
      }
      Finish(act, Expired, i);
    }

    /** Complete. */
    method CompleteActor(id: string)
      requires Valid()
      modifies this`dedup, this`live, this`timers, activations
      ensures Valid() && Model() == Complete(old(Model()), id)
    {
      hide Inv, Position, Wired, Values, DedupKey, StopLive, Marked;
      ghost var before, i := Model(), Position(Values(), id);
      Found(id);
      StepKeeps(limits, before, DoComplete(id));
      if id !in descriptors {
        return;
      }
      ValueAt(i);
      var act := descriptors[id];
      if act.status == Active {
        Mark(act, Completed, i);
      }
      StopLiveActor(id);
      dedup := dedup - {KeyOf(act.fixed)};
    }

    /** Fail: the reason only goes into the notes. */
    method Fail(id: string)
      requires Valid()
      modifies this`live, this`timers, activations
      ensures Valid() && Model() == FailActor(old(Model()), id)
    {
      hide Inv, Position, Wired, Values, DedupKey, StopLive, Marked;
      ghost var before, i := Model(), Position(Values(), id);
      Found(id);
      StepKeeps(limits, before, DoFail(id));
      if id !in descriptors {
        return;
      }
      ValueAt(i);
      var act := descriptors[id];
      if act.status == Active {
        Mark(act, Failed, i);
      }
      StopLiveActor(id);
    }

    /** RecordResult: stores the result; a finished actor that reports is completed. */
    method RecordResult(o: Outcome, now: int)
      requires Valid()
      modifies this`dedup, this`live, this`timers, this`results, activations
      ensures Valid() && Model() == Record(old(Model()), o, now)
    {
      hide Inv, Position, Wired, Values, DedupKey, StopLive, Marked;
      ghost var before, i := Model(), Position(Values(), o.actor);
      Found(o.actor);
      StepKeeps(limits, before, DoRecord(o, now));
      if o.actor == "" {
        return;
      }
      results := results[o.actor := o.(createdAt := now)];
      if o.actor in descriptors {
        ValueAt(i);
        var act := descriptors[o.actor];
        if act.status == Active && (o.status == "completed" || o.status == "observation") {
          Finish(act, Completed, i);
        }
      }
    }

    /** handleStopped: the actor system reports that an actor has stopped. */
    method HandleStopped(id: string)
      requires Valid()
      modifies this`dedup, this`live, this`timers, activations
      ensures Valid() && Model() == Stopped(old(Model()), id)
    {
      hide Inv, Position, Wired, Values, DedupKey, Unhooked, Marked;
      ghost var before, i := Model(), Position(Values(), id);
      Found(id);
      StepKeeps(limits, before, DoStopped(id));
      if id in descriptors {
        ValueAt(i);
        var act := descriptors[id];
        if act.status == Active {
          Mark(act, Passivated, i);
          Unhook(id);
          dedup := dedup - {KeyOf(act.fixed)};
          return;
        }
      }
      Unhook(id);
    }

    /** recordFailure: an actor panicked. */
    method RecordFailure(id: string)
      requires Valid()
      modifies this`live, this`timers, activations
      ensures Valid() && Model() == Panicked(old(Model()), id)
    {
      hide Inv, Position, Wired, Values, DedupKey, Unhooked, Marked;
      ghost var before, i := Model(), Position(Values(), id);
      Found(id);
      StepKeeps(limits, before, DoPanic(id));
      if id in descriptors {
        ValueAt(i);
        var act := descriptors[id];
        if act.status == Active {
          Mark(act, Failed, i);
        }
        Unhook(id);
      }
    }

    /** Shutdown, up to the stopping of the actors it collects. */
    method Close()
      requires Valid()
      modifies this`closed, this`live, this`timers
      ensures Valid() && Model() == Shutdown(old(Model()))
    {
      hide Inv, Wired, Values;
      StepKeeps(limits, Model(), DoShutdown);
      if closed {
        return;
      }
      closed := true;
      live := map[];
      timers := map[];
    }

    /** cleanLocked: every record that outlived its time expires. */
    method CleanUp(now: int)
      requires Valid()
      modifies this`dedup, this`live, this`timers, activations
      ensures Valid() && Model() == Clean(old(Model()), now)
    {
      hide Inv, Position, Wired, Values, DedupKey, StopLive, Marked;
      StepKeeps(limits, Model(), DoClean(now));
      ValueCount();
      var i := 0;
      while i < |activations|
        invariant Wired() && |Values()| == |activations| && 0 <= i <= |activations|
        invariant CleanFrom(Model(), i, now) == Clean(old(Model()), now)
      {
        ValueAt(i);
        var act := activations[i];
        if act.status == Active && now > act.fixed.expires {
          Finish(act, Expired, i);
          ValueCount();
        }
        i := i + 1;
      }
    }

    /** The loop that counts active records. */
    method CountActive() returns (n: nat)
      ensures n == ActiveCount(Values())
    {
      n := 0;
      var i := 0;
      assert Values()[..0] == [];
      while i < |activations|
        invariant 0 <= i <= |activations| && n == ActiveCount(Values()[..i])
      {
        assert Values()[..i + 1][..i] == Values()[..i];
        if activations[i].status == Active {
          n := n + 1;
        }
        i := i + 1;
      }
      assert Values()[..i] == Values();
    }

    /** The scan for an active record of the lineage with the same subject. */
    method IsBusy(lineage: string, r: Request) returns (busy: bool)
      ensures busy == Busy(Values(), lineage, r.workspace, r.action, r.path)
    {
      var i := 0;
      while i < |activations|
        invariant 0 <= i <= |activations|
        invariant forall j :: 0 <= j < i ==> !(Values()[j].status.Active? && Same(Values()[j], lineage, r.workspace, r.action, r.path))
      {
        var a := activations[i];
        if a.status == Active && a.fixed.lineage == lineage && a.fixed.workspace == r.workspace
           && a.fixed.action == r.action && a.fixed.path == r.path {
          assert Values()[i].status.Active? && Same(Values()[i], lineage, r.workspace, r.action, r.path);
          return true;
        }
        i := i + 1;
      }
      return false;
    }

    /** Appends a record to the list and the map. */
    method AddRecord(a: Act) returns (act: Activation)
      requires Wired() && a.id !in descriptors
      modifies this`activations, this`descriptors
      ensures Wired() && fresh(act) && activations == old(activations) + [act] && act.fixed == a
      ensures Model() == Added(old(Model()), a)
    {
      hide WiredWith;
      act := new Activation(a);
      WiredGrows(activations, descriptors, act);
      activations := activations + [act];
      descriptors := descriptors[a.id := act];
      assert act.Value() == a;
      forall i | 0 <= i < |activations| ensures Values()[i] == (old(Values()) + [a])[i] {
        if i < |old(activations)| { assert activations[i] == old(activations)[i]; }
      }
    }

    /** The next counter's id is not taken. */
    lemma {:induction false} NextIsFree(n: nat)
      requires Valid() && n > counter
      ensures ActorId(n) !in descriptors
    {
      hide ActorId, LineageId, Books, AllLinked, OneRoot;
      Found(ActorId(n));
      assert forall k :: 0 <= k < |Values()| ==> Values()[k] in Values();
    }

    /** spawnLocked, on the record added last. */
    method SpawnActor(act: Activation, pid: Option<nat>, now: int)
      requires Wired() && activations != [] && activations[|activations| - 1] == act
      modifies this`live, this`timers, act
      ensures Wired() && Model() == Spawned(limits, old(Model()), pid, now)
    {
      ValueAt(|activations| - 1);
      hide Wired, Values, Marked;
      ValueCount();
      if closed || pid.None? {
        Mark(act, Failed, |activations| - 1);
        return;
      }
      live := live[act.fixed.id := pid.value];
      timers := timers[act.fixed.id := now + limits.ttl];
    }

    lemma {:induction false} ValueCount()
      ensures |Values()| == |activations|
    {
    }

    /** The tail of ActivateWithParent that both branches reach. */
    method AdmitRecord(a: Act, active: nat, pid: Option<nat>, now: int) returns (act: Activation)
      requires Wired() && a.id !in descriptors && a.status.Active?
      modifies this`activations, this`descriptors, this`dedup, this`live, this`timers
      ensures Wired() && fresh(act) && activations == old(activations) + [act]
      ensures Model() == Admit(limits, old(Model()), active, a, pid, now)
    {
      hide Wired, Values, DedupKey, Marked;
      if active >= limits.maxActive {
        act := AddRecord(a.(status := RejectedBudget));
        return;
      }
      act := AddRecord(a);
      dedup := dedup[KeyOf(a) := a.expires];
      SpawnActor(act, pid, now);
    }

    /** The child branch: lineage, cycle, duplicate, depth and budget checks, in this order. */
    method ActivateChildRecord(r: Request, active: nat, pid: Option<nat>, now: int) returns (act: Activation?)
      requires Wired() && ActorId(counter) !in descriptors
      modifies this`activations, this`descriptors, this`dedup, this`live, this`timers
      ensures Wired() && Model() == ActivateChild(limits, old(Model()), active, r, pid, now)
      ensures if act == null then activations == old(activations) else fresh(act) && activations == old(activations) + [act]
    {
      hide Wired, Values, DedupKey, Position, ActorId, Busy, Admit;
      Found(r.parent);
      if r.parent !in descriptors {
        act := AddRecord(Orphan(limits, counter, r, now));
        return;
      }
      ValueAt(Position(Values(), r.parent));
      var p := descriptors[r.parent].fixed;
      if p.lineage == "" {
        act := AddRecord(Orphan(limits, counter, r, now));
        return;
      }
      var child := NewAct(limits, counter, r, now, p.lineage, r.parent, p.depth + 1, p.remaining - 1, p.count + 1, Active);
      if p.node != "" && r.workspace == p.node && r.action == p.action && r.path == p.path {
        act := AddRecord(child.(count := 1, status := RejectedCycle));
        return;
      }
      var busy := IsBusy(p.lineage, r);
      if busy {
        return null;
      }
      if child.depth > limits.maxDepth {
        act := AddRecord(child.(status := RejectedDepth));
        return;
      }
      if child.remaining < 0 {
        act := AddRecord(child.(status := RejectedBudgetExhausted));
        return;
      }
      act := AdmitRecord(child, active, pid, now);
    }

    /** The root branch. */
    method ActivateRootRecord(r: Request, active: nat, pid: Option<nat>, now: int) returns (act: Activation)
      requires Wired() && ActorId(counter) !in descriptors
      modifies this`activations, this`descriptors, this`dedup, this`live, this`timers
      ensures Wired() && Model() == ActivateRoot(limits, old(Model()), active, r, pid, now)
      ensures fresh(act) && activations == old(activations) + [act]
    {
      hide Wired, Values, DedupKey, ActorId, LineageId, Admit;
      var root := NewAct(limits, counter, r, now, LineageId(counter), "", 1, limits.maxBudget, 1, Active);
      if root.depth > limits.maxDepth {
        act := AddRecord(root.(status := RejectedDepth));
        return;
      }
      if root.remaining < 0 {
        act := AddRecord(root.(status := RejectedBudgetExhausted));
        return;
      }
      act := AdmitRecord(root, active, pid, now);
    }

    /** ActivateWithParent; a null result is a suppressed duplicate. */
    method ActivateWithParent(r: Request, pid: Option<nat>, now: int) returns (act: Activation?)
      requires Valid()
      modifies this`activations, this`descriptors, this`dedup, this`live, this`timers, this`counter, activations
      ensures Valid() && Model() == Activate(limits, old(Model()), r, pid, now)
      ensures if act == null then activations == old(activations) else fresh(act) && activations == old(activations) + [act]
    {
      hide Inv, Wired, Values, DedupKey, ActorId, ActiveCount, ActivateChild, ActivateRoot, Clean;
      StepKeeps(limits, Model(), DoActivate(r, pid, now));
      CleanUp(now);
      var key := DedupKey(r.workspace, r.action, r.path);
      if r.parent == "" && key in dedup && now < dedup[key] {
        return null;
      }
      NextIsFree(counter + 1);
      var active := CountActive();
      counter := counter + 1;
      if r.parent != "" {
        act := ActivateChildRecord(r, active, pid, now);
      } else {
        act := ActivateRootRecord(r, active, pid, now);
      }
    }

    /** Activate: a root activation. */
    method ActivateTop(workspace: string, action: string, path: string, pid: Option<nat>, now: int) returns (act: Activation?)
      requires Valid()
      modifies this`activations, this`descriptors, this`dedup, this`live, this`timers, this`counter, activations
      ensures Valid() && Model() == Activate(limits, old(Model()), Request("", workspace, action, path), pid, now)
    {
      act := ActivateWithParent(Request("", workspace, action, path), pid, now);
    }
  }
}
