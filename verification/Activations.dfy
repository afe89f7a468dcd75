/**
 * The activation controller as values: what every entry point does to the records, the
 * dedup window, the live actors and their timers.  Time is an integer; a spawn is given the
 * process id it gets, or none.
 */
module Activations {
  import opened Wrappers
  import opened Json
  import opened Decimal

  datatype Status =
    | Active | Expired | Completed | Failed | Passivated
    | RejectedInvalidLineage | RejectedCycle | RejectedDepth | RejectedBudgetExhausted | RejectedBudget

  /** An activation record, without its notes. */
  datatype Act = Act(
    id: string, workspace: string, action: string, path: string, node: string, lineage: string, parent: string,
    depth: int, budget: int, remaining: int, count: int, created: int, expires: int, status: Status)

  /** What a result message carries that the controller looks at. */
  datatype Outcome = Outcome(actor: string, status: string, body: string, createdAt: int)

  datatype Limits = Limits(maxActive: int, maxDepth: int, maxBudget: int, ttl: int)

  /** The defaults of NewWithConfig; ttl counts seconds. */
  function WithDefaults(l: Limits): Limits {
    Limits(if l.maxActive <= 0 then 16 else l.maxActive, if l.maxDepth <= 0 then 8 else l.maxDepth,
           if l.maxBudget <= 0 then 32 else l.maxBudget, if l.ttl <= 0 then 300 else l.ttl)
  }

  datatype State = State(
    acts: seq<Act>, dedup: map<string, int>, live: map<string, nat>, timers: map<string, int>,
    results: map<string, Outcome>, counter: nat, closed: bool)

  const Empty := State([], map[], map[], map[], map[], 0, false)

  // ----- Names -----

  function Zeros(n: nat): string {
    seq(n, _ => '0')
  }

  /** The %06d form of a counter. */
  function Six(n: nat): string {
    (if |Dec(n)| < 6 then Zeros(6 - |Dec(n)|) else "") + Dec(n)
  }

  function ActorId(n: nat): string { "actor-" + Six(n) }

  function LineageId(n: nat): string { "lineage-" + Six(n) }

  /** The dedup key: the three strings joined by a zero character. */
  function DedupKey(workspace: string, action: string, path: string): string {
    workspace + [0 as char] + action + [0 as char] + path
  }

  function KeyOf(a: Act): string {
    DedupKey(a.workspace, a.action, a.path)
  }

  // ----- Records -----

  /** The position of the record with this id, or the number of records. */
  function Position(acts: seq<Act>, id: string): (i: nat)
    ensures i <= |acts|
    ensures i < |acts| ==> acts[i].id == id
    ensures forall j :: 0 <= j < i ==> acts[j].id != id
  {
    if acts == [] || acts[0].id == id then 0 else 1 + Position(acts[1..], id)
  }

  function ActiveCount(acts: seq<Act>): nat {
    if acts == [] then 0 else ActiveCount(acts[..|acts| - 1]) + if acts[|acts| - 1].status.Active? then 1 else 0
  }

  function Marked(acts: seq<Act>, i: nat, status: Status): seq<Act>
    requires i < |acts|
  {
    acts[i := acts[i].(status := status)]
  }

  /** An active record of this lineage with this subject. */
  predicate Busy(acts: seq<Act>, lineage: string, workspace: string, action: string, path: string) {
    exists i :: 0 <= i < |acts| && acts[i].status.Active? && Same(acts[i], lineage, workspace, action, path)
  }

  predicate Same(a: Act, lineage: string, workspace: string, action: string, path: string) {
    a.lineage == lineage && a.workspace == workspace && a.action == action && a.path == path
  }

  // ----- Leaving the live set -----

  /** stopLiveLocked. */
  function StopLive(s: State, id: string): State {
    if id in s.live then Unhooked(s, id) else s
  }

  function Unhooked(s: State, id: string): State {
    s.(live := s.live - {id}, timers := s.timers - {id})
  }

  function Freed(s: State, key: string): State {
    s.(dedup := s.dedup - {key})
  }

  /** An active record gets its final status. */
  function Ended(s: State, i: nat, status: Status): State
    requires i < |s.acts|
  {
    s.(acts := Marked(s.acts, i, status))
  }

  /** expireActor, and what cleanLocked does to one record. */
  function ExpireAt(s: State, i: nat): State
    requires i < |s.acts|
  {
    Freed(StopLive(Ended(s, i, Expired), s.acts[i].id), KeyOf(s.acts[i]))
  }

  function Expire(s: State, id: string): State {
    var i := Position(s.acts, id);
    if i == |s.acts| || !s.acts[i].status.Active? then s else ExpireAt(s, i)
  }

  /** Complete: frees the key even when the record had already ended. */
  function Complete(s: State, id: string): State {
    var i := Position(s.acts, id);
    if i == |s.acts| then s else
      Freed(StopLive(if s.acts[i].status.Active? then Ended(s, i, Completed) else s, id), KeyOf(s.acts[i]))
  }

  /** Fail: leaves the key alone. */
  function FailActor(s: State, id: string): State {
    var i := Position(s.acts, id);
    if i == |s.acts| then s else
      StopLive(if s.acts[i].status.Active? then Ended(s, i, Failed) else s, id)
  }

  /** RecordResult. */
  function Record(s: State, o: Outcome, now: int): State {
    if o.actor == "" then s else
      var kept := s.(results := s.results[o.actor := o.(createdAt := now)]);
      var i := Position(s.acts, o.actor);
      if i < |s.acts| && s.acts[i].status.Active? && (o.status == "completed" || o.status == "observation") then
        Freed(StopLive(Ended(kept, i, Completed), o.actor), KeyOf(s.acts[i]))
      else kept
  }

  /** handleStopped. */
  function Stopped(s: State, id: string): State {
    var i := Position(s.acts, id);
    if i < |s.acts| && s.acts[i].status.Active? then
      Freed(Unhooked(Ended(s, i, Passivated), id), KeyOf(s.acts[i]))
    else Unhooked(s, id)
  }

  /** recordFailure. */
  function Panicked(s: State, id: string): State {
    var i := Position(s.acts, id);
    if i == |s.acts| then s else
      Unhooked(if s.acts[i].status.Active? then Ended(s, i, Failed) else s, id)
  }

  function Shutdown(s: State): State {
    if s.closed then s else s.(closed := true, live := map[], timers := map[])
  }

  /** cleanLocked from record i on. */
  function CleanFrom(s: State, i: nat, now: int): State
    requires i <= |s.acts|
    decreases |s.acts| - i
  {
    if i == |s.acts| then s
    else if s.acts[i].status.Active? && now > s.acts[i].expires then CleanFrom(ExpireAt(s, i), i + 1, now)
    else CleanFrom(s, i + 1, now)
  }

  function Clean(s: State, now: int): State {
    CleanFrom(s, 0, now)
  }

  // ----- Activation -----

  datatype Request = Request(parent: string, workspace: string, action: string, path: string)

  /** The record of a request at a place in a lineage. */
  function NewAct(l: Limits, n: nat, r: Request, now: int, lineage: string, parent: string, depth: int, remaining: int, count: int,
                  status: Status): Act
  {
    Act(ActorId(n), r.workspace, r.action, r.path, r.workspace, lineage, parent, depth, remaining, remaining, count, now,
        now + l.ttl, status)
  }

  function Added(s: State, a: Act): State {
    s.(acts := s.acts + [a])
  }

  /** spawnLocked on the record just added. */
  function Spawned(l: Limits, s: State, pid: Option<nat>, now: int): State
    requires s.acts != []
  {
    var i := |s.acts| - 1;
    if s.closed || pid.None? then Ended(s, i, Failed)
    else
      var id := s.acts[i].id;
      s.(live := s.live[id := pid.value], timers := s.timers[id := now + l.ttl])
  }

  /** The end of ActivateWithParent: the limit on active records, then the spawn. */
  function Admit(l: Limits, s: State, active: nat, a: Act, pid: Option<nat>, now: int): State
    requires a.status.Active?
  {
    if active >= l.maxActive then Added(s, a.(status := RejectedBudget))
    else Spawned(l, Added(s, a).(dedup := s.dedup[KeyOf(a) := a.expires]), pid, now)
  }

  /** A record for a child whose parent is unknown or has no lineage. */
  function Orphan(l: Limits, n: nat, r: Request, now: int): Act {
    NewAct(l, n, r, now, "", r.parent, 0, 0, 1, RejectedInvalidLineage)
  }

  predicate Cycle(p: Act, r: Request) {
    p.node != "" && r.workspace == p.node && r.action == p.action && r.path == p.path
  }

  /** The child branch, on a state whose counter has moved on. */
  function ActivateChild(l: Limits, s: State, active: nat, r: Request, pid: Option<nat>, now: int): State {
    var i := Position(s.acts, r.parent);
    if i == |s.acts| || s.acts[i].lineage == "" then Added(s, Orphan(l, s.counter, r, now))
    else
      var p := s.acts[i];
      var child := NewAct(l, s.counter, r, now, p.lineage, r.parent, p.depth + 1, p.remaining - 1, p.count + 1, Active);
      if Cycle(p, r) then Added(s, child.(count := 1, status := RejectedCycle))
      else if Busy(s.acts, p.lineage, r.workspace, r.action, r.path) then s
      else if child.depth > l.maxDepth then Added(s, child.(status := RejectedDepth))
      else if child.remaining < 0 then Added(s, child.(status := RejectedBudgetExhausted))
      else Admit(l, s, active, child, pid, now)
  }

  /** The root branch, on a state whose counter has moved on. */
  function ActivateRoot(l: Limits, s: State, active: nat, r: Request, pid: Option<nat>, now: int): State {
    var root := NewAct(l, s.counter, r, now, LineageId(s.counter), "", 1, l.maxBudget, 1, Active);
    if root.depth > l.maxDepth then Added(s, root.(status := RejectedDepth))
    else if root.remaining < 0 then Added(s, root.(status := RejectedBudgetExhausted))
    else Admit(l, s, active, root, pid, now)
  }

  /** ActivateWithParent. */
  function Activate(l: Limits, before: State, r: Request, pid: Option<nat>, now: int): State {
    var s := Clean(before, now);
    var key := DedupKey(r.workspace, r.action, r.path);
    if r.parent == "" && key in s.dedup && now < s.dedup[key] then s
    else
      var active := ActiveCount(s.acts);
      var counted := s.(counter := s.counter + 1);
      if r.parent != "" then ActivateChild(l, counted, active, r, pid, now)
      else ActivateRoot(l, counted, active, r, pid, now)
  }

  // ----- Runs -----

  datatype Step =
    | DoActivate(r: Request, pid: Option<nat>, now: int)
    | DoExpire(id: string)
    | DoComplete(id: string)
    | DoFail(id: string)
    | DoRecord(o: Outcome, now: int)
    | DoStopped(id: string)
    | DoPanic(id: string)
    | DoClean(now: int)
    | DoShutdown

  function Do(l: Limits, s: State, a: Step): State {
    match a
    case DoActivate(r, pid, now) => Activate(l, s, r, pid, now)
    case DoExpire(id) => Expire(s, id)
    case DoComplete(id) => Complete(s, id)
    case DoFail(id) => FailActor(s, id)
    case DoRecord(o, now) => Record(s, o, now)
    case DoStopped(id) => Stopped(s, id)
    case DoPanic(id) => Panicked(s, id)
    case DoClean(now) => Clean(s, now)
    case DoShutdown => Shutdown(s)
  }

  function DoAll(l: Limits, s: State, steps: seq<Step>): State
    decreases |steps|
  {
    if steps == [] then s else DoAll(l, Do(l, s, steps[0]), steps[1..])
  }
}
