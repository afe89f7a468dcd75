/**
 * The three parties together: the Go authority, the Go log and the Rust recorder, as a
 * state machine over proposals, opaque appends, crashes, lost replies and restarts.
 */
module Protocol {
  import opened Wrappers
  import opened Json
  import opened RecordCodec
  import opened Ledger
  import opened LedgerTheory
  import opened EventLog
  import opened Transition

  /** What does not change during a run. */
  datatype Config = Config(p: Params, configured: bool, policy: (Normal, Projection) -> bool)

  /** The recorder process, the Go log, and the Go authority; None when Go has refused to start. */
  datatype Sys = Sys(rust: Machine, log: Log, auth: Option<Auth>)

  datatype Entrance = Propose | Restore | Import

  datatype Step =
    | Admit(entrance: Entrance, proposal: Proposal, now: string, h: Hazards)
    | Opaque(ev: Event, now: string, h: Hazards)
    | Reread(reachable: bool)
    | RestartGo(reachable: bool)
    | RestartRust
    | RustCheckpoint(fault: Fault)

  ghost function Start(p: Params): Sys {
    Sys(Machine(Node(Disk(Absent, []), Origin), true), NewLog, Some(Fresh(p)))
  }

  /** Restore and Import are Propose with the operation fixed. */
  function Entered(e: Entrance, x: Proposal): Proposal {
    match e
    case Propose => x
    case Restore => x.(operation := "restore")
    case Import => x.(operation := "import")
  }

  /** A recorder that is down cannot be reached. */
  function Reaching(m: Machine, h: Hazards): Hazards {
    if m.up then h else h.(trip := NotSent)
  }

  /** NewFromEventLog after New: reload the mirror, read the recorder, rebuild. */
  ghost function Restarted(c: Config, s: Sys, reachable: bool): Sys {
    var loaded := Loaded(c.configured, s.log.mirror);
    if loaded.None? then s.(auth := None) else
      var (log, events) := Refresh(c.p, c.configured, loaded.value, s.rust.node, reachable && s.rust.up);
      s.(log := log, auth := if events.None? then None else Rebuild(c.p, events.value))
  }

  ghost function Next(c: Config, s: Sys, a: Step): Sys {
    match a
    case Admit(entrance, proposal, now, h) =>
      if s.auth.None? then s else
        var (auth, log, node, _) :=
          ProposeStep(c.p, c.configured, c.policy, s.auth.value, s.log, s.rust.node, Entered(entrance, proposal), now, Reaching(s.rust, h));
        Sys(s.rust.(node := node), log, Some(auth))
    case Opaque(ev, now, h) =>
      if s.auth.None? then s else
        var (log, node, _) := AppendEvent(c.p, c.configured, s.log, s.rust.node, ev, now, Reaching(s.rust, h));
        Sys(s.rust.(node := node), log, s.auth)
    case Reread(reachable) =>
      if s.auth.None? then s else s.(log := Refresh(c.p, c.configured, s.log, s.rust.node, reachable && s.rust.up).0)
    case RestartGo(reachable) => Restarted(c, s, reachable)
    case RestartRust => s.(rust := Do(c.p.rust, s.rust, Restart))
    case RustCheckpoint(fault) => s.(rust := Do(c.p.rust, s.rust, WriteCheckpointFile(fault)))
  }

  ghost function RunAll(c: Config, s: Sys, steps: seq<Step>): Sys
    decreases |steps|
  {
    if steps == [] then s else RunAll(c, Next(c, s, steps[0]), steps[1..])
  }

  /** Only the authority writes events of the accepted kind. */
  predicate Legal(a: Step) {
    a.Opaque? ==> a.ev.kind != ACCEPTED_KIND
  }
}
