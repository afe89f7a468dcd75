/** Checkpoints over live runs: one taken at any moment verifies for the rest of the run. */
module CheckpointRuns {
  import opened Wrappers
  import opened RecordCodec
  import opened Ledger
  import opened EventLog
  import opened EventLogTheory
  import opened Transition
  import opened Checkpoints
  import opened CheckpointTheory
  import opened Protocol
  import opened Recovery

  /** A shorter ledger reads as a prefix of what the longer one reads as. */
  lemma {:induction false} EarlierHistory(p: Params, rs: seq<Record>, more: seq<Record>)
    requires HistoryOf(p, more).Some? && rs <= more
    ensures |HistoryOf(p, more).value| == |more| && HistoryOf(p, rs) == Some(HistoryOf(p, more).value[..|rs|])
  {
    HistoryLength(p, more);
    HistoryPrefix(p, more, |rs|);
    assert more[..|rs|] == rs;
    hide HistoryOf;
  }

  /**
   * Take a checkpoint of the live authority after any benign run, and let any benign steps
   * follow.  Against the history then read from the recorder the checkpoint verifies, and
   * rebuilding from it gives the live authority, request bytes included, exactly when a
   * transition had been accepted before it was taken; otherwise it is refused because its
   * state differs at the head.
   */
  lemma {:induction false} CheckpointSurvives(c: Config, before: seq<Step>, after: seq<Step>, reachable: Log) returns (es: seq<Event>)
    requires c.configured && Good(c.p.rust) && BenignRun(c, Start(c.p), before)
    requires var s := RunAll(c, Start(c.p), before); s.auth.Some? && BenignRun(c, s, after)
    ensures var s := RunAll(c, Start(c.p), before);
            var cp := Take(s.auth.value);
            var t := RunAll(c, s, after);
            && Refresh(c.p, true, reachable, t.rust.node, true).1 == Some(es)
            && Verify(c.p, cp, es) == (if s.auth.value.accepted == map[] then DiffersAtHead else Fine)
            && (s.auth.value.accepted != map[] && t.auth.Some? ==> RebuildFrom(c.p, cp, es) == t.auth)
  {
    hide RunAll, BenignRun, Take, Verify, RebuildFrom, Refresh, Rebuild, HistoryOf;
    var s := RunAll(c, Start(c.p), before);
    var t := RunAll(c, s, after);
    StartInStep(c);
    var rs0, es0 := RunInStep(c, Start(c.p), before, [], []);
    var rs;
    rs, es := RunInStep(c, s, after, rs0, es0);
    RefreshInStep(c.p, reachable, t.rust.node, rs, es);
    EarlierHistory(c.p, rs0, rs);
    CheckpointVerifies(c.p, es, |rs0|);
  }
}
