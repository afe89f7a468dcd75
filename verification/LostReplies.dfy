/**
 * What the claim that restart gives back the live state does not cover: a reply lost after
 * the recorder committed, and number literals that a reload changes.
 */
module LostReplies {
  import opened Wrappers
  import opened Json
  import Bytes
  import opened Decimal
  import opened Members
  import opened RecordCodec
  import opened Ledger
  import opened LedgerTheory
  import opened EventLog
  import opened EventLogTheory
  import opened Transition
  import opened TransitionTheory
  import ProjectionTheory
  import opened Recovery

  /** The id is bound to no record. */
  ghost predicate Unbound(rs: seq<Record>, id: string) {
    id != "" && Find(rs, id) == |rs|
  }

  lemma {:induction false} FindNew(rs: seq<Record>, r: Record, id: string)
    requires Find(rs, id) == |rs| && EvidenceId(r.evidence) != Some(id)
    ensures Find(rs + [r], id) == |rs| + 1
  {
    assert forall j :: 0 <= j < |rs| ==> (rs + [r])[j] == rs[j];
    assert (rs + [r])[|rs|] == r;
  }

  lemma {:induction false} FindLast(rs: seq<Record>, r: Record, id: string)
    requires Find(rs, id) == |rs| && EvidenceId(r.evidence) == Some(id)
    ensures Find(rs + [r], id) == |rs|
  {
    assert forall j :: 0 <= j < |rs| ==> (rs + [r])[j] == rs[j];
    assert (rs + [r])[|rs|] == r;
  }

  /** An event under a new id is recorded when the disk works, whatever becomes of the reply. */
  lemma {:induction false} NewIdIsRecorded(p: Params, n: Node, rs: seq<Record>, ev: Event)
    requires Good(p.rust) && Sound(p.rust, n, rs, []) && Clean(n, rs, []) && Unbound(rs, ev.id)
    ensures var (n', answer) := AppendStep(p.rust, n, Evidence(ev), NoFault);
            var r := NextRecord(p.rust, n.accepted, Evidence(ev));
            && Sound(p.rust, n', rs + [r], []) && Clean(n', rs + [r], [])
            && answer == Success(Ack(Str(ev.id), |rs| + 1, r.hash))
  {
    EvidenceIds(ev);
    AppendSound(p.rust, n, rs, [], Evidence(ev), NoFault);
    hide Evidence, AppendStep, Find, ReplayFrom, Stored, UniqueIds, AllBound;
  }

  /** A record whose event carries another sequence ends the readable history for good. */
  lemma {:induction false} WrongSequence(p: Params, rs: seq<Record>, log: Log, ev: Event, now: string, s: State, more: seq<Record>)
    requires Good(p.rust) && Replay(p.rust, rs) == Success(s) && ev.id != "" && log.sequence != |rs|
    ensures HistoryOf(p, rs + [NextRecord(p.rust, s, Evidence(Prepared(log, p, ev, now)))] + more).None?
  {
    var e := Prepared(log, p, ev, now);
    var r := NextRecord(p.rust, s, Evidence(e));
    var all := rs + [r] + more;
    PreparedFields(log, p, ev, now);
    EvidenceRoundTrip(p, e);
    HeadAndCount(p.rust, rs);
    HistoryAppend(p, rs, r);
    hide Evidence, FromEvidence, ReplayFrom, Prepared, HistoryOf, HashEvent, ReloadAll;
    if HistoryOf(p, rs).Some? {
      NextEventIs(p, rs, HistoryOf(p, rs).value, r, e.(details := ReloadAll(p.reload, e.details), rustAck := Option.None));
    }
    assert all[..|rs| + 1] == rs + [r];
    if HistoryOf(p, all).Some? {
      HistoryPrefix(p, all, |rs| + 1);
    }
  }

  /** An append whose reply is lost: the recorder is one record further, Go is where it was. */
  lemma {:induction false} LostReply(p: Params, log: Log, n: Node, rs: seq<Record>, ev: Event, now: string, m: MirrorWrite)
    returns (n': Node, x: Record)
    requires Good(p.rust) && Sound(p.rust, n, rs, []) && Clean(n, rs, []) && Unbound(rs, ev.id)
    ensures AppendEvent(p, true, log, n, ev, now, Hazards(ReplyLost, NoFault, m)) == (log, n', None)
    ensures x == NextRecord(p.rust, n.accepted, Evidence(Prepared(log, p, ev, now)))
    ensures Sound(p.rust, n', rs + [x], []) && Clean(n', rs + [x], []) && EvidenceId(x.evidence) == Some(ev.id)
  {
    var e := Prepared(log, p, ev, now);
    PreparedFields(log, p, ev, now);
    hide AppendEvent, AppendStep, Prepared, Evidence, Find, Sound, Clean;
    AppendForwards(p, log, n, ev, now, Hazards(ReplyLost, NoFault, m));
    NewIdIsRecorded(p, n, rs, e);
    EvidenceIds(e);
    x := NextRecord(p.rust, n.accepted, Evidence(e));
    n' := AppendStep(p.rust, n, Evidence(e), NoFault).0;
  }

  /** An append that arrives at a recorder that is further than the log: recorded, but not acknowledged. */
  lemma {:induction false} BehindIsRefused(p: Params, log: Log, n: Node, rs: seq<Record>, ev: Event, now: string)
    returns (n': Node, y: Record)
    requires Good(p.rust) && Sound(p.rust, n, rs, []) && Clean(n, rs, []) && Unbound(rs, ev.id) && log.sequence + 1 == |rs|
    ensures AppendEvent(p, true, log, n, ev, now, Smooth) == (log, n', None)
    ensures y == NextRecord(p.rust, n.accepted, Evidence(Prepared(log, p, ev, now)))
    ensures Sound(p.rust, n', rs + [y], []) && Clean(n', rs + [y], [])
  {
    var e := Prepared(log, p, ev, now);
    PreparedFields(log, p, ev, now);
    hide AppendEvent, AppendStep, Prepared, Evidence, Find, Sound, Clean;
    AppendForwards(p, log, n, ev, now, Smooth);
    NewIdIsRecorded(p, n, rs, e);
    y := NextRecord(p.rust, n.accepted, Evidence(e));
    n' := AppendStep(p.rust, n, Evidence(e), NoFault).0;
  }

  /** The records a recorder in this state has replayed. */
  lemma {:induction false} CleanReplays(w: World, n: Node, rs: seq<Record>)
    requires Sound(w, n, rs, []) && Clean(n, rs, [])
    ensures Replay(w, rs) == Success(n.accepted)
  {
    assert rs[..|rs|] == rs;
  }

  /**
   * A lost reply followed by any other event: the recorder takes both, Go reports both as
   * failed, and from then on no ledger that extends these records is ever readable again.
   */
  lemma {:induction false} LostReplyThenAnother(p: Params, log: Log, n: Node, rs: seq<Record>, es: seq<Event>, first: Event, second: Event,
                                                now: string, later: string, m: MirrorWrite, more: seq<Record>)
    returns (x: Record, y: Record)
    requires Good(p.rust) && Readable(p, n, rs, es) && Aligned(log, rs, es)
    requires Unbound(rs, first.id) && Unbound(rs, second.id) && first.id != second.id
    ensures var (log1, n1, saved1) := AppendEvent(p, true, log, n, first, now, Hazards(ReplyLost, NoFault, m));
            var (log2, n2, saved2) := AppendEvent(p, true, log1, n1, second, later, Smooth);
            && saved1.None? && saved2.None? && log2 == log
            && Sound(p.rust, n2, rs + [x] + [y], []) && Clean(n2, rs + [x] + [y], [])
    ensures HistoryOf(p, rs + [x] + [y] + more).None?
  {
    hide AppendEvent, Prepared, Evidence, Find, Sound, Clean, HistoryOf, NextRecord, EvidenceId, Replay;
    var n1: Node, n2: Node;
    n1, x := LostReply(p, log, n, rs, first, now, m);
    FindNew(rs, x, second.id);
    n2, y := BehindIsRefused(p, log, n1, rs + [x], second, later);
    CleanReplays(p.rust, n1, rs + [x]);
    WrongSequence(p, rs + [x], log, second, later, n1.accepted, more);
  }

  /** The same content under the same id is answered with the original acknowledgement. */
  lemma {:induction false} RetryIsAnswered(p: Params, n: Node, rs: seq<Record>, x: Record, first: Event, again: Event)
    requires Good(p.rust) && Sound(p.rust, n, rs + [x], []) && Clean(n, rs + [x], []) && Unbound(rs, first.id)
    requires x.evidence == Evidence(first) && Semantics(first) == Semantics(again)
    ensures AppendStep(p.rust, n, Evidence(again), NoFault) == (n, Success(Ack(Str(again.id), |rs| + 1, x.hash)))
    ensures IsSha256(x.hash)
  {
    assert first.id == Semantics(first).id == again.id;
    hide Evidence, Find, ReplayFrom, Stored, UniqueIds, AllBound, Normalized, Semantics, Clean, AppendStep;
    SemanticEvents(first, again);
    EvidenceIds(first);
    EvidenceIds(again);
    FindLast(rs, x, first.id);
    assert (rs + [x])[|rs|] == x;
    LastHashed(p.rust, rs, x);
    DedupAnswers(rs, x, Evidence(again), first.id);
    AppendSound(p.rust, n, rs + [x], [], Evidence(again), NoFault);
  }

  lemma {:induction false} DedupAnswers(rs: seq<Record>, x: Record, evidence: Value, id: string)
    requires EvidenceId(evidence) == Some(id) && Find(rs + [x], id) == |rs| && SameSemantic(x.evidence, evidence)
    ensures Dedup(rs + [x], evidence) == Some(Success(Ack(IdOrNull(x.evidence), x.sequence, x.hash)))
  {
    hide Find, EvidenceId, SameSemantic;
    assert (rs + [x])[|rs|] == x;
  }

  lemma {:induction false} LastHashed(w: World, rs: seq<Record>, x: Record)
    requires Good(w) && Replay(w, rs + [x]).Success?
    ensures x.sequence == |rs| + 1 && IsSha256(x.hash)
  {
    assert (rs + [x])[|rs|] == x;
    RecordSequence(w, rs + [x], |rs|);
    hide ReplayFrom, IsSha256;
  }

  /** Preparing the same event twice on the same log changes at most its time and hash. */
  lemma {:induction false} PreparedTwice(p: Params, log: Log, ev: Event, now: string, later: string)
    requires ev.createdAt == ""
    ensures var e, f := Prepared(log, p, ev, now), Prepared(log, p, ev, later);
            Semantics(e) == Semantics(f) && e.createdAt == now && f.createdAt == later
  {
  }

  /** The retry of an append whose reply was lost is accepted, with the hash it has now. */
  lemma {:induction false} RetryIsAccepted(p: Params, log: Log, n: Node, rs: seq<Record>, x: Record, ev: Event, now: string, later: string)
    requires Good(p.rust) && Sound(p.rust, n, rs + [x], []) && Clean(n, rs + [x], []) && Unbound(rs, ev.id)
    requires ev.createdAt == "" && log.sequence == |rs| && x.evidence == Evidence(Prepared(log, p, ev, now))
    ensures var f := Prepared(log, p, ev, later);
            var (log2, n2, saved) := AppendEvent(p, true, log, n, ev, later, Smooth);
            n2 == n && saved == Some(f.(rustAck := Some(RustAck(ev.id, |rs| + 1, x.hash)))) && log2.sequence == |rs| + 1 && log2.lastHash == f.hash
  {
    hide AppendEvent, AppendStep, Prepared, Evidence, Find, Sound, Clean, Semantics, IsSha256, AppendLine;
    var e, f := Prepared(log, p, ev, now), Prepared(log, p, ev, later);
    PreparedFields(log, p, ev, now);
    PreparedFields(log, p, ev, later);
    PreparedTwice(p, log, ev, now, later);
    RetryIsAnswered(p, n, rs, x, e, f);
    AppendForwards(p, log, n, ev, later, Smooth);
  }

  /**
   * A lost reply followed by a retry of the same event at a later time, which gives it another
   * hash: the retry is accepted and the history stays readable, but the log now carries a hash
   * that is not the hash of the last recorded event, so by ReadableExactlyWhen the next append
   * makes the history unreadable unless the log is read back first.
   */
  lemma {:induction false} RetryMisaligns(p: Params, log: Log, n: Node, rs: seq<Record>, es: seq<Event>, ev: Event,
                                          now: string, later: string, m: MirrorWrite)
    returns (x: Record, es': seq<Event>)
    requires Good(p.rust) && Readable(p, n, rs, es) && Aligned(log, rs, es)
    requires Unbound(rs, ev.id) && ev.createdAt == "" && Stable(p, ev.details)
    requires Prepared(log, p, ev, now).hash != Prepared(log, p, ev, later).hash
    ensures var n1 := AppendEvent(p, true, log, n, ev, now, Hazards(ReplyLost, NoFault, m)).1;
            var (log2, n2, saved) := AppendEvent(p, true, log, n1, ev, later, Smooth);
            && saved.Some? && Readable(p, n2, rs + [x], es')
            && log2.sequence == |rs + [x]| && log2.lastHash != LastHash(es')
  {
    hide AppendEvent, Prepared, Evidence, Find, Sound, Clean, HistoryOf, Semantics, Stable, Replay, NextRecord, ReadsBack, Reloaded;
    var e := Prepared(log, p, ev, now);
    PreparedTwice(p, log, ev, now, later);
    PreparedFields(log, p, ev, now);
    CleanReplays(p.rust, n, rs);
    ReadableExactlyWhen(p, rs, log, ev, now, n.accepted);
    var n1: Node;
    n1, x := LostReply(p, log, n, rs, ev, now, m);
    assert x.evidence == Evidence(e) by { NextEvidence(p.rust, n.accepted, Evidence(e)); }
    RetryIsAccepted(p, log, n1, rs, x, ev, now, later);
    es' := es + [e.(rustAck := Some(RustAck(e.id, |rs| + 1, x.hash)))];
    assert (rs + [x])[|rs|] == x;
  }

  lemma {:induction false} NextEvidence(w: World, s: State, evidence: Value)
    ensures NextRecord(w, s, evidence).evidence == evidence
  {
  }

  // ----- Number literals -----

  ghost predicate Kept(f: Numeral -> Numeral, v: Value) {
    Reload(f, v) == v
  }

  /** A struct reads back unchanged exactly when each of its members does. */
  lemma {:induction false} KeptStruct(f: Numeral -> Numeral, keys: seq<string>, slots: seq<Option<Value>>)
    requires Distinct(keys) && |keys| == |slots|
    ensures Kept(f, Obj(Collect(keys, slots))) <==> (forall i :: 0 <= i < |slots| && slots[i].Some? ==> Kept(f, slots[i].value))
  {
    var m := Collect(keys, slots);
    CollectKeys(keys, slots);
    forall i | 0 <= i < |slots|
      ensures keys[i] in m <==> slots[i].Some?
      ensures slots[i].Some? ==> m[keys[i]] == slots[i].value
    {
      CollectAt(keys, slots, i);
    }
    var after := map k | k in m :: Reload(f, m[k]);
    assert Reload(f, Obj(m)) == Obj(after);
    if after == m {
      assert forall i :: 0 <= i < |slots| && slots[i].Some? ==> after[keys[i]] == slots[i].value;
    }
  }

  lemma {:induction false} KeptText(f: Numeral -> Numeral, s: string)
    ensures Kept(f, Str(s))
  {
  }

  lemma {:induction false} KeptRef(f: Numeral -> Numeral, r: StateRef)
    ensures Kept(f, RefValue(r)) <==> Kept(f, Int(r.version))
  {
    hide Kept, Collect, Dec;
    ProjectionTheory.RefKeysDistinct();
    KeptText(f, r.id);
    KeptText(f, r.hash);
    var slots := [Some(Str(r.id)), Some(Int(r.version)), Some(Str(r.hash))];
    KeptStruct(f, REF_KEYS, slots);
    assert slots[0].value == Str(r.id) && slots[1].value == Int(r.version) && slots[2].value == Str(r.hash);
  }

  lemma {:induction false} KeptProposal(f: Numeral -> Numeral, n: Normal)
    ensures Kept(f, ProposalValue(n)) <==> Kept(f, Int(n.prior.version)) && Kept(f, n.resultData) && Kept(f, n.admissionData)
  {
    hide Kept, Collect, Dec, RefValue;
    ProposalKeysDistinct();
    KeptRef(f, n.prior);
    KeptText(f, n.transitionID);
    KeptText(f, n.proposalID);
    KeptText(f, n.requestID);
    KeptText(f, n.operation);
    KeptText(f, n.entity);
    KeptText(f, n.node);
    var slots := ProposalSlots(n);
    KeptStruct(f, PROPOSAL_KEYS, slots);
    assert slots[3].value == RefValue(n.prior) && slots[7].value == n.resultData && slots[8].value == n.admissionData;
  }

  lemma {:induction false} KeptZeroBinding(f: Numeral -> Numeral)
    ensures Kept(f, Obj(ZeroBinding())) <==> Kept(f, Int(0))
  {
    hide Kept, Collect, Dec;
    DurableKeysDistinct();
    KeptText(f, "");
    var slots := [Some(Str("")), Some(Int(0)), Some(Str(""))];
    KeptStruct(f, DURABLE_KEYS, slots);
    assert slots[0].value == Str("") && slots[1].value == Int(0) && slots[2].value == Str("");
  }

  /**
   * Exactly which proposals are stable: the literals of the caller's two data fields, of the
   * two versions and of the zero in the empty binding are unchanged by a reload.
   */
  lemma {:induction false} StableExactly(p: Params, n: Normal, result: StateRef)
    ensures Stable(p, map[DETAIL := Payload(n, result)]) <==>
            && Kept(p.reload, n.resultData) && Kept(p.reload, n.admissionData)
            && Kept(p.reload, Int(n.prior.version)) && Kept(p.reload, Int(result.version)) && Kept(p.reload, Int(0))
  {
    hide Kept, Payload, Dec;
    KeptPayload(p.reload, n, result);
    StableOne(p, Payload(n, result));
  }

  lemma {:induction false} KeptPayload(f: Numeral -> Numeral, n: Normal, result: StateRef)
    ensures Kept(f, Payload(n, result)) <==>
            && Kept(f, n.resultData) && Kept(f, n.admissionData)
            && Kept(f, Int(n.prior.version)) && Kept(f, Int(result.version)) && Kept(f, Int(0))
  {
    var slots := AcceptedSlots(n, result);
    hide Kept, Collect, Dec, RefValue, ProposalValue, ZeroBinding;
    AcceptedKeysDistinct();
    KeptProposal(f, n);
    KeptRef(f, result);
    KeptZeroBinding(f);
    KeptStruct(f, ACCEPTED_KEYS, slots);
    assert slots[0].value == ProposalValue(n) && slots[1].value == RefValue(result);
    assert slots[2].value == n.admissionData && slots[3].value == Obj(ZeroBinding());
  }

  lemma {:induction false} StableOne(p: Params, v: Value)
    ensures Stable(p, map[DETAIL := v]) <==> Kept(p.reload, v)
  {
    hide Reload;
    var m := map[DETAIL := v];
    assert ReloadAll(p.reload, m)[DETAIL] == Reload(p.reload, v);
  }

  /** The literal stands somewhere in the value. */
  ghost predicate HasLiteral(v: Value, x: Numeral)
    decreases v
  {
    match v
    case Num(lit) => lit == x
    case Arr(items) => exists i :: 0 <= i < |items| && HasLiteral(items[i], x)
    case Obj(fields) => exists k :: k in fields && HasLiteral(fields[k], x)
    case _ => false
  }

  /** A value reads back unchanged exactly if every literal in it does, however deep it stands. */
  lemma {:induction false} ReloadExactly(f: Numeral -> Numeral, v: Value)
    ensures Reload(f, v) == v <==> forall x :: HasLiteral(v, x) ==> f(x) == x
    decreases v
  {
    match v
    case Num(lit) => assert HasLiteral(v, lit);
    case Arr(items) =>
      forall i | 0 <= i < |items| ensures Reload(f, items[i]) == items[i] <==> forall x :: HasLiteral(items[i], x) ==> f(x) == x {
        ReloadExactly(f, items[i]);
      }
      ReloadItems(f, items);
      forall i, x | 0 <= i < |items| && HasLiteral(items[i], x) ensures HasLiteral(v, x) {
      }
    case Obj(fields) =>
      forall k | k in fields ensures Reload(f, fields[k]) == fields[k] <==> forall x :: HasLiteral(fields[k], x) ==> f(x) == x {
        ReloadExactly(f, fields[k]);
      }
      ReloadMembers(f, fields);
      forall k, x | k in fields && HasLiteral(fields[k], x) ensures HasLiteral(v, x) {
      }
    case _ =>
  }

  lemma {:induction false} ReloadItems(f: Numeral -> Numeral, items: seq<Value>)
    ensures Reload(f, Arr(items)) == Arr(items) <==> forall i :: 0 <= i < |items| ==> Reload(f, items[i]) == items[i]
  {
    var after := Reload(f, Arr(items));
    assert after.Arr? && |after.items| == |items| && forall i :: 0 <= i < |items| ==> after.items[i] == Reload(f, items[i]);
    if forall i :: 0 <= i < |items| ==> Reload(f, items[i]) == items[i] {
      assert after.items == items;
    }
  }

  lemma {:induction false} ReloadMembers(f: Numeral -> Numeral, fields: map<string, Value>)
    ensures Reload(f, Obj(fields)) == Obj(fields) <==> forall k :: k in fields ==> Reload(f, fields[k]) == fields[k]
  {
    var after := Reload(f, Obj(fields));
    assert after.Obj? && after.fields.Keys == fields.Keys && forall k :: k in fields ==> after.fields[k] == Reload(f, fields[k]);
    if forall k :: k in fields ==> Reload(f, fields[k]) == fields[k] {
      assert after.fields == fields;
    }
  }
}
