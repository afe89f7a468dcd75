/**
 * Checkpoints of any origin: exactly which ones verify, that a verified one rebuilds to the
 * state, ids, results and bindings of full replay, and exactly when the request bytes of an
 * entry are not those that were accepted, which verification does not look at.
 */
module ForeignCheckpoints {
  import HistoryReading
  import opened Wrappers
  import opened Json
  import opened RecordCodec
  import opened Order
  import opened EventLog
  import opened Transition
  import opened TransitionTheory
  import opened Checkpoints
  import opened CheckpointTheory

  // ----- Which checkpoints verify -----

  /** Every entry's proposal is one the authority would take. */
  ghost predicate AllNormalize(entries: seq<Entry>) {
    forall i :: 0 <= i < |entries| ==> Normalize(entries[i].proposal).Success?
  }

  /** The entry is bound to its own id, validly. */
  predicate OwnBinding(e: Entry) {
    e.durable.eventID == e.proposal.transitionID && ValidBinding(e.durable)
  }

  lemma {:induction false} AdoptExactly(a: Auth, e: Entry)
    requires OwnBinding(e) && e.proposal.transitionID !in a.accepted
    ensures Adopt(a, e).Some? <==> Normalize(e.proposal).Success?
  {
    hide Request;
  }

  /** Entries with distinct new ids and their own bindings are all adopted exactly if they all normalize. */
  lemma {:induction false} AdoptAllExactly(a: Auth, entries: seq<Entry>)
    requires CheckpointTheory.DistinctIds(entries)
    requires forall i :: 0 <= i < |entries| ==> OwnBinding(entries[i]) && entries[i].proposal.transitionID !in a.accepted
    ensures AdoptAll(a, entries).Some? <==> AllNormalize(entries)
    decreases |entries|
  {
    hide Adopt, OwnBinding, Normalize;
    if entries != [] {
      var rest := entries[1..];
      AdoptExactly(a, entries[0]);
      assert forall i :: 0 <= i < |rest| ==> rest[i] == entries[i + 1];
      if Adopt(a, entries[0]).Some? {
        AdoptFacts(a, entries[0]);
        AdoptAllExactly(Adopt(a, entries[0]).value, rest);
        assert AllNormalize(entries) <==> AllNormalize(rest);
      }
    }
  }

  /** Entries that agree with a rebuilt authority carry their own bindings. */
  lemma {:induction false} MatchedIsBound(events: seq<Event>, a: Auth, e: Entry)
    requires BindsAll(events, a) && Matches(a, e)
    ensures OwnBinding(e)
  {
    hide Settled, Says, Request;
    assert BindsEvent(events, e.proposal.transitionID, a.accepted[e.proposal.transitionID]);
  }

  lemma {:induction false} SameAcceptedAdopts(events: seq<Event>, atHead: Auth, cp: Snapshot)
    requires BindsAll(events, atHead) && SameAccepted(atHead, cp.accepted)
    ensures FromSnapshot(cp).Some? <==> AllNormalize(cp.accepted)
  {
    hide OwnBinding, BindsAll, Adopt, AllNormalize, Normalize, Clone;
    forall i | 0 <= i < |cp.accepted| ensures OwnBinding(cp.accepted[i]) {
      assert Matches(atHead, cp.accepted[i]);
      MatchedIsBound(events, atHead, cp.accepted[i]);
    }
    AdoptAllExactly(Auth(Clone(cp.state), map[]), cp.accepted);
  }

  /** The checkpoint is the full replay's own state at its head, with every accepted transition and no other. */
  ghost predicate IsStateAtHead(p: Params, cp: Snapshot, history: seq<Event>) {
    var prefix := Upto(history, cp.historySequence);
    && HeadPresent(cp, prefix) && Rebuild(p, prefix).Some?
    && cp.state == Rebuild(p, prefix).value.state && SameAccepted(Rebuild(p, prefix).value, cp.accepted)
  }

  /** The first checks pass exactly for the state at the head; the check of the state's own hash adds nothing. */
  lemma {:induction false} FirstChecks(p: Params, cp: Snapshot, history: seq<Event>)
    requires ValidHistory(p, history)
    ensures var v := Verify(p, cp, history);
            if IsStateAtHead(p, cp, history) then v == VerifySuffix(p, cp, history)
            else v == BadStateHash || v == BadHead || v == PrefixFails || v == DiffersAtHead
  {
    hide Rebuild, SameAccepted, SameProjection, Upto, HashProjection, VerifySuffix, HeadPresent, ValidFrom;
    var prefix := Upto(history, cp.historySequence);
    if Rebuild(p, prefix).Some? {
      SameProjectionIsEqual(Rebuild(p, prefix).value.state, cp.state);
      RebuiltIsSealed(p, prefix);
    }
  }

  lemma {:induction false} RebuiltIsSealed(p: Params, events: seq<Event>)
    requires Rebuild(p, events).Some?
    ensures var s := Rebuild(p, events).value.state; s.hash == HashProjection(p, s)
  {
    RebuildTracks(p, events);
    hide Rebuild, HashProjection;
  }

  /** The suffix replayed from the checkpoint, against full replay. */
  lemma {:induction false} SuffixCompares(p: Params, cp: Snapshot, history: seq<Event>)
    requires IsStateAtHead(p, cp, history) && FromSnapshot(cp).Some? && Rebuild(p, history).Some?
    ensures var last, full := ReplayAll(p, FromSnapshot(cp).value, Beyond(history, cp.historySequence)), Rebuild(p, history).value;
            && last.Some? && SameAccepted(last.value, AcceptedSlice(full))
            && (SameProjection(last.value.state, full.state) <==> full.accepted != map[])
  {
    hide Rebuild, ReplayAll, FromSnapshot, SameAccepted, SameProjection, Upto, Beyond, AcceptedSlice, Tracks, Alike, HeadPresent, Clone;
    var prefix, suffix := Upto(history, cp.historySequence), Beyond(history, cp.historySequence);
    var atHead, from := Rebuild(p, prefix).value, FromSnapshot(cp).value;
    RebuildTracks(p, prefix);
    RebuildTracks(p, history);
    FromSnapshotAlike(cp, atHead);
    PrefixThenSuffix(p, history, cp.historySequence);
    AlikeReplayAll(p, from, atHead, suffix);
    LastComparison(p, prefix, suffix, history, cp.state, from, atHead, ReplayAll(p, from, suffix).value, Rebuild(p, history).value);
  }

  /** The entries are adopted exactly if they normalize. */
  lemma {:induction false} AdoptsAtHead(p: Params, cp: Snapshot, history: seq<Event>)
    requires IsStateAtHead(p, cp, history)
    ensures FromSnapshot(cp).Some? <==> AllNormalize(cp.accepted)
  {
    hide Rebuild, FromSnapshot, SameAccepted, Upto, AllNormalize, Tracks, BindsAll, HeadPresent;
    var prefix := Upto(history, cp.historySequence);
    RebuildTracks(p, prefix);
    TracksBinds(p, prefix, Rebuild(p, prefix).value);
    SameAcceptedAdopts(prefix, Rebuild(p, prefix).value, cp);
  }

  /** The second half, for the state at the head. */
  lemma {:induction false} SuffixExactly(p: Params, cp: Snapshot, history: seq<Event>)
    requires IsStateAtHead(p, cp, history)
    ensures VerifySuffix(p, cp, history) == Fine <==>
            AllNormalize(cp.accepted) && Rebuild(p, history).Some? && Rebuild(p, history).value.accepted != map[]
  {
    hide Rebuild, ReplayAll, FromSnapshot, SameAccepted, SameProjection, Beyond, AcceptedSlice, AllNormalize, IsStateAtHead;
    AdoptsAtHead(p, cp, history);
    if FromSnapshot(cp).Some? && Rebuild(p, history).Some? {
      SuffixCompares(p, cp, history);
    }
  }

  lemma {:induction false} TracksBinds(p: Params, events: seq<Event>, a: Auth)
    requires Tracks(p, events, a)
    ensures BindsAll(events, a)
  {
  }

  /**
   * Exactly which checkpoints verify against a history that rebuilds: those that are its state
   * at their head, with proposals that normalize, once some transition has been accepted.
   */
  lemma {:induction false} FineExactly(p: Params, cp: Snapshot, history: seq<Event>)
    ensures Verify(p, cp, history) == Fine <==>
            && Rebuild(p, history).Some? && Rebuild(p, history).value.accepted != map[]
            && IsStateAtHead(p, cp, history) && AllNormalize(cp.accepted)
  {
    assert Rebuild(p, history).Some? ==> ValidHistory(p, history);
    hide Rebuild, VerifySuffix, IsStateAtHead, AllNormalize, ValidFrom;
    if ValidHistory(p, history) {
      FirstChecks(p, cp, history);
      if IsStateAtHead(p, cp, history) {
        SuffixExactly(p, cp, history);
      }
    }
    hide Verify;
    NoFineWithout(p, cp, history);
  }

  lemma {:induction false} NoFineWithout(p: Params, cp: Snapshot, history: seq<Event>)
    ensures !ValidHistory(p, history) ==> Verify(p, cp, history) == BadHistory
  {
    hide Rebuild, VerifySuffix, ValidFrom;
  }

  // ----- What a verified checkpoint rebuilds to -----

  /** Verification implies that rebuilding succeeds, with the state of full replay and the same ids, results and bindings. */
  lemma {:induction false} FineAgrees(p: Params, cp: Snapshot, history: seq<Event>)
    requires Verify(p, cp, history) == Fine
    ensures Rebuild(p, history).Some? && RebuildFrom(p, cp, history).Some?
    ensures var fast, full := RebuildFrom(p, cp, history).value, Rebuild(p, history).value;
            fast.state == full.state && Alike(fast, full)
  {
    FineExactly(p, cp, history);
    ReachesLast(p, cp, history);
    var prefix, suffix := Upto(history, cp.historySequence), Beyond(history, cp.historySequence);
    hide Rebuild, ReplayAll, FromSnapshot, SameAccepted, SameProjection, Upto, Beyond, AcceptedSlice, AllNormalize, Alike, Verify, HeadPresent;
    var from, atHead := FromSnapshot(cp).value, Rebuild(p, prefix).value;
    FromSnapshotAlike(cp, atHead);
    PrefixThenSuffix(p, history, cp.historySequence);
    AlikeReplayAll(p, from, atHead, suffix);
    SameProjectionIsEqual(ReplayAll(p, from, suffix).value.state, Rebuild(p, history).value.state);
  }

  // ----- What it may get wrong -----

  /** Replay leaves earlier records as they are and adds the same new ones to alike authorities. */
  ghost predicate SameBeyond(a: Auth, b: Auth, x: Auth, y: Auth) {
    && (forall id :: id in a.accepted ==> id in x.accepted && x.accepted[id] == a.accepted[id])
    && (forall id :: id in b.accepted ==> id in y.accepted && y.accepted[id] == b.accepted[id])
    && (forall id :: id in x.accepted && id !in a.accepted ==> id in y.accepted && y.accepted[id] == x.accepted[id])
  }

  /** A replayed acceptance puts one new record. */
  lemma {:induction false} ReplayedPuts(p: Params, a: Auth, ev: Event)
    requires ev.kind == ACCEPTED_KIND && Replayed(p, a, ev).Some?
    ensures var x := Replayed(p, a, ev).value;
            ev.id !in a.accepted && ev.id in x.accepted && x.accepted == a.accepted[ev.id := x.accepted[ev.id]]
  {
    hide Replayed, Says, Settled, Apply, Request, BindingOf;
    var n, dup := ReplayedFacts(p, a, ev);
  }

  lemma {:induction false} OneBeyond(p: Params, a: Auth, b: Auth, ev: Event)
    requires Alike(a, b) && Replayed(p, a, ev).Some? && Replayed(p, b, ev).Some?
    ensures SameBeyond(a, b, Replayed(p, a, ev).value, Replayed(p, b, ev).value)
  {
    if ev.kind == ACCEPTED_KIND {
      hide Replayed, Alike;
      ReplayedPuts(p, a, ev);
      ReplayedPuts(p, b, ev);
      SameSteps(p, a, b, ev);
      var x, y := Replayed(p, a, ev).value, Replayed(p, b, ev).value;
      PutsBeyond(a, b, x, y, ev.id, x.accepted[ev.id]);
    }
  }

  lemma {:induction false} PutsBeyond(a: Auth, b: Auth, x: Auth, y: Auth, id: string, r: AcceptedRecord)
    requires id !in a.accepted && id !in b.accepted && x.accepted == a.accepted[id := r] && y.accepted == b.accepted[id := r]
    ensures SameBeyond(a, b, x, y)
  {
  }

  /** Both replays read the same proposal out of the event. */
  lemma {:induction false} SameSteps(p: Params, a: Auth, b: Auth, ev: Event)
    requires Alike(a, b) && ev.kind == ACCEPTED_KIND && Replayed(p, a, ev).Some? && Replayed(p, b, ev).Some?
    ensures ev.id in Replayed(p, a, ev).value.accepted && ev.id in Replayed(p, b, ev).value.accepted
    ensures Replayed(p, a, ev).value.accepted[ev.id] == Replayed(p, b, ev).value.accepted[ev.id]
  {
    var d := DecodeAccepted(ev.details[DETAIL]).value;
    DecodedNormal(p, a, ev, d);
    var n := Normalize(d.proposal).value;
    AlikeApply(p, a.state, b.state, n);
    DecodedResult(p, a, ev, d);
    DecodedResult(p, b, ev, d);
    hide DecodeAccepted, Normalize, Apply, Request, ReplayDecoded, Clone;
  }

  lemma {:induction false} DecodedNormal(p: Params, a: Auth, ev: Event, d: Decoded)
    requires ReplayDecoded(p, a, ev, d).Some?
    ensures Normalize(d.proposal).Success?
  {
    hide Normalize, Apply, Request;
  }

  lemma {:induction false} ReplayBeyond(p: Params, a: Auth, b: Auth, events: seq<Event>)
    requires Alike(a, b) && ReplayAll(p, a, events).Some? && ReplayAll(p, b, events).Some?
    ensures SameBeyond(a, b, ReplayAll(p, a, events).value, ReplayAll(p, b, events).value)
    decreases |events|
  {
    hide Replayed, Alike;
    if events != [] {
      AlikeReplayed(p, a, b, events[0]);
      OneBeyond(p, a, b, events[0]);
      ReplayBeyond(p, Replayed(p, a, events[0]).value, Replayed(p, b, events[0]).value, events[1..]);
    }
  }

  /** The record that an entry becomes, as its proposal has it. */
  lemma {:induction false} AdoptedRequest(a: Auth, entries: seq<Entry>, i: nat)
    requires AdoptAll(a, entries).Some? && i < |entries|
    ensures var r, id := AdoptAll(a, entries).value, entries[i].proposal.transitionID;
            Normalize(entries[i].proposal).Success? && id in r.accepted
            && r.accepted[id].request == Request(Normalize(entries[i].proposal).value)
    decreases |entries|
  {
    hide Request;
    if i > 0 {
      AdoptedRequest(Adopt(a, entries[0]).value, entries[1..], i - 1);
    } else {
      hide AdoptAll;
      AdoptFirst(a, entries);
    }
  }

  lemma {:induction false} AdoptFirst(a: Auth, entries: seq<Entry>)
    requires entries != [] && AdoptAll(a, entries).Some?
    ensures var r, id := AdoptAll(a, entries).value, entries[0].proposal.transitionID;
            Normalize(entries[0].proposal).Success? && id in r.accepted
            && r.accepted[id].request == Request(Normalize(entries[0].proposal).value)
  {
    hide Request;
    AdoptFacts(a, entries[0]);
    AdoptAllFacts(Adopt(a, entries[0]).value, entries[1..]);
  }

  /** The stored request of a rebuilt authority is that of the stored proposal. */
  lemma {:induction false} RebuiltRequest(p: Params, events: seq<Event>, id: string)
    requires Rebuild(p, events).Some? && id in Rebuild(p, events).value.accepted
    ensures var r := Rebuild(p, events).value.accepted[id]; r.request == Request(r.accepted.proposal)
  {
    RebuildTracks(p, events);
    hide Rebuild, Request, Settled, Says, ValidAck, WellFormed, Covers;
    assert BindsEvent(events, id, Rebuild(p, events).value.accepted[id]);
  }

  /**
   * Exactly when rebuilding from a verified checkpoint gets the request bytes of an entry
   * wrong: when the entry's proposal does not normalize to the one that was accepted.  All
   * transitions after the checkpoint are exactly those of full replay.
   */
  lemma {:induction false} AlteredExactly(p: Params, cp: Snapshot, history: seq<Event>, i: nat)
    requires Verify(p, cp, history) == Fine && i < |cp.accepted|
    ensures RebuildFrom(p, cp, history).Some? && Rebuild(p, history).Some? && Normalize(cp.accepted[i].proposal).Success?
    ensures var fast, full, id := RebuildFrom(p, cp, history).value, Rebuild(p, history).value, cp.accepted[i].proposal.transitionID;
            && id in fast.accepted && id in full.accepted
            && (fast.accepted[id].request == full.accepted[id].request <==>
                  Normalize(cp.accepted[i].proposal).value == full.accepted[id].accepted.proposal)
            && (forall k :: k in fast.accepted && k !in Ids(cp.accepted) ==> k in full.accepted && fast.accepted[k] == full.accepted[k])
  {
    FineAgrees(p, cp, history);
    ReachesLast(p, cp, history);
    var prefix, suffix, id := Upto(history, cp.historySequence), Beyond(history, cp.historySequence), cp.accepted[i].proposal.transitionID;
    hide Rebuild, ReplayAll, SameAccepted, SameProjection, Upto, Beyond, AcceptedSlice, Alike, Verify, Normalize, Request, Clone, Adopt;
    var from, atHead := FromSnapshot(cp).value, Rebuild(p, prefix).value;
    SameProjectionIsEqual(atHead.state, cp.state);
    FromSnapshotAlike(cp, atHead);
    PrefixThenSuffix(p, history, cp.historySequence);
    ReplayBeyond(p, from, atHead, suffix);
    var start := Auth(Clone(cp.state), map[]);
    AdoptAllFacts(start, cp.accepted);
    AdoptedRequest(start, cp.accepted, i);
    assert id in Ids(cp.accepted);
    hide AdoptAll, FromSnapshot;
    SameAcceptedKeys(atHead, cp.accepted);
    RebuiltRequest(p, history, id);
    RequestInjective(Normalize(cp.accepted[i].proposal).value, Rebuild(p, history).value.accepted[id].accepted.proposal);
  }

  /** Verification does not notice: any proposal of the same id that normalizes may stand in an entry's place. */
  lemma {:induction false} AlteredStillFine(p: Params, cp: Snapshot, history: seq<Event>, i: nat, x: Proposal)
    requires Verify(p, cp, history) == Fine && i < |cp.accepted|
    requires x.transitionID == cp.accepted[i].proposal.transitionID && Normalize(x).Success?
    ensures Verify(p, cp.(accepted := cp.accepted[i := cp.accepted[i].(proposal := x)]), history) == Fine
  {
    var altered := cp.(accepted := cp.accepted[i := cp.accepted[i].(proposal := x)]);
    FineExactly(p, cp, history);
    FineExactly(p, altered, history);
    hide Verify, Rebuild, Upto, Normalize, HeadPresent, SameAccepted;
    if IsStateAtHead(p, cp, history) {
      SameAcceptedAltered(Rebuild(p, Upto(history, cp.historySequence)).value, cp.accepted, i, x);
    }
  }

  lemma {:induction false} SameAcceptedAltered(a: Auth, entries: seq<Entry>, i: nat, x: Proposal)
    requires SameAccepted(a, entries) && i < |entries| && x.transitionID == entries[i].proposal.transitionID
    ensures SameAccepted(a, entries[i := entries[i].(proposal := x)])
  {
    var altered := entries[i := entries[i].(proposal := x)];
    assert forall j :: 0 <= j < |entries| ==>
             altered[j].proposal.transitionID == entries[j].proposal.transitionID && altered[j].result == entries[j].result
             && altered[j].durable == entries[j].durable;
    forall j | 0 <= j < |altered| ensures Matches(a, altered[j]) {
      assert Matches(a, entries[j]);
    }
  }

  // ----- Any entries -----

  /** The entry normalizes, is bound to its own acknowledged event, and its id is not that of an earlier entry. */
  ghost predicate Restores(entries: seq<Entry>, i: nat)
    requires i < |entries|
  {
    var e := entries[i];
    var id, b := e.proposal.transitionID, e.durable;
    && Normalize(e.proposal).Success?
    && b.eventID == id && id != "" && b.sequence > 0 && b.rustAck.Some? && Ledger.IsSha256(b.rustAck.value.hash)
    && b.rustAck.value.id == id && b.rustAck.value.sequence == b.sequence
    && forall j :: 0 <= j < i ==> entries[j].proposal.transitionID != id
  }

  lemma {:induction false} AdoptAllLast(a: Auth, entries: seq<Entry>, e: Entry)
    ensures AdoptAll(a, entries + [e]) == (if AdoptAll(a, entries).None? then None else Adopt(AdoptAll(a, entries).value, e))
    decreases |entries|
  {
    hide Adopt;
    var all := entries + [e];
    if entries == [] {
      assert all[1..] == [];
    } else {
      assert all[0] == entries[0] && all[1..] == entries[1..] + [e];
      if Adopt(a, entries[0]).Some? {
        AdoptAllLast(Adopt(a, entries[0]).value, entries[1..], e);
      }
    }
  }

  lemma {:induction false} AdoptsOne(a: Auth, entries: seq<Entry>, e: Entry)
    requires a.accepted.Keys == Ids(entries)
    ensures Adopt(a, e).Some? <==> Restores(entries + [e], |entries|)
  {
    hide Request;
    var all := entries + [e];
    assert all[|entries|] == e && forall j :: 0 <= j < |entries| ==> all[j] == entries[j];
    assert e.proposal.transitionID in a.accepted <==> exists j :: 0 <= j < |entries| && entries[j].proposal.transitionID == e.proposal.transitionID;
  }

  /** Exactly which entries, of any origin, restore an authority: each normalizes, is new and carries its own binding. */
  lemma {:induction false} RestoresExactly(a: Auth, entries: seq<Entry>)
    requires a.accepted == map[]
    ensures AdoptAll(a, entries).Some? <==> forall i: nat :: i < |entries| ==> Restores(entries, i)
    decreases |entries|
  {
    hide Adopt, Restores;
    if entries != [] {
      var m := |entries| - 1;
      var before := entries[..m];
      RestoresExactly(a, before);
      assert entries == before + [entries[m]];
      AdoptAllLast(a, before, entries[m]);
      if AdoptAll(a, before).Some? {
        AdoptAllFacts(a, before);
        assert AdoptAll(a, before).value.accepted.Keys == Ids(before);
        AdoptsOne(AdoptAll(a, before).value, before, entries[m]);
      }
      forall i: nat | i < m ensures Restores(entries, i) <==> Restores(before, i) {
        RestoresBefore(entries, m, i);
      }
    }
  }

  lemma {:induction false} RestoresBefore(entries: seq<Entry>, m: nat, i: nat)
    requires i < m <= |entries|
    ensures Restores(entries, i) <==> Restores(entries[..m], i)
  {
    hide Normalize;
    assert forall j :: 0 <= j < m ==> entries[..m][j] == entries[j];
  }

  // ----- Which check refuses -----

  /** The history has an event at the checkpoint's head, with its hash; or the head is where every history begins. */
  predicate HeadFound(cp: Snapshot, history: seq<Event>) {
    var s := cp.historySequence;
    (s == 0 && cp.historyHash == "genesis") || (1 <= s <= |history| && history[s - 1].hash == cp.historyHash)
  }

  /** The checkpoint has this authority's state, and one entry for each of its transitions, with its result and binding. */
  ghost predicate Agrees(a: Auth, cp: Snapshot) {
    && a.state == cp.state && |cp.accepted| == |a.accepted| && CheckpointTheory.DistinctIds(cp.accepted)
    && forall e :: e in cp.accepted ==>
         && e.proposal.transitionID in a.accepted
         && a.accepted[e.proposal.transitionID].accepted.result == e.result && a.accepted[e.proposal.transitionID].accepted.durable == e.durable
  }

  lemma {:induction false} HeadExactly(p: Params, cp: Snapshot, history: seq<Event>)
    requires ValidHistory(p, history)
    ensures HeadPresent(cp, Upto(history, cp.historySequence)) <==> HeadFound(cp, history)
    ensures HeadFound(cp, history) ==> Upto(history, cp.historySequence) == history[..cp.historySequence]
  {
    var s := cp.historySequence;
    CheckpointTheory.CutHistory(p, GENESIS, 1, history, s);
    HistoryReading.ValidExactly(p, history);
    hide Upto, ValidFrom, HashEvent;
    var prefix := Upto(history, s);
    if prefix != [] {
      assert HistoryReading.EventInPlace(p, history, |prefix| - 1);
      assert prefix[|prefix| - 1] == history[|prefix| - 1];
    }
  }

  lemma {:induction false} AgreesExactly(a: Auth, cp: Snapshot)
    ensures SameProjection(a.state, cp.state) && SameAccepted(a, cp.accepted) <==> Agrees(a, cp)
  {
    hide SameProjection;
    CheckpointTheory.SameProjectionIsEqual(a.state, cp.state);
    if SameAccepted(a, cp.accepted) {
      forall e | e in cp.accepted ensures Matches(a, e) {
        var i :| 0 <= i < |cp.accepted| && cp.accepted[i] == e;
      }
    }
  }

  /** Which of the first checks refuses a checkpoint of any origin, each exactly when those before it pass. */
  lemma {:induction false} VerdictExactly(p: Params, cp: Snapshot, history: seq<Event>)
    ensures var v := Verify(p, cp, history);
            var valid, found := ValidHistory(p, history), HeadFound(cp, history);
            var own := cp.state.hash == HashProjection(p, cp.state);
            && (v == BadHistory <==> !valid)
            && (v == BadStateHash <==> valid && !own)
            && (v == BadHead <==> valid && own && !found)
            && (valid && own && found ==>
                  var atHead := Rebuild(p, history[..cp.historySequence]);
                  && (v == PrefixFails <==> atHead.None?)
                  && (v == DiffersAtHead <==> atHead.Some? && !Agrees(atHead.value, cp)))
            && (v in {Fine, BadEntry, SuffixFails, FullFails, FinalDiffers} ==> valid && own && found)
  {
    hide ValidFrom, HashProjection, Rebuild, SameProjection, SameAccepted, Agrees, HeadFound, HeadPresent, Upto, FromSnapshot, Beyond, ReplayAll,
         AcceptedSlice;
    if ValidHistory(p, history) {
      HeadExactly(p, cp, history);
      if HeadFound(cp, history) {
        var atHead := Rebuild(p, Upto(history, cp.historySequence));
        if atHead.Some? {
          AgreesExactly(atHead.value, cp);
        }
      }
    }
  }
}
