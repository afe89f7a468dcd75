/**
 * A checkpoint taken from any rebuilt authority verifies against every later history and
 * rebuilds to the same authority as full replay; and the last comparison of verification
 * decides nothing once a transition has been accepted.
 */
module CheckpointTheory {
  import opened Wrappers
  import opened Json
  import opened JsonRoundTrip
  import opened RecordCodec
  import opened Order
  import opened EventLog
  import opened EventLogTheory
  import opened Transition
  import opened ProjectionTheory
  import opened TransitionTheory
  import opened Checkpoints

  // ----- Prefix and suffix of a valid history -----

  function Clamp(s: int, n: nat): nat {
    if s < 0 then 0 else if s > n then n else s
  }

  lemma {:induction false} CutHistory(p: Params, prev: string, expected: nat, events: seq<Event>, s: int)
    requires ValidFrom(p, prev, expected, events)
    ensures var c := Clamp(s - expected + 1, |events|);
            Upto(events, s) == events[..c] && Beyond(events, s) == events[c..]
    decreases |events|
  {
    if events != [] {
      CutHistory(p, events[0].hash, expected + 1, events[1..], s);
      var c, d := Clamp(s - expected + 1, |events|), Clamp(s - (expected + 1) + 1, |events| - 1);
      if s >= expected {
        assert c == d + 1;
        assert events[..c] == [events[0]] + events[1..][..d] && events[c..] == events[1..][d..];
      } else {
        assert c == 0 && d == 0;
        assert events[1..][..0] == [] && events[..0] == [];
        assert events == [events[0]] + events[1..][0..];
      }
    }
  }

  /** Equal canonical JSON is equality of projections, nil nodes told apart from empty ones. */
  lemma {:induction false} SameProjectionIsEqual(a: Projection, b: Projection)
    ensures SameProjection(a, b) <==> a == b
  {
    CanonicalInjective(ProjectionValue(a), ProjectionValue(b), true);
    if ProjectionValue(a) == ProjectionValue(b) {
      ProjectionValueInjective(a, b);
    }
  }

  // ----- Authorities that replay alike -----

  /** The same state up to nil nodes. */
  predicate AlikeState(a: Projection, b: Projection) {
    Clone(a) == Clone(b)
  }

  /** The same state up to nil nodes, and the same ids with the same results and bindings. */
  ghost predicate Alike(a: Auth, b: Auth) {
    && AlikeState(a.state, b.state)
    && a.accepted.Keys == b.accepted.Keys
    && (forall id :: id in a.accepted ==>
          a.accepted[id].accepted.result == b.accepted[id].accepted.result &&
          a.accepted[id].accepted.durable == b.accepted[id].accepted.durable)
  }

  lemma {:induction false} AlikeApply(p: Params, a: Projection, b: Projection, n: Normal)
    requires AlikeState(a, b)
    ensures Apply(p, a, n) == Apply(p, b, n) && Ref(a) == Ref(b)
  {
    hide Canonical, ProjectionValue, Put;
    assert List(a) == List(b);
    var x := Projection(a.id, a.version + 1, Some(Put(List(a), NodeState(n.entity, n.node, n.resultData))), a.hash);
    HashIgnoresHash(p, x, x);
  }

  /** One event replays on both or on neither, and leaves them alike; an accepted event makes their states equal. */
  lemma {:induction false} AlikeReplayed(p: Params, a: Auth, b: Auth, ev: Event)
    requires Alike(a, b)
    ensures Replayed(p, a, ev).Some? <==> Replayed(p, b, ev).Some?
    ensures Replayed(p, a, ev).Some? ==> Alike(Replayed(p, a, ev).value, Replayed(p, b, ev).value)
    ensures Replayed(p, a, ev).Some? && ev.kind == ACCEPTED_KIND ==>
            Replayed(p, a, ev).value.state == Replayed(p, b, ev).value.state && ev.id in Replayed(p, a, ev).value.accepted
    ensures Replayed(p, a, ev).Some? && ev.kind != ACCEPTED_KIND ==>
            Replayed(p, a, ev).value == a && Replayed(p, b, ev).value == b
    ensures Replayed(p, a, ev).Some? ==> a.accepted.Keys <= Replayed(p, a, ev).value.accepted.Keys
  {
    if ev.kind == ACCEPTED_KIND && Enveloped(ev) && DecodeAccepted(ev.details[DETAIL]).Some? {
      var d := DecodeAccepted(ev.details[DETAIL]).value;
      AlikeDecoded(p, a, b, ev, d);
      hide ReplayDecoded;
    }
    hide DecodeAccepted, ReplayDecoded;
  }

  /** When the checks of replay pass, and what they then build. */
  lemma {:induction false} DecodedResult(p: Params, a: Auth, ev: Event, d: Decoded)
    requires Normalize(d.proposal).Success?
    ensures var n := Normalize(d.proposal).value;
            ReplayDecoded(p, a, ev, d) ==
            if ev.id == n.transitionID && n.transitionID !in a.accepted && n.prior == Ref(a.state)
               && d.result == Ref(Apply(p, a.state, n)) && d.admission == Json(n.admissionData)
            then Some(Stepped(p, a, n, ev, d.duplicate)) else None
  {
    hide Normalize, Apply, Request;
  }

  lemma {:induction false} AlikeStepped(p: Params, a: Auth, b: Auth, n: Normal, ev: Event, dup: bool)
    requires Alike(a, b)
    ensures var x, y := Stepped(p, a, n, ev, dup), Stepped(p, b, n, ev, dup);
            Alike(x, y) && x.state == y.state && ev.id in x.accepted && a.accepted.Keys <= x.accepted.Keys
  {
    AlikeApply(p, a.state, b.state, n);
    var next := Apply(p, a.state, n);
    AlikeUpdate(a, b, next, ev.id, AcceptedRecord(Request(n), Accepted(n, Ref(next), Json(n.admissionData), BindingOf(ev), dup)));
    hide Apply, Request, Clone, Alike, BindingOf;
  }

  lemma {:induction false} AlikeUpdate(a: Auth, b: Auth, next: Projection, id: string, r: AcceptedRecord)
    requires Alike(a, b)
    ensures var x, y := Auth(next, a.accepted[id := r]), Auth(next, b.accepted[id := r]);
            Alike(x, y) && id in x.accepted && a.accepted.Keys <= x.accepted.Keys
  {
    hide Clone;
  }

  lemma {:induction false} AlikeDecoded(p: Params, a: Auth, b: Auth, ev: Event, d: Decoded)
    requires Alike(a, b)
    ensures var x, y := ReplayDecoded(p, a, ev, d), ReplayDecoded(p, b, ev, d);
            && (x.Some? <==> y.Some?)
            && (x.Some? ==> Alike(x.value, y.value) && x.value.state == y.value.state && ev.id in x.value.accepted
                            && a.accepted.Keys <= x.value.accepted.Keys)
  {
    if Normalize(d.proposal).Success? {
      var n := Normalize(d.proposal).value;
      AlikeApply(p, a.state, b.state, n);
      DecodedResult(p, a, ev, d);
      DecodedResult(p, b, ev, d);
      AlikeStepped(p, a, b, n, ev, d.duplicate);
      assert n.transitionID in a.accepted <==> n.transitionID in b.accepted;
      hide ReplayDecoded, Normalize, Apply, Stepped, Clone;
    }
    hide Normalize;
  }

  /** Alike authorities stay alike over any events; their states are equal once an accepted event was replayed. */
  lemma {:induction false} AlikeReplayAll(p: Params, a: Auth, b: Auth, events: seq<Event>)
    requires Alike(a, b)
    ensures ReplayAll(p, a, events).Some? <==> ReplayAll(p, b, events).Some?
    ensures ReplayAll(p, a, events).Some? ==>
            var x, y := ReplayAll(p, a, events).value, ReplayAll(p, b, events).value;
            && Alike(x, y)
            && a.accepted.Keys <= x.accepted.Keys
            && (x.state == y.state || (x == a && y == b))
            && ((x == a && y == b) || x.accepted != map[])
    decreases |events|
  {
    hide Replayed, Alike;
    if events != [] {
      AlikeReplayed(p, a, b, events[0]);
      if Replayed(p, a, events[0]).Some? {
        AlikeReplayAll(p, Replayed(p, a, events[0]).value, Replayed(p, b, events[0]).value, events[1..]);
        if events[0].kind == ACCEPTED_KIND && ReplayAll(p, a, events).Some? {
          assert events[0].id in Replayed(p, a, events[0]).value.accepted.Keys;
          assert events[0].id in ReplayAll(p, a, events).value.accepted.Keys;
        }
      }
    }
  }

  // ----- What a checkpoint's entries become -----

  ghost function Ids(entries: seq<Entry>): set<string> {
    set i | 0 <= i < |entries| :: entries[i].proposal.transitionID
  }

  ghost predicate DistinctIds(entries: seq<Entry>) {
    forall i, j :: 0 <= i < j < |entries| ==> entries[i].proposal.transitionID != entries[j].proposal.transitionID
  }

  lemma {:induction false} IdsCount(entries: seq<Entry>)
    requires DistinctIds(entries)
    ensures |Ids(entries)| == |entries|
  {
    if entries != [] {
      var m := |entries| - 1;
      var init := entries[..m];
      IdsCount(init);
      var last := entries[m].proposal.transitionID;
      IdsLast(entries);
      assert last !in Ids(init);
    }
  }

  lemma {:induction false} IdsLast(entries: seq<Entry>)
    requires entries != []
    ensures var m := |entries| - 1; Ids(entries) == Ids(entries[..m]) + {entries[m].proposal.transitionID}
  {
    var m := |entries| - 1;
    var init, last := entries[..m], entries[m].proposal.transitionID;
    forall id ensures id in Ids(entries) <==> id in Ids(init) + {last} {
      if id in Ids(entries) {
        var i :| 0 <= i < |entries| && entries[i].proposal.transitionID == id;
        if i < m { assert init[i].proposal.transitionID == id; }
      }
      if id in Ids(init) {
        var i :| 0 <= i < |init| && init[i].proposal.transitionID == id;
        assert entries[i].proposal.transitionID == id;
      }
      assert entries[m].proposal.transitionID == last;
    }
  }

  /** SameAccepted compares the whole key set. */
  lemma {:induction false} SameAcceptedKeys(a: Auth, entries: seq<Entry>)
    requires SameAccepted(a, entries)
    ensures Ids(entries) == a.accepted.Keys
  {
    IdsCount(entries);
    forall id | id in Ids(entries) ensures id in a.accepted.Keys {
      var i :| 0 <= i < |entries| && entries[i].proposal.transitionID == id;
      assert Matches(a, entries[i]);
    }
    SubsetOfSameSize(Ids(entries), a.accepted.Keys);
  }

  /** The entry of each id, after adoption. */
  ghost predicate Carries(r: Auth, e: Entry) {
    e.proposal.transitionID in r.accepted &&
    r.accepted[e.proposal.transitionID].accepted.result == e.result &&
    r.accepted[e.proposal.transitionID].accepted.durable == e.durable
  }

  lemma {:induction false} AdoptFacts(a: Auth, e: Entry)
    requires Adopt(a, e).Some?
    ensures var r := Adopt(a, e).value;
            && r.state == a.state && e.proposal.transitionID !in a.accepted
            && r.accepted.Keys == a.accepted.Keys + {e.proposal.transitionID}
            && Carries(r, e)
            && (forall id :: id in a.accepted ==> r.accepted[id] == a.accepted[id])
  {
    hide Request;
  }

  lemma {:induction false} AdoptAllFacts(a: Auth, entries: seq<Entry>)
    requires AdoptAll(a, entries).Some?
    ensures var r := AdoptAll(a, entries).value;
            && r.state == a.state
            && r.accepted.Keys == a.accepted.Keys + Ids(entries)
            && (forall i :: 0 <= i < |entries| ==> Carries(r, entries[i]))
            && (forall id :: id in a.accepted ==> r.accepted[id] == a.accepted[id])
    decreases |entries|
  {
    hide Adopt;
    if entries != [] {
      AdoptFacts(a, entries[0]);
      var next := Adopt(a, entries[0]).value;
      AdoptAllFacts(next, entries[1..]);
      var r := AdoptAll(a, entries).value;
      assert Ids(entries) == {entries[0].proposal.transitionID} + Ids(entries[1..]) by {
        forall id ensures id in Ids(entries) <==> id == entries[0].proposal.transitionID || id in Ids(entries[1..]) {
          if id in Ids(entries[1..]) {
            var i :| 0 <= i < |entries[1..]| && entries[1..][i].proposal.transitionID == id;
            assert entries[i + 1].proposal.transitionID == id;
          }
          if id in Ids(entries) {
            var i :| 0 <= i < |entries| && entries[i].proposal.transitionID == id;
            if i > 0 { assert entries[1..][i - 1].proposal.transitionID == id; }
          }
          assert entries[0].proposal.transitionID in Ids(entries);
        }
      }
      forall i | 0 <= i < |entries| ensures Carries(r, entries[i]) {
        if i > 0 { assert Carries(r, entries[1..][i - 1]); }
      }
    }
  }

  /** A checkpoint that agrees with the replay at its head restores an authority alike to it. */
  lemma {:induction false} FromSnapshotAlike(cp: Snapshot, atHead: Auth)
    requires FromSnapshot(cp).Some? && cp.state == atHead.state && SameAccepted(atHead, cp.accepted)
    ensures Alike(FromSnapshot(cp).value, atHead)
    ensures FromSnapshot(cp).value.state == Clone(cp.state)
  {
    CloneTwice(cp.state);
    hide AdoptAll, Clone;
    var start := Auth(Clone(cp.state), map[]);
    AdoptAllFacts(start, cp.accepted);
    SameAcceptedKeys(atHead, cp.accepted);
    var from := FromSnapshot(cp).value;
    assert start.accepted.Keys + Ids(cp.accepted) == atHead.accepted.Keys;
    forall id | id in from.accepted
      ensures from.accepted[id].accepted.result == atHead.accepted[id].accepted.result &&
              from.accepted[id].accepted.durable == atHead.accepted[id].accepted.durable
    {
      assert id in Ids(cp.accepted);
      var i :| 0 <= i < |cp.accepted| && cp.accepted[i].proposal.transitionID == id;
      assert Carries(from, cp.accepted[i]) && Matches(atHead, cp.accepted[i]);
    }
  }

  lemma {:induction false} CloneTwice(s: Projection)
    ensures Clone(Clone(s)) == Clone(s)
  {
  }

  // ----- The final comparison -----

  lemma {:induction false} SliceMatches(events: seq<Event>, full: Auth, last: Auth)
    requires BindsAll(events, full) && Alike(last, full)
    ensures SameAccepted(last, AcceptedSlice(full))
  {
    hide SortedKeys, AsProposal, AsEntry, Less, Matches, BindsAll, Alike;
    var ids := SortedKeys(full.accepted.Keys);
    var entries := AcceptedSlice(full);
    assert |full.accepted| == |full.accepted.Keys| && |last.accepted| == |last.accepted.Keys|;
    assert full.accepted.Keys == last.accepted.Keys by { AlikeKeys(last, full); }
    forall i | 0 <= i < |entries| ensures entries[i].proposal.transitionID == ids[i] && Matches(last, entries[i]) {
      assert ids[i] in full.accepted;
      OwnEntryMatches(events, full, last, ids[i]);
    }
    forall i, j | 0 <= i < j < |entries| ensures entries[i].proposal.transitionID != entries[j].proposal.transitionID {
      if ids[i] == ids[j] { IncreasingDistinct(ids, i, j); }
    }
  }

  lemma {:induction false} AlikeKeys(a: Auth, b: Auth)
    requires Alike(a, b)
    ensures a.accepted.Keys == b.accepted.Keys
  {
    hide Clone;
  }

  lemma {:induction false} OwnEntryMatches(events: seq<Event>, full: Auth, last: Auth, id: string)
    requires BindsAll(events, full) && Alike(last, full) && id in full.accepted
    ensures var e := AsEntry(full.accepted[id].accepted); e.proposal.transitionID == id && Matches(last, e)
  {
    hide Clone, Settled, Request, ValidAck, Says, AsEntry;
    assert BindsEvent(events, id, full.accepted[id]);
    EntryFields(full.accepted[id].accepted);
  }

  lemma {:induction false} EntryFields(a: Accepted)
    ensures AsEntry(a).proposal.transitionID == a.proposal.transitionID
    ensures AsEntry(a).result == a.result && AsEntry(a).durable == a.durable
  {
  }

  /** The last comparison, given what the earlier checks established. */
  lemma {:induction false} LastComparison(p: Params, prefix: seq<Event>, suffix: seq<Event>, history: seq<Event>,
                       state: Projection, from: Auth, atHead: Auth, last: Auth, full: Auth)
    requires Tracks(p, prefix, atHead) && Tracks(p, history, full) && Alike(from, atHead)
    requires state == atHead.state && from.state == Clone(state)
    requires ReplayAll(p, from, suffix) == Some(last) && ReplayAll(p, atHead, suffix) == Some(full)
    ensures SameAccepted(last, AcceptedSlice(full))
    ensures SameProjection(last.state, full.state) <==> full.accepted != map[]
  {
    hide ReplayAll, SameAccepted, SameProjection, Sealed, Covers, BindsAll, AcceptedSlice;
    AlikeReplayAll(p, from, atHead, suffix);
    SliceMatches(history, full, last);
    SameProjectionIsEqual(last.state, full.state);
    if full.accepted == map[] {
      assert last.accepted.Keys == full.accepted.Keys;
      assert last == from && full == atHead;
      InitialNotNil(p);
    } else if last == from && full == atHead {
      assert Clone(state) == state;
    }
  }

  /** What has been established when verification reaches its last comparison. */
  lemma {:induction false} ReachesLast(p: Params, cp: Snapshot, history: seq<Event>)
    requires Verify(p, cp, history) == Fine || Verify(p, cp, history) == FinalDiffers
    ensures var prefix, suffix := Upto(history, cp.historySequence), Beyond(history, cp.historySequence);
            && ValidHistory(p, history) && Rebuild(p, prefix).Some? && Rebuild(p, history).Some?
            && SameProjection(Rebuild(p, prefix).value.state, cp.state) && SameAccepted(Rebuild(p, prefix).value, cp.accepted)
            && FromSnapshot(cp).Some? && ReplayAll(p, FromSnapshot(cp).value, suffix).Some?
            && var last, full := ReplayAll(p, FromSnapshot(cp).value, suffix).value, Rebuild(p, history).value;
               (Verify(p, cp, history) == Fine <==> SameProjection(last.state, full.state) && SameAccepted(last, AcceptedSlice(full)))
  {
    hide Rebuild, ReplayAll, FromSnapshot, SameAccepted, SameProjection, Upto, Beyond, HashProjection, AcceptedSlice;
  }

  /** Full replay is replay of the prefix, then of the suffix. */
  lemma {:induction false} PrefixThenSuffix(p: Params, history: seq<Event>, s: int)
    requires Rebuild(p, history).Some?
    ensures Rebuild(p, Upto(history, s)).Some?
    ensures ReplayAll(p, Rebuild(p, Upto(history, s)).value, Beyond(history, s)) == Rebuild(p, history)
  {
    assert ValidHistory(p, history);
    CutHistory(p, GENESIS, 1, history, s);
    RebuildPrefix(p, history, Clamp(s, |history|));
    hide Rebuild, ReplayAll, Upto, Beyond, ValidFrom;
  }

  /**
   * Once every earlier check has passed, the final comparison of suffix replay with full
   * replay agrees exactly when some transition has been accepted.  (With none, the state
   * cloned from the checkpoint has nil nodes where full replay has an empty list.)
   */
  lemma {:induction false} FinalComparisonExactly(p: Params, cp: Snapshot, history: seq<Event>)
    requires Verify(p, cp, history) == Fine || Verify(p, cp, history) == FinalDiffers
    ensures Rebuild(p, history).Some?
    ensures Verify(p, cp, history) == Fine <==> Rebuild(p, history).value.accepted != map[]
  {
    ReachesLast(p, cp, history);
    PrefixThenSuffix(p, history, cp.historySequence);
    var prefix, suffix := Upto(history, cp.historySequence), Beyond(history, cp.historySequence);
    hide Verify, Take, Clone, ValidFrom, Rebuild, ReplayAll, FromSnapshot, SameAccepted, SameProjection, Upto, Beyond, Tracks, Alike;
    var atHead, from := Rebuild(p, prefix).value, FromSnapshot(cp).value;
    SameProjectionIsEqual(atHead.state, cp.state);
    FromSnapshotAlike(cp, atHead);
    RebuildTracks(p, prefix);
    RebuildTracks(p, history);
    LastComparison(p, prefix, suffix, history, cp.state, from, atHead,
                   ReplayAll(p, from, suffix).value, Rebuild(p, history).value);
  }

  lemma {:induction false} InitialNotNil(p: Params)
    ensures Initial(p).nodes == Some([]) && Clone(Initial(p)).nodes == None
  {
    hide HashProjection;
  }

  // ----- Checkpoints of a rebuilt authority -----

  /** Some of an authority's accepted transitions. */
  ghost function Part(a: Auth, ids: seq<string>): map<string, AcceptedRecord>
    requires forall id :: id in ids ==> id in a.accepted
  {
    map id | id in ids :: a.accepted[id]
  }

  /** Adopting the entry of an accepted transition puts back its very record. */
  lemma {:induction false} AdoptOwn(events: seq<Event>, a: Auth, id: string, b: Auth)
    requires id in a.accepted && BindsEvent(events, id, a.accepted[id]) && id !in b.accepted
    ensures Adopt(b, AsEntry(a.accepted[id].accepted)) == Some(b.(accepted := b.accepted[id := a.accepted[id]]))
  {
    hide Request, Normalize, AsProposal, Says;
  }

  /** Adopting the entries of distinct ids puts back exactly their records. */
  lemma {:induction false} AdoptOwnAll(events: seq<Event>, a: Auth, ids: seq<string>, b: Auth)
    requires BindsAll(events, a) && Increasing(ids)
    requires forall id :: id in ids ==> id in a.accepted && id !in b.accepted
    ensures AdoptAll(b, EntriesOf(a, ids)) == Some(b.(accepted := b.accepted + Part(a, ids)))
    decreases |ids|
  {
    hide Adopt, AsEntry, BindsEvent, Part;
    var entries := EntriesOf(a, ids);
    if ids == [] {
      PartNone(a, b.accepted, ids);
    } else {
      assert ids[0] in ids && BindsEvent(events, ids[0], a.accepted[ids[0]]);
      AdoptOwn(events, a, ids[0], b);
      var next := b.(accepted := b.accepted[ids[0] := a.accepted[ids[0]]]);
      HeadNotInTail(ids);
      assert ids == [ids[0]] + ids[1..];
      AdoptOwnAll(events, a, ids[1..], next);
      assert entries[1..] == EntriesOf(a, ids[1..]);
      PartStep(a, b.accepted, ids);
    }
  }

  lemma {:induction false} PartNone(a: Auth, m: map<string, AcceptedRecord>, ids: seq<string>)
    requires ids == []
    ensures m + Part(a, ids) == m
  {
  }

  lemma {:induction false} PartStep(a: Auth, m: map<string, AcceptedRecord>, ids: seq<string>)
    requires ids != [] && ids[0] !in ids[1..] && forall id :: id in ids ==> id in a.accepted
    ensures m[ids[0] := a.accepted[ids[0]]] + Part(a, ids[1..]) == m + Part(a, ids)
  {
    assert ids == [ids[0]] + ids[1..];
  }

  lemma {:induction false} PartAll(a: Auth, ids: seq<string>)
    requires forall id :: id in ids <==> id in a.accepted
    ensures map[] + Part(a, ids) == a.accepted
  {
  }

  /** The checkpoint of an authority that has accepted something restores exactly that authority. */
  lemma {:induction false} TakeRestores(p: Params, events: seq<Event>, a: Auth)
    requires Tracks(p, events, a) && a.accepted != map[]
    ensures FromSnapshot(Take(a)) == Some(a)
  {
    var ids := SortedKeys(a.accepted.Keys);
    assert Clone(Clone(a.state)) == a.state;
    hide SortedKeys, WellFormed, Covers, BindsAll, AdoptAll, EntriesOf, Clone, Part, Head;
    var start := Auth(Clone(Clone(a.state)), map[]);
    AdoptOwnAll(events, a, ids, start);
    PartAll(a, ids);
    assert FromSnapshot(Take(a)) == AdoptAll(start, EntriesOf(a, ids));
  }

  /** The head is above every entry and is one of them. */
  lemma {:induction false} HeadIsMax(entries: seq<Entry>)
    requires forall i :: 0 <= i < |entries| ==> entries[i].durable.sequence > 0
    ensures var h := Head(entries);
            && h.0 >= 0
            && (forall i :: 0 <= i < |entries| ==> entries[i].durable.sequence <= h.0)
            && (if entries == [] then h == (0, GENESIS)
                else exists i :: 0 <= i < |entries| && entries[i].durable.sequence == h.0 && entries[i].durable.eventHash == h.1)
    decreases |entries|
  {
    if entries != [] {
      var m := |entries| - 1;
      HeadIsMax(entries[..m]);
      var before := Head(entries[..m]);
      if entries[m].durable.sequence <= before.0 {
        assert entries[..m] != [];
        var i :| 0 <= i < m && entries[..m][i].durable.sequence == before.0 && entries[..m][i].durable.eventHash == before.1;
        assert entries[i] == entries[..m][i];
      }
      forall i | 0 <= i < |entries| ensures entries[i].durable.sequence <= Head(entries).0 {
        if i < m { assert entries[i] == entries[..m][i]; }
      }
    }
  }

  /** The entry is bound to an event that exists. */
  predicate Points(events: seq<Event>, e: Entry) {
    1 <= e.durable.sequence <= |events| && e.durable.eventHash == events[e.durable.sequence - 1].hash
  }

  /** Some entry is bound to the event at position k. */
  ghost predicate Listed(entries: seq<Entry>, k: nat) {
    exists i :: 0 <= i < |entries| && entries[i].durable.sequence == k + 1
  }

  lemma {:induction false} EntriesPoint(events: seq<Event>, a: Auth, i: nat)
    requires BindsAll(events, a) && i < |AcceptedSlice(a)|
    ensures Points(events, AcceptedSlice(a)[i])
  {
    var ids := SortedKeys(a.accepted.Keys);
    hide SortedKeys, AsProposal, Settled, Request, ValidAck, Says;
    assert ids[i] in a.accepted && BindsEvent(events, ids[i], a.accepted[ids[i]]);
    EntryFields(a.accepted[ids[i]].accepted);
  }

  lemma {:induction false} EventListed(events: seq<Event>, a: Auth, k: nat)
    requires Covers(events, a) && k < |events| && events[k].kind == ACCEPTED_KIND
    ensures Listed(AcceptedSlice(a), k)
  {
    var ids := SortedKeys(a.accepted.Keys);
    hide SortedKeys, AsEntry;
    assert events[k].id in ids;
    var i :| 0 <= i < |ids| && ids[i] == events[k].id;
    EntryFields(a.accepted[ids[i]].accepted);
    assert AcceptedSlice(a)[i].durable.sequence == k + 1;
  }

  /** Every accepted event is at or below the sequence. */
  ghost predicate AboveAccepted(events: seq<Event>, sequence: int) {
    forall k :: 0 <= k < |events| && events[k].kind == ACCEPTED_KIND ==> k + 1 <= sequence
  }

  /** The sequence and hash are those of an event, or of the origin. */
  predicate AtEvent(events: seq<Event>, sequence: int, hash: string) {
    0 <= sequence <= |events| &&
    if sequence == 0 then hash == GENESIS
    else events[sequence - 1].sequence == sequence && events[sequence - 1].hash == hash
  }

  lemma {:induction false} ListedBelow(entries: seq<Entry>, k: nat)
    requires Listed(entries, k) && forall i :: 0 <= i < |entries| ==> entries[i].durable.sequence > 0
    ensures k + 1 <= Head(entries).0
  {
    HeadIsMax(entries);
    hide Head;
    var i :| 0 <= i < |entries| && entries[i].durable.sequence == k + 1;
  }

  lemma {:induction false} HeadPointsAt(events: seq<Event>, entries: seq<Entry>)
    requires entries != [] && forall i :: 0 <= i < |entries| ==> Points(events, entries[i])
    ensures var h := Head(entries); 1 <= h.0 <= |events| && h.1 == events[h.0 - 1].hash
  {
    HeadIsMax(entries);
    hide Head;
    var i :| 0 <= i < |entries| && entries[i].durable.sequence == Head(entries).0
             && entries[i].durable.eventHash == Head(entries).1;
    assert Points(events, entries[i]);
  }

  lemma {:induction false} HeadAbove(events: seq<Event>, entries: seq<Entry>)
    requires forall i :: 0 <= i < |entries| ==> entries[i].durable.sequence > 0
    requires forall k :: 0 <= k < |events| && events[k].kind == ACCEPTED_KIND ==> Listed(entries, k)
    ensures AboveAccepted(events, Head(entries).0)
  {
    hide Listed, Head;
    forall k | 0 <= k < |events| && events[k].kind == ACCEPTED_KIND ensures k + 1 <= Head(entries).0 {
      ListedBelow(entries, k);
    }
  }

  lemma {:induction false} HeadAtEvent(p: Params, events: seq<Event>, entries: seq<Entry>)
    requires ValidHistory(p, events) && forall i :: 0 <= i < |entries| ==> Points(events, entries[i])
    ensures AtEvent(events, Head(entries).0, Head(entries).1)
    ensures Head(entries).0 == 0 <==> entries == []
  {
    hide ValidFrom;
    if entries != [] {
      hide Head;
      HeadPointsAt(events, entries);
      ValidSequence(p, GENESIS, 1, events, Head(entries).0 - 1);
    }
  }

  /** Where the checkpoint of a rebuilt authority points: at its last accepted event. */
  lemma {:induction false} TakeHead(p: Params, events: seq<Event>, a: Auth)
    requires BindsAll(events, a) && Covers(events, a) && ValidHistory(p, events)
    ensures AtEvent(events, Take(a).historySequence, Take(a).historyHash)
    ensures AboveAccepted(events, Take(a).historySequence)
    ensures Take(a).historySequence == 0 <==> a.accepted == map[]
  {
    var entries := AcceptedSlice(a);
    assert |entries| == |a.accepted.Keys|;
    assert Take(a).historySequence == Head(entries).0 && Take(a).historyHash == Head(entries).1;
    hide AcceptedSlice, BindsAll, Covers, Take, Head, AtEvent, AboveAccepted, ValidFrom, Listed;
    forall i | 0 <= i < |entries| ensures Points(events, entries[i]) && entries[i].durable.sequence > 0 {
      EntriesPoint(events, a, i);
    }
    forall k | 0 <= k < |events| && events[k].kind == ACCEPTED_KIND ensures Listed(entries, k) {
      EventListed(events, a, k);
    }
    hide Points;
    HeadAtEvent(p, events, entries);
    HeadAbove(events, entries);
  }

  /** Events of other kinds replay without any effect. */
  lemma {:induction false} OpaqueEvents(p: Params, a: Auth, events: seq<Event>)
    requires forall k :: 0 <= k < |events| ==> events[k].kind != ACCEPTED_KIND
    ensures ReplayAll(p, a, events) == Some(a)
    decreases |events|
  {
    if events != [] {
      assert forall k :: 0 <= k < |events[1..]| ==> events[1..][k] == events[k + 1];
      OpaqueEvents(p, a, events[1..]);
    }
  }

  /** Up to its last accepted event a history rebuilds to the same authority. */
  lemma {:induction false} RebuildAtHead(p: Params, events: seq<Event>, s: nat)
    requires Rebuild(p, events).Some? && s <= |events|
    requires AboveAccepted(events, s)
    ensures Rebuild(p, events[..s]) == Rebuild(p, events)
  {
    RebuildPrefix(p, events, s);
    hide Rebuild, ReplayAll;
    forall k | 0 <= k < |events[s..]| ensures events[s..][k].kind != ACCEPTED_KIND {
      assert events[s..][k] == events[s + k];
    }
    OpaqueEvents(p, Rebuild(p, events[..s]).value, events[s..]);
  }

  lemma {:induction false} CutRebuilt(p: Params, history: seq<Event>, s: int)
    requires Rebuild(p, history).Some? && 0 <= s <= |history|
    ensures Upto(history, s) == history[..s]
  {
    assert ValidHistory(p, history);
    hide Rebuild, ValidFrom;
    CutHistory(p, GENESIS, 1, history, s);
  }

  lemma {:induction false} HeadIn(history: seq<Event>, k: nat, cp: Snapshot)
    requires k <= |history| && AtEvent(history[..k], cp.historySequence, cp.historyHash)
    ensures cp.historySequence <= k && HeadPresent(cp, history[..cp.historySequence])
    ensures history[..k][..cp.historySequence] == history[..cp.historySequence]
  {
    var s := cp.historySequence;
    if s > 0 {
      var before, prefix := history[..k], history[..s];
      assert before[s - 1] == history[s - 1] == prefix[|prefix| - 1];
    }
  }

  /** Cutting a history at such a head: the head is present, and the prefix rebuilds to what the first k events rebuild to. */
  lemma {:induction false} CutAtHead(p: Params, history: seq<Event>, k: nat, cp: Snapshot)
    requires Rebuild(p, history).Some? && k <= |history| && Rebuild(p, history[..k]).Some?
    requires AtEvent(history[..k], cp.historySequence, cp.historyHash) && AboveAccepted(history[..k], cp.historySequence)
    ensures HeadPresent(cp, Upto(history, cp.historySequence))
    ensures Rebuild(p, Upto(history, cp.historySequence)) == Rebuild(p, history[..k])
  {
    hide Rebuild, Upto, Beyond, HeadPresent, AboveAccepted;
    HeadIn(history, k, cp);
    assert 0 <= cp.historySequence;
    CutRebuilt(p, history, cp.historySequence);
    RebuildAtHead(p, history[..k], cp.historySequence);
  }

  /** The prefix the checkpoint of a rebuilt authority cuts off rebuilds to that authority, and ends at its head. */
  lemma {:induction false} TakeCuts(p: Params, history: seq<Event>, k: nat)
    requires Rebuild(p, history).Some? && k <= |history| && Rebuild(p, history[..k]).Some?
    ensures var a := Rebuild(p, history[..k]).value;
            var cp := Take(a);
            && HeadPresent(cp, Upto(history, cp.historySequence))
            && Rebuild(p, Upto(history, cp.historySequence)) == Some(a)
  {
    assert ValidHistory(p, history[..k]);
    RebuildTracks(p, history[..k]);
    var a := Rebuild(p, history[..k]).value;
    assert BindsAll(history[..k], a) && Covers(history[..k], a);
    hide Rebuild, Take, Tracks, AtEvent, AboveAccepted, HeadPresent, Upto, ValidFrom, BindsAll, Covers;
    TakeHead(p, history[..k], a);
    CutAtHead(p, history, k, Take(a));
  }

  /** The first checks pass for the checkpoint of a rebuilt authority. */
  lemma {:induction false} TakePassesFirst(p: Params, history: seq<Event>, k: nat)
    requires Rebuild(p, history).Some? && k <= |history| && Rebuild(p, history[..k]).Some?
    ensures var a := Rebuild(p, history[..k]).value;
            var cp := Take(a);
            && ValidHistory(p, history) && cp.state.hash == HashProjection(p, cp.state)
            && HeadPresent(cp, Upto(history, cp.historySequence))
            && Rebuild(p, Upto(history, cp.historySequence)) == Some(a)
  {
    TakeCuts(p, history, k);
    var a := Rebuild(p, history[..k]).value;
    RebuildTracks(p, history[..k]);
    CloneTwice(a.state);
    HashIgnoresHash(p, Clone(a.state), a.state);
    assert ValidHistory(p, history);
    hide ReplayAll, Upto, ValidFrom, HashProjection, BindsAll, Covers, Head, AcceptedSlice, HeadPresent, Initial;
  }

  /**
   * A checkpoint taken at any moment of a rebuildable history verifies against every later
   * extension of it, and rebuilding from it gives exactly the fully replayed authority,
   * provided a transition had been accepted by then; with none, it is refused because its
   * state differs at the head.
   */
  lemma {:induction false} CheckpointVerifies(p: Params, history: seq<Event>, k: nat)
    requires Rebuild(p, history).Some? && k <= |history| && Rebuild(p, history[..k]).Some?
    ensures var a := Rebuild(p, history[..k]).value;
            && Verify(p, Take(a), history) == (if a.accepted == map[] then DiffersAtHead else Fine)
            && (a.accepted != map[] ==> RebuildFrom(p, Take(a), history) == Rebuild(p, history))
  {
    var a := Rebuild(p, history[..k]).value;
    var cp := Take(a);
    TakePassesFirst(p, history, k);
    RebuildTracks(p, history[..k]);
    SameProjectionIsEqual(a.state, cp.state);
    if a.accepted == map[] {
      InitialNotNil(p);
      hide Rebuild, Upto, ValidFrom, HashProjection, SameProjection, SameAccepted, BindsAll, Covers;
    } else {
      assert Clone(a.state) == a.state;
      SelfAlike(a);
      SliceMatches(history[..k], a, a);
      TakeRestores(p, history[..k], a);
      PrefixThenSuffix(p, history, cp.historySequence);
      RebuildTracks(p, history);
      var full := Rebuild(p, history).value;
      SelfAlike(full);
      SliceMatches(history, full, full);
      SameProjectionIsEqual(full.state, full.state);
      hide Rebuild, Upto, Beyond, ReplayAll, ValidFrom, HashProjection, SameProjection, SameAccepted,
           BindsAll, Covers, FromSnapshot, AcceptedSlice, Clone, HeadPresent;
    }
  }

  lemma {:induction false} SelfAlike(a: Auth)
    ensures Alike(a, a)
  {
  }

  /** The head comes from this place: its entry is bound at the highest sequence, and no earlier one is. */
  ghost predicate HeadAt(entries: seq<Entry>, head: (int, string), i: nat) {
    i < |entries| && head == (entries[i].durable.sequence, entries[i].durable.eventHash)
    && (forall j :: 0 <= j < |entries| ==> entries[j].durable.sequence <= entries[i].durable.sequence)
    && (forall j :: 0 <= j < i ==> entries[j].durable.sequence < entries[i].durable.sequence)
  }

  predicate Unbound(entries: seq<Entry>) {
    forall e :: e in entries ==> e.durable.sequence <= 0
  }

  /** The head of a checkpoint: the binding of the first entry at the highest sequence, or genesis when none has one. */
  lemma {:induction false} HeadExactly(entries: seq<Entry>)
    ensures if Unbound(entries) then Head(entries) == (0, "genesis")
            else Head(entries).0 > 0 && exists i :: HeadAt(entries, Head(entries), i)
    decreases |entries|
  {
    if entries != [] {
      var m := |entries| - 1;
      HeadExactly(entries[..m]);
      HeadMoves(entries[..m], entries[m], Head(entries[..m]));
      assert entries == entries[..m] + [entries[m]];
      hide HeadAt, Unbound;
    }
  }

  lemma {:induction false} HeadMoves(entries: seq<Entry>, e: Entry, head: (int, string))
    requires if Unbound(entries) then head == (0, "genesis") else head.0 > 0 && exists i :: HeadAt(entries, head, i)
    ensures var all, next := entries + [e], if e.durable.sequence > head.0 then (e.durable.sequence, e.durable.eventHash) else head;
            if Unbound(all) then next == (0, "genesis") else next.0 > 0 && exists i :: HeadAt(all, next, i)
  {
    var all, m := entries + [e], |entries|;
    assert all[m] == e && forall j :: 0 <= j < m ==> all[j] == entries[j] && entries[j] in entries;
    if e.durable.sequence > head.0 {
      assert HeadAt(all, (e.durable.sequence, e.durable.eventHash), m);
    } else if !Unbound(entries) {
      var i :| HeadAt(entries, head, i);
      assert HeadAt(all, head, i);
    }
  }
}
