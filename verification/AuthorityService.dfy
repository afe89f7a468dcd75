/** The transition authority as it runs: an object over its projection, its accepted map and the log it writes to. */
module AuthorityService {
  import opened Wrappers
  import opened Json
  import opened JsonRoundTrip
  import opened Order
  import opened RecordCodec
  import Ledger
  import opened EventLog
  import opened Transition
  import opened ProjectionTheory
  import opened TransitionTheory
  import opened Checkpoints
  import opened CheckpointTheory
  import opened Sorting
  import LogService

  /** canonicalJSON of a decoded value. */
  method CanonicalText(v: Value) returns (text: string)
    ensures text == Canonical(v, true)
  {
    hide Canonical;
    text := WriteCanonical(v, true, "");
    assert "" + Canonical(v, true) == Canonical(v, true);
  }

  /** canonicalProposal: the request bytes and the normalized proposal. */
  method CanonicalProposal(x: Proposal) returns (r: Result<(string, Normal), Reject>)
    ensures r.Failure? ==> Normalize(x) == Failure(r.error)
    ensures r.Success? ==> Normalize(x) == Success(r.value.1) && r.value.0 == Request(r.value.1)
  {
    if MissingIdentity(x) {
      return Failure(Malformed);
    }
    if !SupportedOperation(x.operation) {
      return Failure(Invalid);
    }
    if !x.resultData.Json? {
      return Failure(Malformed);
    }
    var admission := Obj(map[]);
    if !x.admissionData.Missing? {
      if x.admissionData.BadJson? {
        return Failure(Malformed);
      }
      admission := x.admissionData.v;
    }
    var n := Normal(x.transitionID, x.proposalID, x.requestID, x.prior, x.operation, x.entity, x.node, x.resultData.v, admission);
    var text := CanonicalText(ProposalValue(n));
    return Success((text, n));
  }

  /** hashProjection. */
  method HashOf(p: Params, x: Projection) returns (h: string)
    ensures h == HashProjection(p, x)
  {
    hide Canonical, ProjectionValue;
    var text := CanonicalText(ProjectionValue(Clone(x).(hash := "")));
    h := p.textHash(text);
  }

  /** Initial. */
  method InitialState(p: Params) returns (s: Projection)
    ensures s == Initial(p) && List(s) == []
  {
    hide HashProjection;
    s := Projection("semantic-state", 0, Some([]), "");
    var h := HashOf(p, s);
    s := s.(hash := h);
  }

  /** sameProjection: equal canonical text. */
  method SameText(a: Projection, b: Projection) returns (same: bool)
    ensures same == SameProjection(a, b)
  {
    hide Canonical, ProjectionValue;
    var left := CanonicalText(ProjectionValue(a));
    var right := CanonicalText(ProjectionValue(b));
    same := left == right;
  }

  /** The edit loop of apply: replace the node's data where the key matches, or add a node at the end. */
  method Edit(before: seq<NodeState>, x: NodeState) returns (nodes: seq<NodeState>)
    requires Ordered(before)
    ensures DistinctKeys(nodes)
    ensures forall y :: y in nodes <==> y == x || (y in before && !SameKey(y, x))
  {
    OrderedDistinct(before);
    nodes := before;
    var replaced, i := false, 0;
    while i < |nodes| && !replaced
      invariant 0 <= i <= |nodes|
      invariant !replaced ==> nodes == before && forall j :: 0 <= j < i ==> !SameKey(before[j], x)
      invariant replaced ==> i < |before| && SameKey(before[i], x) && nodes == before[i := x]
      decreases |nodes| - i, !replaced
    {
      if SameKey(nodes[i], x) {
        nodes := nodes[i := nodes[i].(data := x.data)];
        replaced := true;
      } else {
        i := i + 1;
      }
    }
    if replaced {
      ReplacedElements(before, i, x);
    } else {
      nodes := nodes + [x];
    }
  }

  lemma {:induction false} ReplacedElements(before: seq<NodeState>, i: nat, x: NodeState)
    requires DistinctKeys(before) && i < |before| && SameKey(before[i], x)
    ensures DistinctKeys(before[i := x])
    ensures forall y :: y in before[i := x] <==> y == x || (y in before && !SameKey(y, x))
  {
    var after := before[i := x];
    forall y ensures y in after <==> y == x || (y in before && !SameKey(y, x)) {
      if y in after {
        var j :| 0 <= j < |after| && after[j] == y;
        assert j != i ==> before[j] == y;
      }
      if y in before && !SameKey(y, x) {
        var j :| 0 <= j < |before| && before[j] == y;
        assert after[j] == y;
      }
      assert after[i] == x;
    }
  }

  /** apply: edit a copy of the nodes, sort it, count one version up, hash. */
  method ApplyTo(p: Params, current: Projection, n: Normal) returns (next: Projection)
    requires Ordered(List(current))
    ensures next == Apply(p, current, n)
  {
    hide Canonical, ProjectionValue, Put;
    var x := NodeState(n.entity, n.node, n.resultData);
    var edited := Edit(List(current), x);
    var nodes := SortNodes(edited);
    EditedIsPut(List(current), edited, x, nodes);
    next := current.(nodes := Some(nodes), version := current.version + 1);
    var h := HashOf(p, next);
    next := next.(hash := h);
  }

  class Authority {
    const writer: LogService.Service
    const policy: (Normal, Projection) -> bool
    var state: Projection
    var accepted: map<string, AcceptedRecord>

    function Model(): Auth
      reads this
    {
      Auth(state, accepted)
    }

    /** The nodes are permanently ordered, and every accepted transition is under its own id. */
    ghost predicate Valid()
      reads this
    {
      Ordered(List(state)) && Named(Model()) && writer.Valid()
    }

    /** New: the initial projection and nothing accepted. */
    constructor (writer: LogService.Service, policy: (Normal, Projection) -> bool)
      requires writer.Valid()
      ensures this.writer == writer && this.policy == policy && Valid()
      ensures Model() == Fresh(writer.p)
    {
      hide HashProjection;
      this.writer := writer;
      this.policy := policy;
      var start := InitialState(writer.p);
      this.state := start;
      this.accepted := map[];
    }

    /** Propose: the projection advances only after the append is durable and acknowledged. */
    method Propose(proposal: Proposal, now: string, h: Hazards) returns (r: Result<Accepted, Reject>)
      requires Valid()
      modifies this, writer`sequence, writer`lastHash, writer`mirror, writer.recorder
      ensures Valid()
      ensures (Model(), writer.Model(), writer.recorder.Model(), r)
           == ProposeStep(writer.p, writer.configured, policy, old(Model()), old(writer.Model()), old(writer.recorder.Model()), proposal, now, h)
    {
      hide Normalize, AppendEvent, Request, Clone, Apply, ValidAck, Payload, Ordered;
      var canonical := CanonicalProposal(proposal);
      if canonical.Failure? {
        return Failure(canonical.error);
      }
      var (request, n) := canonical.value;
      if n.transitionID in accepted {
        var prior := accepted[n.transitionID];
        if prior.request == request {
          return Success(prior.accepted.(duplicate := true));
        }
        return Failure(Conflict);
      }
      if n.prior != Ref(state) {
        return Failure(Stale);
      }
      if !policy(n, Clone(state)) {
        return Failure(Policy);
      }
      var next := ApplyTo(writer.p, state, n);
      ApplyKeepsOrder(writer.p, state, n);
      var saved := writer.Append(TransitionEvent(n, Ref(next)), now, h);
      if saved.None? {
        return Failure(Durable);
      }
      if saved.value.id != n.transitionID {
        return Failure(Durable);
      }
      if !ValidAck(saved.value) {
        return Failure(Durable);
      }
      var bound := Accepted(n, Ref(next), Json(n.admissionData), BindingOf(saved.value), false);
      state := next;
      accepted := accepted[n.transitionID := AcceptedRecord(request, bound)];
      return Success(bound);
    }

    method Restore(proposal: Proposal, now: string, h: Hazards) returns (r: Result<Accepted, Reject>)
      requires Valid()
      modifies this, writer`sequence, writer`lastHash, writer`mirror, writer.recorder
      ensures Valid()
      ensures (Model(), writer.Model(), writer.recorder.Model(), r)
           == ProposeStep(writer.p, writer.configured, policy, old(Model()), old(writer.Model()), old(writer.recorder.Model()),
                          proposal.(operation := "restore"), now, h)
    {
      r := Propose(proposal.(operation := "restore"), now, h);
    }

    method Import(proposal: Proposal, now: string, h: Hazards) returns (r: Result<Accepted, Reject>)
      requires Valid()
      modifies this, writer`sequence, writer`lastHash, writer`mirror, writer.recorder
      ensures Valid()
      ensures (Model(), writer.Model(), writer.recorder.Model(), r)
           == ProposeStep(writer.p, writer.configured, policy, old(Model()), old(writer.Model()), old(writer.recorder.Model()),
                          proposal.(operation := "import"), now, h)
    {
      r := Propose(proposal.(operation := "import"), now, h);
    }

    /** replay of one event; a refused event changes nothing. */
    method Replay(ev: Event) returns (ok: bool)
      requires Valid()
      modifies this
      ensures Valid()
      ensures ok <==> Replayed(writer.p, old(Model()), ev).Some?
      ensures Model() == if ok then Replayed(writer.p, old(Model()), ev).value else old(Model())
    {
      hide Normalize, Request, Apply, DecodeAccepted, Ordered, ReplayDecoded;
      if ev.kind != ACCEPTED_KIND {
        return true;
      }
      if ev.status != "accepted" || ev.action != ACTION || ev.id == "" || |ev.details| != 1 {
        return false;
      }
      if DETAIL !in ev.details {
        return false;
      }
      var decoded := DecodeAccepted(ev.details[DETAIL]);
      if decoded.None? {
        return false;
      }
      ok := ReplayPayload(ev, decoded.value);
    }

    /** The checks of replay on a decoded payload. */
    method ReplayPayload(ev: Event, d: Decoded) returns (ok: bool)
      requires Valid()
      modifies this
      ensures Valid()
      ensures ok <==> ReplayDecoded(writer.p, old(Model()), ev, d).Some?
      ensures Model() == if ok then ReplayDecoded(writer.p, old(Model()), ev, d).value else old(Model())
    {
      hide Normalize, Request, Apply, Ordered, Canonical, BindingOf;
      var canonical := CanonicalProposal(d.proposal);
      if canonical.Failure? {
        return false;
      }
      var (request, n) := canonical.value;
      if ev.id != n.transitionID {
        return false;
      }
      if n.transitionID in accepted {
        return false;
      }
      if n.prior != Ref(state) {
        return false;
      }
      var next := ApplyTo(writer.p, state, n);
      ApplyKeepsOrder(writer.p, state, n);
      if d.result != Ref(next) {
        return false;
      }
      if !d.admission.Json? {
        return false;
      }
      var admission := CanonicalText(d.admission.v);
      var expected := CanonicalText(n.admissionData);
      CanonicalInjective(d.admission.v, n.admissionData, true);
      assert admission == expected <==> d.admission == Json(n.admissionData);
      if admission != expected {
        return false;
      }
      state := next;
      accepted := accepted[n.transitionID := AcceptedRecord(request, Accepted(n, d.result, Json(n.admissionData), BindingOf(ev), d.duplicate))];
      return true;
    }

    /** Replays these events in order, stopping at the first that is refused. */
    method ReplayEvents(events: seq<Event>) returns (ok: bool)
      requires Valid()
      modifies this
      ensures Valid()
      ensures ok <==> ReplayAll(writer.p, old(Model()), events).Some?
      ensures ok ==> Model() == ReplayAll(writer.p, old(Model()), events).value
    {
      hide Replayed, Ordered;
      var i := 0;
      while i < |events|
        invariant 0 <= i <= |events| && Valid()
        invariant ReplayAll(writer.p, Model(), events[i..]) == ReplayAll(writer.p, old(Model()), events)
      {
        assert events[i..][0] == events[i] && events[i..][1..] == events[i + 1..];
        var replayed := Replay(events[i]);
        if !replayed {
          return false;
        }
        i := i + 1;
      }
      return true;
    }

    /** The loop of verification and rebuild that replays what lies above a sequence. */
    method ReplayBeyond(history: seq<Event>, sequence: int) returns (ok: bool)
      requires Valid()
      modifies this
      ensures Valid()
      ensures ok <==> ReplayAll(writer.p, old(Model()), Beyond(history, sequence)).Some?
      ensures ok ==> Model() == ReplayAll(writer.p, old(Model()), Beyond(history, sequence)).value
    {
      hide Replayed, Ordered;
      var i := 0;
      while i < |history|
        invariant 0 <= i <= |history| && Valid()
        invariant ReplayAll(writer.p, Model(), Beyond(history[i..], sequence))
               == ReplayAll(writer.p, old(Model()), Beyond(history, sequence))
      {
        assert history[i..][0] == history[i] && history[i..][1..] == history[i + 1..];
        BeyondStep(writer.p, Model(), history[i..], sequence);
        if history[i].sequence > sequence {
          var replayed := Replay(history[i]);
          if !replayed {
            return false;
          }
        }
        i := i + 1;
      }
      return true;
    }

    /** Checkpoint: the accepted transitions sorted by id, and the highest of their bindings. */
    method TakeCheckpoint() returns (cp: Snapshot)
      ensures cp == Take(Model())
    {
      hide SortedKeys, AsEntry;
      var ids := Sort(accepted.Keys);
      var entries := [];
      var sequence: int, hash := 0, GENESIS;
      var i := 0;
      while i < |ids|
        invariant 0 <= i <= |ids|
        invariant entries == EntriesOf(Model(), ids[..i])
        invariant Head(entries) == (sequence, hash)
      {
        var x := accepted[ids[i]].accepted;
        assert entries + [AsEntry(x)] == EntriesOf(Model(), ids[..i + 1]);
        assert (entries + [AsEntry(x)])[..i] == entries;
        entries := entries + [AsEntry(x)];
        EntryFields(x);
        if x.durable.sequence > sequence {
          sequence := x.durable.sequence;
          hash := x.durable.eventHash;
        }
        i := i + 1;
      }
      assert ids[..i] == ids;
      cp := Snapshot(Clone(state), sequence, hash, entries);
    }

    /** acceptedSlice. */
    method Slice() returns (entries: seq<Entry>)
      ensures entries == AcceptedSlice(Model())
    {
      hide SortedKeys, AsEntry;
      var ids := Sort(accepted.Keys);
      entries := [];
      var i := 0;
      while i < |ids|
        invariant 0 <= i <= |ids|
        invariant entries == EntriesOf(Model(), ids[..i])
      {
        entries := entries + [AsEntry(accepted[ids[i]].accepted)];
        i := i + 1;
      }
      assert ids[..i] == ids;
    }

    /** sameAccepted: both lists in order of id, compared position by position. */
    method SameAcceptedAs(expected: seq<Entry>) returns (same: bool)
      requires Valid()
      ensures same == SameAccepted(Model(), expected)
    {
      hide SortedKeys, AsEntry, Rising, DistinctEntries, SameAccepted, Matches, Named;
      var got := Slice();
      SliceSize(Model(), expected);
      if |got| != |expected| {
        return false;
      }
      var sorted := SortEntries(expected);
      assert |sorted| == |multiset(sorted)| == |multiset(expected)| == |expected|;
      PositionsDecide(Model(), expected, sorted);
      same := InSamePositions(got, sorted);
    }
  }

  lemma {:induction false} ApplyKeepsOrder(p: Params, s: Projection, n: Normal)
    requires Ordered(List(s))
    ensures Ordered(List(Apply(p, s, n)))
  {
    ApplyWellFormed(p, s, n);
    hide Apply, Ordered;
  }

  lemma {:induction false} BeyondStep(p: Params, a: Auth, history: seq<Event>, sequence: int)
    requires history != []
    ensures ReplayAll(p, a, Beyond(history, sequence)) ==
            if history[0].sequence <= sequence then ReplayAll(p, a, Beyond(history[1..], sequence))
            else
              var next := Replayed(p, a, history[0]);
              if next.None? then None else ReplayAll(p, next.value, Beyond(history[1..], sequence))
  {
    hide Replayed;
    var rest := Beyond(history[1..], sequence);
    if history[0].sequence <= sequence {
      assert [] + rest == rest;
    } else {
      assert ([history[0]] + rest)[1..] == rest;
    }
  }

  /** One step of sameAccepted's comparison. */
  predicate SamePosition(got: Entry, expected: Entry) {
    IdOf(got) == IdOf(expected) && got.result == expected.result && got.durable == expected.durable
  }

  method InSamePositions(got: seq<Entry>, sorted: seq<Entry>) returns (same: bool)
    requires |got| == |sorted|
    ensures same <==> forall i :: 0 <= i < |sorted| ==> SamePosition(got[i], sorted[i])
  {
    hide SamePosition;
    var i := 0;
    while i < |got|
      invariant 0 <= i <= |got|
      invariant forall j :: 0 <= j < i ==> SamePosition(got[j], sorted[j])
    {
      if !SamePosition(got[i], sorted[i]) {
        return false;
      }
      i := i + 1;
    }
    return true;
  }

  /** Every accepted transition is under its own id. */
  ghost predicate Named(a: Auth) {
    forall id :: id in a.accepted ==> a.accepted[id].accepted.proposal.transitionID == id
  }

  lemma {:induction false} SliceSize(a: Auth, expected: seq<Entry>)
    ensures |AcceptedSlice(a)| == |a.accepted|
    ensures |AcceptedSlice(a)| != |expected| ==> !SameAccepted(a, expected)
  {
    hide SortedKeys, Matches;
    assert |a.accepted.Keys| == |a.accepted|;
  }

  /** The i-th entry of the slice is that of the i-th key. */
  lemma {:induction false} SliceAt(a: Auth, i: nat)
    requires Named(a) && i < |AcceptedSlice(a)|
    ensures var id := SortedKeys(a.accepted.Keys)[i];
            var e := AcceptedSlice(a)[i];
            && id in a.accepted && IdOf(e) == id
            && e.result == a.accepted[id].accepted.result && e.durable == a.accepted[id].accepted.durable
  {
    hide SortedKeys;
    var id := SortedKeys(a.accepted.Keys)[i];
    assert id in SortedKeys(a.accepted.Keys);
    EntryFields(a.accepted[id].accepted);
  }

  /** An entry that is in the position of a key matches that key's transition. */
  lemma {:induction false} PositionMatches(a: Auth, i: nat, e: Entry)
    requires Named(a) && i < |AcceptedSlice(a)|
    ensures SamePosition(AcceptedSlice(a)[i], e) <==> IdOf(e) == SortedKeys(a.accepted.Keys)[i] && Matches(a, e)
  {
    SliceAt(a, i);
    hide SortedKeys, AcceptedSlice;
  }

  ghost function IdsOf(entries: seq<Entry>): seq<string> {
    seq(|entries|, i requires 0 <= i < |entries| => IdOf(entries[i]))
  }

  lemma {:induction false} IdsOfMember(entries: seq<Entry>, id: string)
    ensures id in IdsOf(entries) <==> exists i :: 0 <= i < |entries| && IdOf(entries[i]) == id
  {
    var ids := IdsOf(entries);
    assert forall i :: 0 <= i < |entries| ==> ids[i] == IdOf(entries[i]);
    if id in ids {
      var i :| 0 <= i < |ids| && ids[i] == id;
      assert IdOf(entries[i]) == id;
    }
  }

  lemma {:induction false} StrictlyRising(entries: seq<Entry>)
    requires Rising(entries) && DistinctEntries(entries)
    ensures Increasing(IdsOf(entries))
  {
    hide Less;
    var ids := IdsOf(entries);
    forall i, j | 0 <= i < j < |ids| ensures Less(ids[i], ids[j]) {
      LessTotal(ids[i], ids[j]);
    }
  }

  lemma {:induction false} IncreasingEntries(entries: seq<Entry>)
    requires Increasing(IdsOf(entries))
    ensures DistinctEntries(entries)
  {
    hide Less;
    var ids := IdsOf(entries);
    forall i, j | 0 <= i < j < |entries| ensures IdOf(entries[i]) != IdOf(entries[j]) {
      assert ids[i] == IdOf(entries[i]) && ids[j] == IdOf(entries[j]);
      if ids[i] == ids[j] { IncreasingDistinct(ids, i, j); }
    }
  }

  /** Sorted entries with the right ids are in the order of the keys. */
  lemma {:induction false} SortedIds(a: Auth, expected: seq<Entry>, sorted: seq<Entry>)
    requires SameAccepted(a, expected) && Rising(sorted) && multiset(sorted) == multiset(expected)
    requires DistinctEntries(sorted) <==> DistinctEntries(expected)
    ensures IdsOf(sorted) == SortedKeys(a.accepted.Keys)
  {
    assert DistinctEntries(expected);
    hide SortedKeys, Rising, DistinctEntries, Matches;
    SameAcceptedKeys(a, expected);
    StrictlyRising(sorted);
    forall id ensures id in IdsOf(sorted) <==> id in SortedKeys(a.accepted.Keys) {
      SameIds(sorted, expected, id);
      IdsOfMember(sorted, id);
      assert id in Ids(expected) <==> exists i :: 0 <= i < |expected| && IdOf(expected[i]) == id;
    }
    hide IdsOf, Ids, SameAccepted;
    IncreasingUnique(IdsOf(sorted), SortedKeys(a.accepted.Keys));
  }

  /** Comparing the sorted entries position by position decides SameAccepted. */
  lemma {:induction false} PositionsDecide(a: Auth, expected: seq<Entry>, sorted: seq<Entry>)
    requires Named(a) && Rising(sorted) && multiset(sorted) == multiset(expected)
    requires DistinctEntries(sorted) <==> DistinctEntries(expected)
    requires |AcceptedSlice(a)| == |expected| == |sorted|
    ensures SameAccepted(a, expected) <==> forall i :: 0 <= i < |sorted| ==> SamePosition(AcceptedSlice(a)[i], sorted[i])
  {
    hide SortedKeys, Rising, Matches, Named, AcceptedSlice, SamePosition;
    if SameAccepted(a, expected) {
      SortedIds(a, expected, sorted);
      forall i | 0 <= i < |sorted| ensures SamePosition(AcceptedSlice(a)[i], sorted[i]) {
        assert IdsOf(sorted)[i] == IdOf(sorted[i]);
        assert sorted[i] in multiset(expected);
        PositionMatches(a, i, sorted[i]);
      }
    }
    if forall i :: 0 <= i < |sorted| ==> SamePosition(AcceptedSlice(a)[i], sorted[i]) {
      SamePositionsSame(a, expected, sorted);
    }
  }

  lemma {:induction false} SamePositionsSame(a: Auth, expected: seq<Entry>, sorted: seq<Entry>)
    requires Named(a) && multiset(sorted) == multiset(expected)
    requires DistinctEntries(sorted) <==> DistinctEntries(expected)
    requires |AcceptedSlice(a)| == |expected| == |sorted|
    requires forall i :: 0 <= i < |sorted| ==> SamePosition(AcceptedSlice(a)[i], sorted[i])
    ensures SameAccepted(a, expected)
  {
    SliceSize(a, expected);
    SliceKeys(a);
    hide SortedKeys, Matches, Named, AcceptedSlice, SamePosition;
    forall i | 0 <= i < |sorted| ensures IdOf(sorted[i]) == SortedKeys(a.accepted.Keys)[i] && Matches(a, sorted[i]) {
      PositionMatches(a, i, sorted[i]);
    }
    assert IdsOf(sorted) == SortedKeys(a.accepted.Keys);
    IncreasingEntries(sorted);
    forall i | 0 <= i < |expected| ensures Matches(a, expected[i]) {
      assert expected[i] in multiset(sorted);
      assert expected[i] in sorted;
    }
  }

  lemma {:induction false} SliceKeys(a: Auth)
    ensures |AcceptedSlice(a)| == |SortedKeys(a.accepted.Keys)|
  {
    hide SortedKeys;
  }
}
