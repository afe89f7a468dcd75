/** Checkpoints of the authority, and the verification of a checkpoint against a history. */
module Checkpoints {
  import opened Wrappers
  import opened Json
  import opened RecordCodec
  import Ledger
  import opened Order
  import opened EventLog
  import opened Transition

  /** An accepted transition as a checkpoint carries it: its proposal need not be in canonical form. */
  datatype Entry = Entry(proposal: Proposal, result: StateRef, admission: Raw, durable: Binding, duplicate: bool)

  datatype Snapshot = Snapshot(state: Projection, historySequence: int, historyHash: string, accepted: seq<Entry>)

  function AsEntry(a: Accepted): Entry {
    Entry(AsProposal(a.proposal), a.result, a.admission, a.durable, a.duplicate)
  }

  /** The entries of these ids, in this order. */
  function EntriesOf(a: Auth, ids: seq<string>): seq<Entry>
    requires forall id :: id in ids ==> id in a.accepted
  {
    seq(|ids|, i requires 0 <= i < |ids| => AsEntry(a.accepted[ids[i]].accepted))
  }

  /** acceptedSlice: sorted by id. */
  ghost function AcceptedSlice(a: Auth): seq<Entry> {
    EntriesOf(a, SortedKeys(a.accepted.Keys))
  }

  /** The highest durable sequence among the entries, with its hash. */
  function Head(entries: seq<Entry>): (int, string) {
    if entries == [] then (0, GENESIS) else
      var last := entries[|entries| - 1].durable;
      var before := Head(entries[..|entries| - 1]);
      if last.sequence > before.0 then (last.sequence, last.eventHash) else before
  }

  /** Checkpoint. */
  ghost function Take(a: Auth): Snapshot {
    var entries := AcceptedSlice(a);
    Snapshot(Clone(a.state), Head(entries).0, Head(entries).1, entries)
  }

  /** sameProjection: equal canonical JSON. */
  ghost predicate SameProjection(a: Projection, b: Projection) {
    Canonical(ProjectionValue(a), true) == Canonical(ProjectionValue(b), true)
  }

  /** The comparison of one entry: id, result and binding; not the proposal. */
  predicate Matches(a: Auth, e: Entry) {
    e.proposal.transitionID in a.accepted &&
    var mine := a.accepted[e.proposal.transitionID].accepted;
    mine.result == e.result && mine.durable == e.durable
  }

  /** sameAccepted: the entries are exactly the accepted transitions, each matching. */
  ghost predicate SameAccepted(a: Auth, entries: seq<Entry>) {
    && |entries| == |a.accepted|
    && (forall i, j :: 0 <= i < j < |entries| ==> entries[i].proposal.transitionID != entries[j].proposal.transitionID)
    && (forall i :: 0 <= i < |entries| ==> Matches(a, entries[i]))
  }

  /** The acknowledgement check on a checkpoint's binding. */
  predicate ValidBinding(b: Binding) {
    b.rustAck.Some? && b.eventID != "" && b.rustAck.value.id == b.eventID &&
    b.sequence > 0 && b.rustAck.value.sequence == b.sequence && Ledger.IsSha256(b.rustAck.value.hash)
  }


  /** One entry of a checkpoint taken into the accepted map. */
  ghost function Adopt(a: Auth, e: Entry): Option<Auth> {
    var normal := Normalize(e.proposal);
    if normal.Failure? then None else
      var n := normal.value;
      if n.transitionID in a.accepted || e.durable.eventID != n.transitionID || !ValidBinding(e.durable) then None else
        Some(a.(accepted := a.accepted[n.transitionID :=
          AcceptedRecord(Request(n), Accepted(n, e.result, e.admission, e.durable, e.duplicate))]))
  }

  ghost function AdoptAll(a: Auth, entries: seq<Entry>): Option<Auth>
    decreases |entries|
  {
    if entries == [] then Some(a) else
      var next := Adopt(a, entries[0]);
      if next.None? then None else AdoptAll(next.value, entries[1..])
  }

  /** authorityFromCheckpoint. */
  ghost function FromSnapshot(cp: Snapshot): Option<Auth> {
    AdoptAll(Auth(Clone(cp.state), map[]), cp.accepted)
  }

  /** The events at or below a sequence, and those above it, in order. */
  function Upto(events: seq<Event>, sequence: int): seq<Event> {
    if events == [] then []
    else (if events[0].sequence <= sequence then [events[0]] else []) + Upto(events[1..], sequence)
  }

  function Beyond(events: seq<Event>, sequence: int): seq<Event> {
    if events == [] then []
    else (if events[0].sequence > sequence then [events[0]] else []) + Beyond(events[1..], sequence)
  }

  /** Which check of VerifyCheckpoint refuses. */
  datatype Verdict =
    | Fine | BadHistory | BadStateHash | BadHead | PrefixFails | DiffersAtHead
    | BadEntry | SuffixFails | FullFails | FinalDiffers

  predicate HeadPresent(cp: Snapshot, prefix: seq<Event>) {
    if cp.historySequence == 0 then cp.historyHash == GENESIS
    else prefix != [] && prefix[|prefix| - 1].sequence == cp.historySequence && prefix[|prefix| - 1].hash == cp.historyHash
  }

  /** VerifyCheckpoint. */
  ghost function Verify(p: Params, cp: Snapshot, history: seq<Event>): Verdict {
    if !ValidHistory(p, history) then BadHistory
    else if cp.state.hash != HashProjection(p, cp.state) then BadStateHash
    else
      var prefix := Upto(history, cp.historySequence);
      if !HeadPresent(cp, prefix) then BadHead
      else
        var atHead := Rebuild(p, prefix);
        if atHead.None? then PrefixFails
        else if !SameProjection(atHead.value.state, cp.state) || !SameAccepted(atHead.value, cp.accepted) then DiffersAtHead
        else VerifySuffix(p, cp, history)
  }

  /** The second half: the suffix replayed from the checkpoint against full replay. */
  ghost function VerifySuffix(p: Params, cp: Snapshot, history: seq<Event>): Verdict {
    var from := FromSnapshot(cp);
    if from.None? then BadEntry
    else
      var last := ReplayAll(p, from.value, Beyond(history, cp.historySequence));
      if last.None? then SuffixFails
      else
        var full := Rebuild(p, history);
        if full.None? then FullFails
        else if !SameProjection(last.value.state, full.value.state) || !SameAccepted(last.value, AcceptedSlice(full.value))
        then FinalDiffers
        else Fine
  }

  /** RebuildFromCheckpoint. */
  ghost function RebuildFrom(p: Params, cp: Snapshot, history: seq<Event>): Option<Auth> {
    if Verify(p, cp, history) != Fine then None else
      var from := FromSnapshot(cp);
      if from.None? then None else ReplayAll(p, from.value, Beyond(history, cp.historySequence))
  }
}
