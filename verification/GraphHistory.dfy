/**
 * The live graph stores against accepted history: over every run of ingests among other
 * transitions, the packets that history decodes to are exactly those the stores hold, so
 * rebuilding from history gives the live graph of a workspace, unless other workspaces have
 * packets too, which a rebuild does not leave out.
 */
module GraphHistory {
  import opened Wrappers
  import opened Json
  import opened Order
  import opened RecordCodec
  import opened Ledger
  import opened EventLog
  import opened Transition
  import TransitionTheory
  import opened Checkpoints
  import opened Protocol
  import Safety
  import opened Recovery
  import ServerOps
  import opened Graphs
  import GraphTheory
  import GraphStore
  import LostReplies
  import ProposalAnswers
  import ReplayGaps

  /** The JSON of a packet, its validation, and the hash behind the id of its transition. */
  datatype Codec = Codec(
    encode: Packet -> Value, decode: Value -> Option<Packet>, valid: Packet -> bool,
    transitionID: (string, string, string) -> string)

  ghost predicate GoodCodec(k: Codec) {
    forall p :: k.decode(k.encode(p)) == Some(p)
  }

  function IdOf(k: Codec, p: Packet): string {
    k.transitionID(p.workspaceID, p.sourceID, p.contentHash)
  }

  /** The result data of an ingest. */
  function IngestData(k: Codec, p: Packet): Value {
    Obj(map["legacy_action" := Str("source.ingested")]
           ["legacy_details" := Obj(map["source_id" := Str(p.sourceID)]["workspace_id" := Str(p.workspaceID)])]
           ["packet" := k.encode(p)])
  }

  function Short(id: string): string {
    if |id| < 16 then id else id[..16]
  }

  /** What ProposeIngest hands to the authority, on top of the current state. */
  function IngestProposal(k: Codec, a: Auth, p: Packet): Proposal {
    var id := IdOf(k, p);
    Proposal(id, "proposal-" + Short(id), "request-" + Short(id), Ref(a.state), "upsert", p.workspaceID, p.sourceID,
             Raw.Json(IngestData(k, p)), Missing)
  }

  /** PacketFromAccepted, on result data. */
  function PacketFrom(k: Codec, data: Value): Option<Packet> {
    if !data.Obj? || "packet" !in data.fields then None else
      var p := k.decode(data.fields["packet"]);
      if p.Some? && k.valid(p.value) then p else None
  }

  function PacketIn(k: Codec, e: Checkpoints.Entry): Option<Packet> {
    if e.proposal.resultData.Json? then PacketFrom(k, e.proposal.resultData.v) else None
  }

  /** PacketsFromHistory: entries without a packet are passed over. */
  function PacketsOf(k: Codec, entries: seq<Checkpoints.Entry>): seq<Packet> {
    if entries == [] then [] else
      var before, last := PacketsOf(k, entries[..|entries| - 1]), PacketIn(k, entries[|entries| - 1]);
      if last.Some? then before + [last.value] else before
  }

  // ----- The live side -----

  /** The system, and the packets that each workspace's store holds. */
  datatype Live = Live(sys: Sys, stores: map<string, GraphStore.Packets>)

  function StoreOf(l: Live, w: string): GraphStore.Packets {
    if w in l.stores then l.stores[w] else map[]
  }

  datatype Op = Ingest(p: Packet, now: string, h: Hazards) | Other(step: Step)

  /** An ingest admits the packet and only then applies it to its workspace's store. */
  ghost function OpStep(c: Config, k: Codec, l: Live, op: Op): Live
    requires l.sys.auth.Some?
  {
    match op
    case Ingest(p, now, h) =>
      if !k.valid(p) then l else
        var (a, log, n, r) :=
          ProposeStep(c.p, c.configured, c.policy, l.sys.auth.value, l.sys.log, l.sys.rust.node,
                      IngestProposal(k, l.sys.auth.value, p), now, Reaching(l.sys.rust, h));
        Live(Sys(l.sys.rust.(node := n), log, Some(a)),
             if r.Success? then l.stores[p.workspaceID := GraphStore.Taken(k.valid, StoreOf(l, p.workspaceID), p)] else l.stores)
    case Other(step) => l.(sys := Next(c, l.sys, step))
  }

  /** A stored packet of this source is of the same workspace and content, as a source id that hashes them has it. */
  ghost predicate SourceTells(l: Live, p: Packet) {
    forall w :: w in l.stores && p.sourceID in l.stores[w] ==>
      l.stores[w][p.sourceID].workspaceID == p.workspaceID && l.stores[w][p.sourceID].contentHash == p.contentHash
  }

  /** Benign appends with stable payloads; transitions other than ingests carry no packet; Go is not restarted. */
  ghost predicate Allowed(c: Config, k: Codec, l: Live, op: Op)
    requires l.sys.auth.Some?
  {
    match op
    case Ingest(p, now, h) => Benign(h) && StableProposal(c, l.sys.auth.value, IngestProposal(k, l.sys.auth.value, p)) && SourceTells(l, p)
    case Other(step) =>
      BenignStep(c, l.sys, step) && !step.RestartGo?
      && (step.Admit? && step.proposal.resultData.Json? ==> PacketFrom(k, step.proposal.resultData.v).None?)
  }

  ghost function RunOps(c: Config, k: Codec, l: Live, ops: seq<Op>): Live
    decreases |ops|
  {
    if ops == [] || l.sys.auth.None? then l else RunOps(c, k, OpStep(c, k, l, ops[0]), ops[1..])
  }

  ghost predicate AllAllowed(c: Config, k: Codec, l: Live, ops: seq<Op>)
    decreases |ops|
  {
    ops == [] || (l.sys.auth.Some? && Allowed(c, k, l, ops[0]) && AllAllowed(c, k, OpStep(c, k, l, ops[0]), ops[1..]))
  }

  // ----- Stores and accepted transitions -----

  /** The packet is in the store of its workspace. */
  predicate Stored(stores: map<string, GraphStore.Packets>, p: Packet) {
    p.workspaceID in stores && p.sourceID in stores[p.workspaceID] && stores[p.workspaceID][p.sourceID] == p
  }

  function PacketAt(k: Codec, a: Auth, id: string): Option<Packet>
    requires id in a.accepted
  {
    PacketFrom(k, a.accepted[id].accepted.proposal.resultData)
  }

  ghost predicate Filed(stores: map<string, GraphStore.Packets>) {
    && (forall w, s :: w in stores && s in stores[w] ==> stores[w][s].sourceID == s && stores[w][s].workspaceID == w)
    && (forall v, w, s :: v in stores && w in stores && s in stores[v] && s in stores[w] ==> v == w)
  }

  /** Stored packets are those of the accepted transitions, each under its own transition id. */
  ghost predicate Tied(k: Codec, a: Auth, stores: map<string, GraphStore.Packets>) {
    && Filed(stores)
    && (forall p :: Stored(stores, p) ==> IdOf(k, p) in a.accepted && PacketAt(k, a, IdOf(k, p)) == Some(p))
    && (forall id :: id in a.accepted && PacketAt(k, a, id).Some? ==>
          Stored(stores, PacketAt(k, a, id).value) && id == IdOf(k, PacketAt(k, a, id).value))
  }

  /** One more accepted transition under a new id. */
  ghost predicate Adds(a: Auth, b: Auth, x: Normal) {
    x.transitionID !in a.accepted && x.transitionID in b.accepted
    && b.accepted == a.accepted[x.transitionID := b.accepted[x.transitionID]]
    && b.accepted[x.transitionID].accepted.proposal == x
  }

  lemma {:induction false} AdmittedAdds(p: Params, a: Auth, x: Normal, ev: Event)
    requires x.transitionID !in a.accepted
    ensures Adds(a, TransitionTheory.Admitted(p, a, x, ev), x)
  {
    hide Apply, Request;
  }

  lemma {:induction false} ProposedIsNew(c: Config, a: Auth, asked: Proposal)
    requires Safety.Proposed(c, a, asked).Some?
    ensures var x := Safety.Proposed(c, a, asked).value;
            Normalize(asked) == Success(x) && x.transitionID !in a.accepted && x.transitionID == asked.transitionID
            && asked.resultData.Json? && x.resultData == asked.resultData.v
  {
  }

  /** A proposal leaves the accepted map as it is or adds the one transition it proposes. */
  lemma {:induction false} ProposeAdds(c: Config, a: Auth, log: Log, n: Node, asked: Proposal, now: string, h: Hazards)
    ensures var (b, _, _, r) := ProposeStep(c.p, c.configured, c.policy, a, log, n, asked, now, h);
            var x := Safety.Proposed(c, a, asked);
            if x.Some? && r.Success? then Adds(a, b, x.value) else b == a
  {
    hide ProposeStep, Safety.ProposedEvent, TransitionTheory.Admitted, ValidAck, AppendEvent, Adds, Normalize;
    Safety.ProposeCases(c, a, log, n, asked, now, h);
    var x := Safety.Proposed(c, a, asked);
    if x.Some? {
      ProposedIsNew(c, a, asked);
      var ev := Safety.ProposedEvent(c.p, a, x.value);
      var saved := AppendEvent(c.p, c.configured, log, n, ev, now, h).2;
      if saved.Some? {
        AdmittedAdds(c.p, a, x.value, saved.value);
      }
    }
  }

  lemma {:induction false} IngestReads(k: Codec, p: Packet)
    requires GoodCodec(k) && k.valid(p)
    ensures PacketFrom(k, IngestData(k, p)) == Some(p)
  {
    assert |"packet"| == 6 && |"legacy_action"| == 13 && |"legacy_details"| == 14;
  }

  /** A packet admitted under its id was not stored; now it is. */
  lemma {:induction false} TiedIngest(k: Codec, a: Auth, b: Auth, l: Live, p: Packet, x: Normal)
    requires GoodCodec(k) && k.valid(p) && Tied(k, a, l.stores) && SourceTells(l, p)
    requires Adds(a, b, x) && x.transitionID == IdOf(k, p) && x.resultData == IngestData(k, p)
    ensures Tied(k, b, l.stores[p.workspaceID := GraphStore.Taken(k.valid, StoreOf(l, p.workspaceID), p)])
  {
    IngestReads(k, p);
    hide IngestData, PacketFrom;
    var w := p.workspaceID;
    var stores' := l.stores[w := GraphStore.Taken(k.valid, StoreOf(l, w), p)];
    StoredIsAccepted(k, a, l, p);
    StoresWith(k, l, p);
    hide GraphStore.Taken, SourceTells, Filed, Stored, StoreOf;
    forall q | Stored(stores', q) ensures IdOf(k, q) in b.accepted && PacketAt(k, b, IdOf(k, q)) == Some(q) {
      if q != p {
        assert IdOf(k, q) in a.accepted;
      }
    }
    forall id | id in b.accepted && PacketAt(k, b, id).Some?
      ensures Stored(stores', PacketAt(k, b, id).value) && id == IdOf(k, PacketAt(k, b, id).value)
    {
      if id != x.transitionID {
        assert id in a.accepted && PacketAt(k, a, id) == PacketAt(k, b, id);
      }
    }
  }

  /** A packet of a source that no store has joins its workspace's store. */
  lemma {:induction false} StoresWith(k: Codec, l: Live, p: Packet)
    requires Filed(l.stores) && k.valid(p) && forall w :: w in l.stores ==> p.sourceID !in l.stores[w]
    ensures var stores := l.stores[p.workspaceID := GraphStore.Taken(k.valid, StoreOf(l, p.workspaceID), p)];
            Filed(stores) && forall q :: Stored(stores, q) <==> Stored(l.stores, q) || q == p
  {
    var before, after := StoreOf(l, p.workspaceID), GraphStore.Taken(k.valid, StoreOf(l, p.workspaceID), p);
    assert after == before[p.sourceID := p];
    hide GraphStore.Taken, StoreOf;
    assert p.workspaceID in l.stores ==> before == l.stores[p.workspaceID] by { OwnStore(l, p.workspaceID); }
    assert p.workspaceID !in l.stores ==> before == map[] by { OwnStore(l, p.workspaceID); }
    StoresPut(l.stores, p, before);
  }

  lemma {:induction false} OwnStore(l: Live, w: string)
    ensures StoreOf(l, w) == if w in l.stores then l.stores[w] else map[]
  {
  }

  lemma {:induction false} StoresPut(stores: map<string, GraphStore.Packets>, p: Packet, m: GraphStore.Packets)
    requires Filed(stores) && forall w :: w in stores ==> p.sourceID !in stores[w]
    requires m == if p.workspaceID in stores then stores[p.workspaceID] else map[]
    ensures var after := stores[p.workspaceID := m[p.sourceID := p]];
            Filed(after) && forall q :: Stored(after, q) <==> Stored(stores, q) || q == p
  {
    var after := stores[p.workspaceID := m[p.sourceID := p]];
    forall q ensures Stored(after, q) <==> Stored(stores, q) || q == p {
    }
  }

  /** A stored packet of the same source has the same transition id, which was accepted. */
  lemma {:induction false} StoredIsAccepted(k: Codec, a: Auth, l: Live, p: Packet)
    requires Tied(k, a, l.stores) && SourceTells(l, p)
    ensures forall w :: w in l.stores && p.sourceID in l.stores[w] ==> IdOf(k, p) in a.accepted
  {
    hide PacketFrom;
    forall w | w in l.stores && p.sourceID in l.stores[w] ensures IdOf(k, p) in a.accepted {
      var q := l.stores[w][p.sourceID];
      assert Stored(l.stores, q);
      assert IdOf(k, q) == IdOf(k, p);
    }
  }

  /** A transition without a packet leaves the tie as it is. */
  lemma {:induction false} TiedOther(k: Codec, a: Auth, b: Auth, stores: map<string, GraphStore.Packets>, x: Normal)
    requires Tied(k, a, stores) && Adds(a, b, x) && PacketFrom(k, x.resultData).None?
    ensures Tied(k, b, stores)
  {
    hide PacketFrom, Filed, Stored;
    forall p | Stored(stores, p) ensures IdOf(k, p) in b.accepted && PacketAt(k, b, IdOf(k, p)) == Some(p) {
      assert IdOf(k, p) in a.accepted;
    }
    forall id | id in b.accepted && PacketAt(k, b, id).Some?
      ensures Stored(stores, PacketAt(k, b, id).value) && id == IdOf(k, PacketAt(k, b, id).value)
    {
      assert id in a.accepted && PacketAt(k, a, id) == PacketAt(k, b, id);
    }
  }

  // ----- Runs -----

  /** The parties are in step, and the stores are tied to the live authority. */
  ghost predicate Holds(c: Config, k: Codec, l: Live, rs: seq<Record>, es: seq<Event>) {
    InStep(c, l.sys, rs, es) && l.sys.auth.Some? && Tied(k, l.sys.auth.value, l.stores)
  }

  lemma {:induction false} UpkeepKeepsAuth(c: Config, s: Sys, a: Step)
    requires !a.Admit? && !a.RestartGo?
    ensures Next(c, s, a).auth == s.auth
  {
    hide AppendEvent, Refresh, Loaded;
  }

  lemma {:induction false} OtherKeeps(c: Config, k: Codec, l: Live, step: Step, rs: seq<Record>, es: seq<Event>)
    returns (rs': seq<Record>, es': seq<Event>)
    requires c.configured && Good(c.p.rust) && Holds(c, k, l, rs, es) && Allowed(c, k, l, Other(step))
    ensures Holds(c, k, OpStep(c, k, l, Other(step)), rs', es')
  {
    hide InStep, Tied, BenignStep, ProposeStep, PacketFrom, Adds;
    rs', es' := NextInStep(c, l.sys, step, rs, es);
    if step.Admit? {
      var a, asked := l.sys.auth.value, Entered(step.entrance, step.proposal);
      ProposeAdds(c, a, l.sys.log, l.sys.rust.node, asked, step.now, Reaching(l.sys.rust, step.h));
      var x := Safety.Proposed(c, a, asked);
      if x.Some? {
        ProposedIsNew(c, a, asked);
        var b := Next(c, l.sys, step).auth.value;
        if b != a {
          TiedOther(k, a, b, l.stores, x.value);
        }
      }
    } else {
      hide Next;
      UpkeepKeepsAuth(c, l.sys, step);
    }
  }

  /** The system under an ingest is the system under the proposal it makes. */
  lemma {:induction false} IngestIsAdmit(c: Config, k: Codec, l: Live, p: Packet, now: string, h: Hazards)
    requires l.sys.auth.Some? && k.valid(p)
    ensures OpStep(c, k, l, Ingest(p, now, h)).sys ==
            Next(c, l.sys, Admit(Propose, IngestProposal(k, l.sys.auth.value, p), now, h))
  {
    hide ProposeStep, IngestProposal;
  }

  lemma {:induction false} IngestKeeps(c: Config, k: Codec, l: Live, p: Packet, now: string, h: Hazards, rs: seq<Record>, es: seq<Event>)
    returns (rs': seq<Record>, es': seq<Event>)
    requires c.configured && Good(c.p.rust) && GoodCodec(k) && Holds(c, k, l, rs, es) && Allowed(c, k, l, Ingest(p, now, h))
    ensures Holds(c, k, OpStep(c, k, l, Ingest(p, now, h)), rs', es')
  {
    rs', es' := rs, es;
    if k.valid(p) {
      var a := l.sys.auth.value;
      var asked := IngestProposal(k, a, p);
      IngestFields(k, a, p);
      assert Rebuild(c.p, es) == Some(a);
      hide InStep, Tied, ProposeStep, PacketFrom, Adds, IngestProposal, IngestData, Rebuild, GoodCodec, SourceTells, StableProposal, Benign,
           GraphStore.Taken, Next;
      rs', es' := NextInStep(c, l.sys, Admit(Propose, asked, now, h), rs, es);
      IngestIsAdmit(c, k, l, p, now, h);
      var h' := Reaching(l.sys.rust, h);
      ProposeAdds(c, a, l.sys.log, l.sys.rust.node, asked, now, h');
      ServerOps.SuccessIsNew(c, es, a, l.sys.log, l.sys.rust.node, asked, now, h');
      var (b, _, _, r) := ProposeStep(c.p, c.configured, c.policy, a, l.sys.log, l.sys.rust.node, asked, now, h');
      if r.Success? {
        ProposedIsNew(c, a, asked);
        TiedIngest(k, a, b, l, p, Safety.Proposed(c, a, asked).value);
      }
    }
  }

  lemma {:induction false} IngestFields(k: Codec, a: Auth, p: Packet)
    ensures var x := IngestProposal(k, a, p);
            x.prior == Ref(a.state) && x.transitionID == IdOf(k, p) && x.resultData == Raw.Json(IngestData(k, p))
  {
  }

  lemma {:induction false} HoldsUp(c: Config, k: Codec, l: Live, rs: seq<Record>, es: seq<Event>)
    requires Holds(c, k, l, rs, es)
    ensures l.sys.auth.Some?
  {
    hide InStep, Tied;
  }

  lemma {:induction false} OpKeeps(c: Config, k: Codec, l: Live, op: Op, rs: seq<Record>, es: seq<Event>)
    returns (rs': seq<Record>, es': seq<Event>)
    requires c.configured && Good(c.p.rust) && GoodCodec(k) && Holds(c, k, l, rs, es) && Allowed(c, k, l, op)
    ensures Holds(c, k, OpStep(c, k, l, op), rs', es')
  {
    hide OpStep, Allowed, Holds, GoodCodec;
    match op
    case Ingest(p, now, h) => rs', es' := IngestKeeps(c, k, l, p, now, h, rs, es);
    case Other(step) => rs', es' := OtherKeeps(c, k, l, step, rs, es);
  }

  lemma {:induction false} RunKeeps(c: Config, k: Codec, l: Live, ops: seq<Op>, rs: seq<Record>, es: seq<Event>)
    returns (rs': seq<Record>, es': seq<Event>)
    requires c.configured && Good(c.p.rust) && GoodCodec(k) && Holds(c, k, l, rs, es) && AllAllowed(c, k, l, ops)
    ensures Holds(c, k, RunOps(c, k, l, ops), rs', es')
    decreases |ops|
  {
    hide OpStep, Allowed, Holds, GoodCodec, InStep, Tied;
    HoldsUp(c, k, l, rs, es);
    rs', es' := rs, es;
    if ops != [] {
      rs', es' := OpKeeps(c, k, l, ops[0], rs, es);
      rs', es' := RunKeeps(c, k, OpStep(c, k, l, ops[0]), ops[1..], rs', es');
    }
  }

  ghost function StartLive(p: Params): Live {
    Live(Protocol.Start(p), map[])
  }

  lemma {:induction false} NothingTied(k: Codec, a: Auth)
    requires a.accepted == map[]
    ensures Tied(k, a, map[])
  {
  }

  lemma {:induction false} StartIsFresh(p: Params)
    ensures Protocol.Start(p).auth == Some(Fresh(p)) && Fresh(p).accepted == map[]
  {
    hide Initial;
  }

  lemma {:induction false} StartHolds(c: Config, k: Codec)
    requires Good(c.p.rust)
    ensures Holds(c, k, StartLive(c.p), [], [])
  {
    hide InStep, Tied, Protocol.Start, Fresh;
    StartInStep(c);
    StartIsFresh(c.p);
    NothingTied(k, Fresh(c.p));
  }

  // ----- What history decodes to -----

  lemma {:induction false} PacketsMembers(k: Codec, entries: seq<Checkpoints.Entry>)
    ensures forall p :: p in PacketsOf(k, entries) <==> exists i :: 0 <= i < |entries| && PacketIn(k, entries[i]) == Some(p)
    decreases |entries|
  {
    hide PacketIn;
    if entries != [] {
      var m := |entries| - 1;
      var before := entries[..m];
      PacketsMembers(k, before);
      forall p ensures p in PacketsOf(k, entries) <==> exists i :: 0 <= i < |entries| && PacketIn(k, entries[i]) == Some(p) {
        if p in PacketsOf(k, before) {
          var i :| 0 <= i < |before| && PacketIn(k, before[i]) == Some(p);
          assert entries[i] == before[i];
        }
        if i :| 0 <= i < |entries| && PacketIn(k, entries[i]) == Some(p) {
          assert i < m ==> before[i] == entries[i];
        }
      }
    }
  }

  /** Entries with packets of different sources give packets of different sources. */
  lemma {:induction false} PacketsDistinct(k: Codec, entries: seq<Checkpoints.Entry>)
    requires forall i, j :: 0 <= i < j < |entries| && PacketIn(k, entries[i]).Some? && PacketIn(k, entries[j]).Some? ==>
               PacketIn(k, entries[i]).value.sourceID != PacketIn(k, entries[j]).value.sourceID
    ensures GraphTheory.DistinctSources(PacketsOf(k, entries))
    decreases |entries|
  {
    hide PacketIn;
    if entries != [] {
      var m := |entries| - 1;
      var before := entries[..m];
      assert forall i :: 0 <= i < m ==> before[i] == entries[i];
      PacketsDistinct(k, before);
      PacketsMembers(k, before);
      if PacketIn(k, entries[m]).Some? {
        var ps := PacketsOf(k, before);
        forall i | 0 <= i < |ps| ensures ps[i].sourceID != PacketIn(k, entries[m]).value.sourceID {
          assert ps[i] in ps;
          var j :| 0 <= j < |before| && PacketIn(k, before[j]) == Some(ps[i]);
          assert before[j] == entries[j];
        }
      }
    }
  }

  /** The i-th entry of the accepted slice carries what its transition carries. */
  lemma {:induction false} SlicePacket(k: Codec, a: Auth, i: nat)
    requires i < |AcceptedSlice(a)|
    ensures var id := SortedKeys(a.accepted.Keys)[i];
            |AcceptedSlice(a)| == |SortedKeys(a.accepted.Keys)| && id in a.accepted && PacketIn(k, AcceptedSlice(a)[i]) == PacketAt(k, a, id)
  {
    hide SortedKeys, PacketFrom;
    var id := SortedKeys(a.accepted.Keys)[i];
    assert id in SortedKeys(a.accepted.Keys);
  }

  /** The packets of the accepted transitions are the stored ones, each once. */
  lemma {:induction false} HistoryIsStored(k: Codec, a: Auth, stores: map<string, GraphStore.Packets>)
    requires Tied(k, a, stores)
    ensures var history := PacketsOf(k, AcceptedSlice(a));
            GraphTheory.DistinctSources(history) && forall p :: p in history <==> Stored(stores, p)
  {
    hide SortedKeys, PacketFrom, PacketIn, AcceptedSlice, PacketAt, Less;
    var entries, ids := AcceptedSlice(a), SortedKeys(a.accepted.Keys);
    PacketsMembers(k, entries);
    assert |entries| == |ids| by { SliceLength(a); }
    forall i: nat, j: nat | i < j < |entries| && PacketIn(k, entries[i]).Some? && PacketIn(k, entries[j]).Some?
      ensures PacketIn(k, entries[i]).value.sourceID != PacketIn(k, entries[j]).value.sourceID
    {
      SlicePacket(k, a, i);
      SlicePacket(k, a, j);
      SameSourceSameId(k, a, stores, ids[i], ids[j]);
      if ids[i] == ids[j] { IncreasingDistinct(ids, i, j); }
    }
    PacketsDistinct(k, entries);
    forall p ensures p in PacketsOf(k, entries) <==> Stored(stores, p) {
      if p in PacketsOf(k, entries) {
        var i :| 0 <= i < |entries| && PacketIn(k, entries[i]) == Some(p);
        SlicePacket(k, a, i);
      }
      if Stored(stores, p) {
        assert IdOf(k, p) in ids;
        var i :| 0 <= i < |ids| && ids[i] == IdOf(k, p);
        SlicePacket(k, a, i);
      }
    }
  }

  lemma {:induction false} SliceLength(a: Auth)
    ensures |AcceptedSlice(a)| == |SortedKeys(a.accepted.Keys)|
  {
    hide SortedKeys;
  }

  lemma {:induction false} SameSourceSameId(k: Codec, a: Auth, stores: map<string, GraphStore.Packets>, i: string, j: string)
    requires Tied(k, a, stores) && i in a.accepted && j in a.accepted
    requires PacketAt(k, a, i).Some? && PacketAt(k, a, j).Some?
    ensures PacketAt(k, a, i).value.sourceID == PacketAt(k, a, j).value.sourceID ==> i == j
  {
    hide PacketFrom, PacketAt;
  }

  /** No other workspace has packets. */
  ghost predicate OnlyStore(l: Live, w: string) {
    forall v :: v in l.stores && v != w ==> l.stores[v] == map[]
  }

  lemma {:induction false} OnlyStoreExactly(k: Codec, a: Auth, l: Live, w: string)
    requires Tied(k, a, l.stores)
    ensures OnlyStore(l, w) <==> forall p :: Stored(l.stores, p) <==> p in GraphStore.Listed(StoreOf(l, w))
    ensures GraphStore.Keyed(StoreOf(l, w))
  {
    hide PacketFrom, GraphStore.Listed;
    GraphStore.ListedDistinct(StoreOf(l, w));
    if forall p :: Stored(l.stores, p) <==> p in GraphStore.Listed(StoreOf(l, w)) {
      forall v, s | v in l.stores && s in l.stores[v] ensures v == w {
        var q := l.stores[v][s];
        assert Stored(l.stores, q) && q in GraphStore.Listed(StoreOf(l, w));
      }
      forall v | v in l.stores && v != w ensures l.stores[v] == map[] {
        NoKeys(l.stores[v]);
      }
    }
  }

  lemma {:induction false} NoKeys(m: GraphStore.Packets)
    requires forall s :: s !in m
    ensures m == map[]
  {
  }

  /** With the same packets, the rebuilt graph is the live one. */
  lemma {:induction false} SamePacketsSameGraph(ids: Ids, history: seq<Packet>, m: GraphStore.Packets)
    requires GraphTheory.DistinctSources(history) && GraphStore.Keyed(m)
    requires forall p :: p in history <==> p in GraphStore.Listed(m)
    ensures BuildGraph(ids, SortPackets(history)) == BuildGraph(ids, GraphStore.Listed(m))
  {
    hide BuildGraph, SortPackets, GraphTheory.DistinctSources, GraphTheory.Rising, GraphStore.Listed;
    GraphTheory.SortRising(history);
    GraphStore.RisingDistinct(SortPackets(history));
    GraphStore.ListedDistinct(m);
    GraphTheory.BuildIgnoresOrder(ids, SortPackets(history), GraphStore.Listed(m));
  }

  /**
   * Live graphs against rebuilt ones, over every such run: a restart gives the live authority;
   * the packets its accepted transitions decode to are the stored ones of all workspaces, each
   * once; they are those of one workspace's store exactly if no other has any, and then
   * rebuilding from history gives that workspace's live graph.
   */
  lemma {:induction false} LiveGraphIsRebuilt(c: Config, k: Codec, ids: Ids, ops: seq<Op>, w: string)
    requires c.configured && Good(c.p.rust) && GoodCodec(k) && AllAllowed(c, k, StartLive(c.p), ops)
    ensures var l := RunOps(c, k, StartLive(c.p), ops);
            l.sys.auth.Some? && Restarted(c, l.sys, true).auth == l.sys.auth &&
            var history := PacketsOf(k, AcceptedSlice(l.sys.auth.value));
            && GraphTheory.DistinctSources(history) && (forall p :: p in history <==> Stored(l.stores, p))
            && (OnlyStore(l, w) <==> forall p :: p in history <==> p in GraphStore.Listed(StoreOf(l, w)))
            && (OnlyStore(l, w) ==> BuildGraph(ids, SortPackets(history)) == BuildGraph(ids, GraphStore.Listed(StoreOf(l, w))))
  {
    hide InStep, Tied, RunOps, AllAllowed, StartLive, Restarted, GoodCodec, AcceptedSlice, PacketsOf, BuildGraph, SortPackets, OnlyStore,
         GraphStore.Listed, StoreOf, GraphTheory.DistinctSources, Stored, Rebuild;
    StartHolds(c, k);
    var rs, es := RunKeeps(c, k, StartLive(c.p), ops, [], []);
    var l := RunOps(c, k, StartLive(c.p), ops);
    RestartRecovers(c, l.sys, rs, es);
    HistoryIsStored(k, l.sys.auth.value, l.stores);
    OnlyStoreExactly(k, l.sys.auth.value, l, w);
    if OnlyStore(l, w) {
      SamePacketsSameGraph(ids, PacketsOf(k, AcceptedSlice(l.sys.auth.value)), StoreOf(l, w));
    }
  }

  // ----- Two workspaces -----

  lemma {:induction false} NameNotBlank(rest: string)
    ensures !Blank("proposal-" + rest) && !Blank("request-" + rest)
  {
    assert ("proposal-" + rest)[0] == 'p' && ("request-" + rest)[0] == 'r';
  }

  /** An ingest with nothing in its way gets as far as its append. */
  lemma {:induction false} IngestIsProposed(c: Config, k: Codec, a: Auth, p: Packet)
    requires ReplayGaps.Permissive(c) && a.state.id == ReplayGaps.STATE_ID && a.state.hash == HashProjection(c.p, a.state)
    requires IdOf(k, p) !in a.accepted && !Blank(IdOf(k, p)) && !Blank(p.workspaceID) && !Blank(p.sourceID)
    ensures Safety.Proposed(c, a, IngestProposal(k, a, p)).Some?
  {
    hide HashProjection, Clone, IngestData, IsSha256, Blank, IdOf, Short;
    NameNotBlank(Short(IdOf(k, p)));
    ReplayGaps.HashLooksRight(c, a.state);
    ReplayGaps.HashNotBlank(a.state.hash);
    ReplayGaps.StateIDNotBlank();
    assert "upsert"[0] == 'u';
  }

  /** It succeeds, and its packet is in its workspace's store. */
  lemma {:induction false} IngestSucceeds(c: Config, k: Codec, l: Live, p: Packet, rs: seq<Record>, es: seq<Event>)
    returns (r: Record, ev: Event)
    requires ReplayGaps.Permissive(c) && InStep(c, l.sys, rs, es) && l.sys.auth.Some? && k.valid(p)
    requires LostReplies.Unbound(rs, IdOf(k, p)) && !Blank(IdOf(k, p)) && !Blank(p.workspaceID) && !Blank(p.sourceID)
    ensures var t := OpStep(c, k, l, Ingest(p, "", Smooth));
            && t.stores == l.stores[p.workspaceID := GraphStore.Taken(k.valid, StoreOf(l, p.workspaceID), p)]
            && InStep(c, t.sys, rs + [r], es + [ev]) && t.sys.auth.Some? && EvidenceId(r.evidence) == Some(IdOf(k, p))
  {
    var a, n := l.sys.auth.value, l.sys.rust.node;
    hide Rebuild, Readable, Aligned, EvidenceId, ProposeStep, Safety.Proposed, IngestProposal, HashProjection, Blank, LostReplies.Unbound, IdOf,
         ReplayGaps.Permissive, GraphStore.Taken, StoreOf;
    ReplayGaps.RebuiltKeepsID(c.p, es);
    ReplayGaps.RebuiltSealed(c.p, es);
    ReplayGaps.ReadableReads(c.p, n, rs, es);
    ReplayGaps.AcceptedIsBound(c.p, rs, es, IdOf(k, p));
    IngestIsProposed(c, k, a, p);
    var asked := IngestProposal(k, a, p);
    ProposedIsNew(c, a, asked);
    IngestFields(k, a, p);
    r, ev := ReplayGaps.SmoothAdmits(c, a, Safety.Proposed(c, a, asked).value, l.sys.log, n, asked, "", rs, es);
  }

  /**
   * Two workspaces with a packet each: the packets that history decodes to are not those of the
   * first workspace's store, so a rebuild does not give its live graph's packets.
   */
  lemma {:induction false} TwoWorkspaces(c: Config, k: Codec, p: Packet, q: Packet)
    requires ReplayGaps.Permissive(c) && GoodCodec(k) && k.valid(p) && k.valid(q)
    requires p.workspaceID != q.workspaceID && IdOf(k, p) != IdOf(k, q)
    requires !Blank(IdOf(k, p)) && !Blank(p.workspaceID) && !Blank(p.sourceID)
    requires !Blank(IdOf(k, q)) && !Blank(q.workspaceID) && !Blank(q.sourceID)
    ensures var s := OpStep(c, k, StartLive(c.p), Ingest(p, "", Smooth));
            s.sys.auth.Some? &&
            var l := OpStep(c, k, s, Ingest(q, "", Smooth));
            Stored(l.stores, p) && Stored(l.stores, q) && !OnlyStore(l, p.workspaceID)
  {
    hide InStep, OpStep, ReplayGaps.Permissive, GoodCodec, IdOf, Blank, EvidenceId, Protocol.Start, Fresh, LostReplies.Unbound, GraphStore.Taken,
         Stored, OnlyStore;
    ReplayGaps.PermissiveIsGood(c);
    StartInStep(c);
    StartIsFresh(c.p);
    BlankIsEmpty(IdOf(k, p));
    BlankIsEmpty(IdOf(k, q));
    var r, ev := IngestSucceeds(c, k, StartLive(c.p), p, [], []);
    ReplayGaps.StillUnbound([], r, IdOf(k, p), IdOf(k, q));
    var s := OpStep(c, k, StartLive(c.p), Ingest(p, "", Smooth));
    var _, _ := IngestSucceeds(c, k, s, q, [] + [r], [] + [ev]);
    BothStored(k, p, q, s, OpStep(c, k, s, Ingest(q, "", Smooth)));
  }

  lemma {:induction false} BothStored(k: Codec, p: Packet, q: Packet, s: Live, l: Live)
    requires k.valid(p) && k.valid(q) && p.workspaceID != q.workspaceID
    requires s.stores == map[][p.workspaceID := GraphStore.Taken(k.valid, map[], p)]
    requires l.stores == s.stores[q.workspaceID := GraphStore.Taken(k.valid, StoreOf(s, q.workspaceID), q)]
    ensures Stored(l.stores, p) && Stored(l.stores, q) && !OnlyStore(l, p.workspaceID)
  {
    assert q.sourceID in l.stores[q.workspaceID];
  }

  lemma {:induction false} BlankIsEmpty(id: string)
    requires !Blank(id)
    ensures LostReplies.Unbound([], id)
  {
  }

  /** What an ingest under a new id leaves held, if anything: an upsert of the packet's source in its workspace, from which the packet reads back. */
  lemma {:induction false} IngestSays(c: Config, k: Codec, l: Live, p: Packet, now: string, h: Hazards)
    requires GoodCodec(k) && l.sys.auth.Some? && IdOf(k, p) !in l.sys.auth.value.accepted
    ensures var a := OpStep(c, k, l, Ingest(p, now, h)).sys.auth;
            var id := k.transitionID(p.workspaceID, p.sourceID, p.contentHash);
            a.Some? &&
            (id in a.value.accepted ==>
               var x := a.value.accepted[id].accepted.proposal;
               && k.valid(p) && x.transitionID == id && x.operation == "upsert" && x.entity == p.workspaceID && x.node == p.sourceID
               && x.prior == Ref(l.sys.auth.value.state) && PacketFrom(k, x.resultData) == Some(p))
  {
    hide ProposeStep, Normalize, Request;
    var a, y, reached := l.sys.auth.value, IngestProposal(k, l.sys.auth.value, p), Reaching(l.sys.rust, h);
    ProposalAnswers.NormalExactly(y);
    ProposalAnswers.RefusalKeeps(c.p, c.configured, c.policy, a, l.sys.log, l.sys.rust.node, y, now, reached);
    if k.valid(p) && Normalize(y).Success? {
      ProposalAnswers.SuccessExactly(c.p, c.configured, c.policy, a, l.sys.log, l.sys.rust.node, y, now, reached);
      ProposalAnswers.NewRecordExactly(c.p, c.configured, c.policy, a, l.sys.log, l.sys.rust.node, y, now, reached);
      var n := Normalize(y).value;
      assert AsProposal(n).operation == y.operation && AsProposal(n).transitionID == y.transitionID && AsProposal(n).entity == y.entity
          && AsProposal(n).node == y.node && n.resultData == IngestData(k, p);
      PacketStays(k, p);
    } else if k.valid(p) {
      ProposalAnswers.MalformedAnswer(c.p, c.configured, c.policy, a, l.sys.log, l.sys.rust.node, y, now, reached);
    }
  }

  lemma {:induction false} PacketStays(k: Codec, p: Packet)
    requires GoodCodec(k) && k.valid(p)
    ensures PacketFrom(k, IngestData(k, p)) == Some(p)
  {
    assert |"packet"| == 6 && |"legacy_action"| == 13 && |"legacy_details"| == 14;
  }
}
