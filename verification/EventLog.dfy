/**
 * The Go event log as values: what an event looks like on the wire, how an append chains
 * and forwards it, which acknowledgements it takes, and how history is read back.
 */
module EventLog {
  import opened Wrappers
  import opened Json
  import opened Decimal
  import opened Members
  import opened RecordCodec
  import opened Ledger

  datatype RustAck = RustAck(id: string, sequence: nat, hash: string)

  datatype Event = Event(
    id: string, sequence: nat, createdAt: string, kind: string, workspaceID: string, actor: string,
    action: string, status: string, details: map<string, Value>, receiptID: string,
    hash: string, prevHash: string, rustAck: Option<RustAck>)

  const ACCEPTED_KIND := "transition.authority.accepted"

  /**
   * The parameters of the model: the recorder's world, the hash of an event's JSON, the hash
   * of a canonical text, and what a number literal becomes when it is decoded into a Go
   * float64 and written again.
   */
  datatype Params = Params(rust: World, eventHash: Event -> string, textHash: string -> string, reload: Numeral -> Numeral)

  /** The hash covers everything but the hash itself and the acknowledgement, which arrives later. */
  function HashEvent(p: Params, ev: Event): string {
    p.eventHash(ev.(hash := "", rustAck := None))
  }

  predicate RequiresAck(ev: Event) {
    ev.kind == ACCEPTED_KIND
  }

  /** ValidateRustAcknowledgement. */
  predicate ValidAck(ev: Event) {
    ev.rustAck.Some? && ev.id != "" && ev.rustAck.value.id == ev.id &&
    ev.sequence > 0 && ev.rustAck.value.sequence == ev.sequence && IsSha256(ev.rustAck.value.hash)
  }

  // ----- Events as JSON -----

  /** The members of an event, in declaration order. */
  const KEYS: seq<string> :=
    ["id", "seq", "created_at", "type", "workspace_id", "actor", "action", "status", "details", "receipt_id",
     "hash", "prev_hash", "rust_ack"]

  function AckValue(a: RustAck): Value {
    Obj(map["id" := Str(a.id), "seq" := Int(a.sequence), "hash" := Str(a.hash)])
  }

  /** A string member with omitempty. */
  function OmitEmpty(s: string): Option<Value> {
    if s == "" then None else Some(Str(s))
  }

  /** What is written for each member; None where omitempty leaves it out. */
  function Slots(ev: Event): seq<Option<Value>> {
    [Some(Str(ev.id)), Some(Int(ev.sequence)), Some(Str(ev.createdAt)), Some(Str(ev.kind)),
     OmitEmpty(ev.workspaceID), OmitEmpty(ev.actor), Some(Str(ev.action)), Some(Str(ev.status)),
     if ev.details == map[] then None else Some(Obj(ev.details)), OmitEmpty(ev.receiptID),
     Some(Str(ev.hash)), Some(Str(ev.prevHash)),
     if ev.rustAck.Some? then Some(AckValue(ev.rustAck.value)) else None]
  }

  /** json.Marshal of an event: the evidence that is posted to the recorder. */
  function Evidence(ev: Event): Value {
    Obj(Collect(KEYS, Slots(ev)))
  }

  /** Decoding into map[string]any: every number becomes a float64, so its literal may change. */
  function Reload(f: Numeral -> Numeral, v: Value): Value
    decreases v
  {
    match v
    case Num(lit) => Num(f(lit))
    case Arr(items) => Arr(seq(|items|, i requires 0 <= i < |items| => Reload(f, items[i])))
    case Obj(fields) => Obj(map k | k in fields :: Reload(f, fields[k]))
    case _ => v
  }

  function ReloadAll(f: Numeral -> Numeral, m: map<string, Value>): map<string, Value> {
    map k | k in m :: Reload(f, m[k])
  }

  function MapField(f: Numeral -> Numeral, m: map<string, Value>, key: string): Option<map<string, Value>> {
    if key !in m || m[key].Null? then Some(map[])
    else if m[key].Obj? then Some(ReloadAll(f, m[key].fields))
    else None
  }

  /** The acknowledgement inside evidence is decoded, then replaced; only its shape matters. */
  predicate AckField(m: map<string, Value>) {
    "rust_ack" !in m || m["rust_ack"].Null? ||
    (m["rust_ack"].Obj? && StrField(m["rust_ack"].fields, "id").Some? &&
     NatField(m["rust_ack"].fields, "seq").Some? && StrField(m["rust_ack"].fields, "hash").Some?)
  }

  /** json.Unmarshal of evidence into an event, without an acknowledgement yet. */
  function FromEvidence(p: Params, v: Value): Option<Event> {
    if !v.Obj? then None else
      var m := v.fields;
      var id, sequence, createdAt, kind := StrField(m, "id"), NatField(m, "seq"), StrField(m, "created_at"), StrField(m, "type");
      var workspaceID, actor, action := StrField(m, "workspace_id"), StrField(m, "actor"), StrField(m, "action");
      var status, details, receiptID := StrField(m, "status"), MapField(p.reload, m, "details"), StrField(m, "receipt_id");
      var hash, prevHash := StrField(m, "hash"), StrField(m, "prev_hash");
      if id.None? || sequence.None? || createdAt.None? || kind.None? || workspaceID.None? || actor.None?
         || action.None? || status.None? || details.None? || receiptID.None? || hash.None? || prevHash.None?
         || !AckField(m)
      then None
      else
        Some(Event(id.value, sequence.value, createdAt.value, kind.value, workspaceID.value, actor.value, action.value,
                   status.value, details.value, receiptID.value, hash.value, prevHash.value, Option.None))
  }

  // ----- Reading history -----

  /** ValidateHistory from one event on: sequence, chain, hash, and the acknowledgement where one is required. */
  predicate ValidFrom(p: Params, prev: string, expected: nat, events: seq<Event>)
    decreases |events|
  {
    events == [] ||
    (var ev := events[0];
     ev.sequence == expected && ev.prevHash == prev && HashEvent(p, ev) == ev.hash
     && (RequiresAck(ev) ==> ValidAck(ev))
     && ValidFrom(p, ev.hash, expected + 1, events[1..]))
  }

  predicate ValidHistory(p: Params, events: seq<Event>) {
    ValidFrom(p, GENESIS, 1, events)
  }

  /** One recorder record as an acknowledged event, if it follows the given position and hash. */
  function Acknowledged(p: Params, prevRust: string, position: nat, r: Record): Option<Event> {
    if r.sequence != position || r.prevHash != prevRust || !IsSha256(r.hash) then None else
      var decoded := FromEvidence(p, r.evidence);
      if decoded.None? then None else
        var ev := decoded.value.(rustAck := Some(RustAck(decoded.value.id, r.sequence, r.hash)));
        if ev.sequence != r.sequence || !ValidAck(ev) then None else Some(ev)
  }

  function AcknowledgedFrom(p: Params, prevRust: string, position: nat, rs: seq<Record>): Option<seq<Event>>
    decreases |rs|
  {
    if rs == [] then Some([]) else
      var ev := Acknowledged(p, prevRust, position, rs[0]);
      if ev.None? then None else
        var rest := AcknowledgedFrom(p, rs[0].hash, position + 1, rs[1..]);
        if rest.None? then None else Some([ev.value] + rest.value)
  }

  /** The Go history a recorder history stands for, if it is one. */
  function HistoryOf(p: Params, rs: seq<Record>): Option<seq<Event>> {
    var events := AcknowledgedFrom(p, GENESIS, 1, rs);
    if events.Some? && ValidHistory(p, events.value) then events else None
  }

  // ----- The log -----

  /** A line of the mirror file: an event, a last line that was cut, or a line that does not decode. */
  datatype MirrorLine = Whole(ev: Event) | TornLine | Unreadable

  /** The next sequence and chain head, and the mirror file. */
  datatype Log = Log(sequence: nat, lastHash: string, mirror: seq<MirrorLine>)

  const NewLog := Log(0, GENESIS, [])

  /** What the network does to one request: it never arrives, its reply is lost, or it is answered. */
  datatype Trip = NotSent | ReplyLost | Answered

  datatype MirrorWrite = Written | Refused | Torn

  /** Everything that can go wrong outside the code during one append. */
  datatype Hazards = Hazards(trip: Trip, disk: Fault, mirror: MirrorWrite)

  const Smooth := Hazards(Answered, NoFault, MirrorWrite.Written)

  /** The defaults Append fills in. */
  function Prepared(log: Log, p: Params, ev: Event, now: string): Event {
    var filled := ev.(createdAt := if ev.createdAt == "" then now else ev.createdAt,
                      kind := if ev.kind == "" then "transition" else ev.kind,
                      status := if ev.status == "" then "accepted" else ev.status,
                      sequence := log.sequence + 1, prevHash := log.lastHash);
    filled.(hash := HashEvent(p, filled))
  }

  /** forward's checks on the recorder's answer. */
  predicate AckMatches(ev: Event, a: Ack) {
    a.id == Str(ev.id) && ev.id != "" && a.sequence == ev.sequence && a.sequence > 0 && IsSha256(a.hash)
  }

  /** forward: post the event, and take the answer only if it binds this event. */
  function Forward(p: Params, n: Node, ev: Event, h: Hazards): (Node, Option<RustAck>) {
    if h.trip.NotSent? then (n, None) else
      var (n', answer) := AppendStep(p.rust, n, Evidence(ev), h.disk);
      if h.trip.ReplyLost? || answer.Failure? || !AckMatches(ev, answer.value) then (n', None)
      else (n', Some(RustAck(ev.id, answer.value.sequence, answer.value.hash)))
  }

  /** Text written to the mirror continues a cut line if there is one. */
  function AppendLine(mirror: seq<MirrorLine>, line: MirrorLine): seq<MirrorLine> {
    if mirror != [] && mirror[|mirror| - 1].TornLine? then
      mirror[..|mirror| - 1] + [if line.TornLine? then TornLine else MirrorLine.Unreadable]
    else mirror + [line]
  }

  /** The mirror line written last; on success the log advances. */
  function Mirrored(log: Log, ev: Event, m: MirrorWrite): (Log, Option<Event>) {
    match m
    case Written => (Log(ev.sequence, ev.hash, AppendLine(log.mirror, Whole(ev))), Some(ev))
    case Refused => (log, None)
    case Torn => (log.(mirror := AppendLine(log.mirror, TornLine)), None)
  }

  /** Service.Append; None is an error. */
  function AppendEvent(p: Params, configured: bool, log: Log, n: Node, ev: Event, now: string, h: Hazards): (Log, Node, Option<Event>) {
    if ev.id == "" then (log, n, None)
    else
      var e := Prepared(log, p, ev, now);
      if RequiresAck(e) && !configured then (log, n, None)
      else if !configured then
        var (log', saved) := Mirrored(log, e, h.mirror);
        (log', n, saved)
      else
        var (n', ack) := Forward(p, n, e, h);
        if ack.None? then (log, n', None)
        else
          var (log', saved) := Mirrored(log, e.(rustAck := ack), h.mirror);
          (log', n', saved)
  }

  /** RustAcknowledgedEvents: reads the recorder and rebases the log on it. */
  function Refresh(p: Params, configured: bool, log: Log, n: Node, reachable: bool): (Log, Option<seq<Event>>) {
    if !configured then (log, Some([]))
    else if !reachable || Open(p.rust, n.disk).Failure? then (log, None)
    else
      var rs := RecordsOf(p.rust, n.disk.ledger);
      if rs.Failure? then (log, None) else
        var events := HistoryOf(p, rs.value);
        if events.None? then (log, None)
        else (Log(|events.value|, LastHash(events.value), log.mirror), events)
  }

  function LastHash(events: seq<Event>): string {
    if events == [] then GENESIS else events[|events| - 1].hash
  }

  /** load: the highest sequence and the last hash among the mirror's readable lines. */
  function Loaded(configured: bool, mirror: seq<MirrorLine>): Option<Log> {
    if mirror == [] then Some(NewLog) else
      var last := mirror[|mirror| - 1];
      var before := Loaded(configured, mirror[..|mirror| - 1]);
      if before.None? then None
      else if !last.Whole? then Some(before.value.(mirror := mirror))
      else if !configured && RequiresAck(last.ev) then None
      else
        Some(Log(if last.ev.sequence > before.value.sequence then last.ev.sequence else before.value.sequence,
                 if last.ev.hash != "" then last.ev.hash else before.value.lastHash, mirror))
  }
}
