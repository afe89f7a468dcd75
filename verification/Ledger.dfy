/**
 * The durable recorder: a file of hash-chained record lines, a directory of checkpoints
 * and the state the recorder holds in memory.  This module has the pure side: what each
 * call does to (disk, memory), including writes that stop part-way.
 */
module Ledger {
  import opened Wrappers
  import opened Json
  import opened Bytes
  import opened Decimal
  import opened RecordCodec

  /** The hash of a record's sequence, predecessor and evidence, the hash that extends a history, and the codecs of lines and checkpoints. */
  datatype World = World(
    recordHash: (nat, string, Value) -> string,
    historyHash: (string, string) -> string,
    encode: Record -> seq<Byte>,
    decode: seq<Byte> -> Option<Record>,
    encodeCheckpoint: Checkpoint -> seq<Byte>,
    decodeCheckpoint: seq<Byte> -> Option<Checkpoint>)

  predicate HexChar(c: char) {
    '0' <= c <= '9' || 'a' <= c <= 'f' || 'A' <= c <= 'F'
  }

  /** Go's isSHA256: 64 hex characters. */
  predicate IsSha256(h: string) {
    |h| == 64 && forall i :: 0 <= i < |h| ==> HexChar(h[i])
  }

  /** What is taken as given: hashes look like hashes, and a written record or checkpoint reads back from its one line. */
  ghost predicate Good(w: World) {
    && (forall n, p, e :: IsSha256(w.recordHash(n, p, e)))
    && (forall before, h :: IsSha256(w.historyHash(before, h)))
    && (forall r :: w.decode(w.encode(r)) == Some(r) && NEWLINE !in w.encode(r) && w.encode(r) != [])
    && (forall cp :: w.decodeCheckpoint(w.encodeCheckpoint(cp)) == Some(cp) && NEWLINE !in w.encodeCheckpoint(cp))
  }

  datatype Class =
    | SequenceGap | DuplicateSequence | WrongPrevHash | BadContentHash | MalformedRecord
    | MalformedCheckpoint | StaleCheckpoint | DuplicateEvidenceID | TruncatedTail | Io

  /** The accepted state: position, chain head, hash over the whole history, record count. */
  datatype State = State(sequence: nat, headHash: string, historyHash: string, count: nat)

  const Origin := State(0, GENESIS, GENESIS, 0)

  datatype Checkpoint = Checkpoint(version: nat, sequence: nat, headHash: string, historyHash: string)

  const CHECKPOINT_VERSION: nat := 1

  datatype File = Absent | Unreadable | Present(bytes: seq<Byte>)

  /** What a checkpoint file reads as. */
  datatype Content = Garbled | Parsed(cp: Checkpoint)

  datatype Entry = Entry(name: string, content: Content)

  /** The ledger file and the checkpoint files in directory order. */
  datatype Disk = Disk(ledger: File, dir: seq<Entry>)

  /** A running recorder. */
  datatype Node = Node(disk: Disk, accepted: State)

  /** How one write to disk ends: in full, not at all, or after some bytes (all of them: the sync fails). */
  datatype Fault = NoFault | OpenFails | Cut(written: nat)

  datatype Ack = Ack(id: Value, sequence: nat, hash: string)

  function Advance(w: World, s: State, recordHash: string): State {
    State(s.sequence + 1, recordHash, w.historyHash(s.historyHash, recordHash), s.count + 1)
  }

  // ----- Replay -----

  /** The check one record must pass to follow state s. */
  function CheckRecord(w: World, s: State, r: Record): Option<Class> {
    if r.version != RECORD_VERSION then Some(MalformedRecord)
    else if r.sequence < s.sequence + 1 then Some(DuplicateSequence)
    else if r.sequence > s.sequence + 1 then Some(SequenceGap)
    else if r.prevHash != s.headHash then Some(WrongPrevHash)
    else if r.hash != w.recordHash(r.sequence, r.prevHash, r.evidence) then Some(BadContentHash)
    else None
  }

  function ReplayFrom(w: World, s: State, rs: seq<Record>): Result<State, Class>
    decreases |rs|
  {
    if rs == [] then Success(s) else
      var bad := CheckRecord(w, s, rs[0]);
      if bad.Some? then Failure(bad.value) else ReplayFrom(w, Advance(w, s, rs[0].hash), rs[1..])
  }

  function Replay(w: World, rs: seq<Record>): Result<State, Class> {
    ReplayFrom(w, Origin, rs)
  }

  // ----- Reading the file -----

  /** bytes.split on the newline byte: one piece more than there are newlines. */
  function SplitBytes(b: seq<Byte>): (pieces: seq<seq<Byte>>)
    ensures pieces != []
  {
    if b == [] then [[]]
    else
      var rest := SplitBytes(b[1..]);
      if b[0] == NEWLINE then [[]] + rest else [[b[0]] + rest[0]] + rest[1..]
  }

  /** The records of the split lines; only the last line may be empty. */
  function DecodeLines(w: World, lines: seq<seq<Byte>>): Result<seq<Record>, Class> {
    if lines == [] then Success([])
    else if lines[0] == [] then (if |lines| == 1 then Success([]) else Failure(MalformedRecord))
    else
      var r := w.decode(lines[0]);
      if r.None? then Failure(MalformedRecord) else
        var rest := DecodeLines(w, lines[1..]);
        if rest.Failure? then rest else Success([r.value] + rest.value)
  }

  function RecordsOf(w: World, file: File): Result<seq<Record>, Class> {
    match file
    case Absent => Success([])
    case Unreadable => Failure(Io)
    case Present(b) =>
      if b != [] && b[|b| - 1] != NEWLINE then Failure(TruncatedTail) else DecodeLines(w, SplitBytes(b))
  }

  // ----- Checkpoints -----

  /** read_checkpoint, on the bytes of a file. */
  function ReadCheckpoint(w: World, bytes: seq<Byte>): Content {
    if bytes == [] || bytes[|bytes| - 1] != NEWLINE then Garbled else
      var cp := w.decodeCheckpoint(bytes[..|bytes| - 1]);
      if cp.None? then Garbled else Parsed(cp.value)
  }

  function CheckEntry(w: World, e: Entry, rs: seq<Record>): Option<Class> {
    match e.content
    case Garbled => Some(MalformedCheckpoint)
    case Parsed(cp) =>
      if cp.sequence > |rs| then Some(StaleCheckpoint) else
        var prefix := Replay(w, rs[..cp.sequence]);
        if prefix.Failure? then Some(prefix.error)
        else if cp.version != CHECKPOINT_VERSION || cp.sequence != prefix.value.sequence
                || cp.headHash != prefix.value.headHash || cp.historyHash != prefix.value.historyHash
        then Some(StaleCheckpoint)
        else
          var rest := ReplayFrom(w, prefix.value, rs[cp.sequence..]);
          if rest.Failure? then Some(rest.error) else None
  }

  /** The first failing checkpoint file in directory order. */
  function CheckDir(w: World, dir: seq<Entry>, rs: seq<Record>): Option<Class> {
    if dir == [] then None else
      var bad := CheckEntry(w, dir[0], rs);
      if bad.Some? then bad else CheckDir(w, dir[1..], rs)
  }

  /** open_verified_state. */
  function Open(w: World, disk: Disk): Result<State, Class> {
    var rs :- RecordsOf(w, disk.ledger);
    var s :- Replay(w, rs);
    var bad := CheckDir(w, disk.dir, rs);
    if bad.Some? then Failure(bad.value) else Success(s)
  }

  function ShortHash(h: string): string {
    if |h| < 12 then h else h[..12]
  }

  function FileName(cp: Checkpoint): string {
    "checkpoint-" + Dec(cp.sequence) + "-" + ShortHash(cp.headHash) + ".json"
  }

  function CheckpointOf(s: State): Checkpoint {
    Checkpoint(CHECKPOINT_VERSION, s.sequence, s.headHash, s.historyHash)
  }

  /** The content of the file with this name. */
  function Lookup(dir: seq<Entry>, name: string): Option<Content> {
    if dir == [] then None
    else if dir[0].name == name then Some(dir[0].content)
    else Lookup(dir[1..], name)
  }

  /** A checkpoint file of which the first n bytes were written. */
  function FilePart(w: World, cp: Checkpoint, n: nat): Entry {
    var line := w.encodeCheckpoint(cp) + [NEWLINE];
    Entry(FileName(cp), ReadCheckpoint(w, if n < |line| then line[..n] else line))
  }

  /** write_checkpoint: create a new file, or accept an existing one with the same content. */
  function WriteCheckpoint(w: World, dir: seq<Entry>, cp: Checkpoint, fault: Fault): (seq<Entry>, Option<Class>) {
    match Lookup(dir, FileName(cp))
    case Some(Garbled) => (dir, Some(MalformedCheckpoint))
    case Some(Parsed(existing)) => (dir, if existing == cp then None else Some(StaleCheckpoint))
    case None =>
      match fault
      case NoFault => (dir + [FilePart(w, cp, |w.encodeCheckpoint(cp)| + 1)], None)
      case OpenFails => (dir, Some(Io))
      case Cut(k) => (dir + [FilePart(w, cp, k)], Some(Io))
  }

  /** create_checkpoint. */
  function CheckpointStep(w: World, n: Node, fault: Fault): (Node, Option<Class>) {
    var observed := Open(w, n.disk);
    if observed.Failure? then (n, Some(observed.error))
    else if observed.value != n.accepted then (n, Some(StaleCheckpoint))
    else
      var (dir, bad) := WriteCheckpoint(w, n.disk.dir, CheckpointOf(n.accepted), fault);
      (n.(disk := n.disk.(dir := dir)), bad)
  }

  // ----- Appending -----

  function EvidenceId(v: Value): Option<string> {
    if v.Obj? && "id" in v.fields && v.fields["id"].Str? && v.fields["id"].s != "" then Some(v.fields["id"].s) else None
  }

  function IdOrNull(v: Value): Value {
    if v.Obj? && "id" in v.fields then v.fields["id"] else Null
  }

  const TRANSPORT := {"seq", "created_at", "hash", "prev_hash", "rust_ack"}

  /** Evidence without the fields Go regenerates on a retry. */
  function Normalized(v: Value): Value {
    if v.Obj? then Obj(v.fields - TRANSPORT) else v
  }

  predicate SameSemantic(a: Value, b: Value) {
    Normalized(a) == Normalized(b)
  }

  /** The position of the first record bound to this id, or the record count. */
  function Find(rs: seq<Record>, id: string): (i: nat)
    ensures i <= |rs|
    ensures i < |rs| ==> EvidenceId(rs[i].evidence) == Some(id)
    ensures forall j :: 0 <= j < i ==> EvidenceId(rs[j].evidence) != Some(id)
  {
    if rs == [] || EvidenceId(rs[0].evidence) == Some(id) then 0 else
      1 + Find(rs[1..], id)
  }

  /** What deduplication by id decides: the original acknowledgement, a conflict, or nothing. */
  function Dedup(rs: seq<Record>, evidence: Value): Option<Result<Ack, Class>> {
    var id := EvidenceId(evidence);
    if id.None? then None else
      var i := Find(rs, id.value);
      if i == |rs| then None
      else if SameSemantic(rs[i].evidence, evidence) then
        Some(Success(Ack(IdOrNull(rs[i].evidence), rs[i].sequence, rs[i].hash)))
      else Some(Failure(DuplicateEvidenceID))
  }

  function NextRecord(w: World, s: State, evidence: Value): Record {
    Record(RECORD_VERSION, s.sequence + 1, s.headHash, evidence, w.recordHash(s.sequence + 1, s.headHash, evidence))
  }

  function Line(w: World, r: Record): seq<Byte> {
    w.encode(r) + [NEWLINE]
  }

  /** The bytes on disk after an append-mode write that stopped after n bytes. */
  function Written(file: File, line: seq<Byte>, n: nat): File {
    var old_ := if file.Present? then file.bytes else [];
    Present(old_ + if n < |line| then line[..n] else line)
  }

  /** The write itself: what it leaves in the file and whether it reports success. */
  function WriteLine(file: File, line: seq<Byte>, fault: Fault): (File, bool) {
    match fault
    case NoFault => (Written(file, line, |line|), true)
    case OpenFails => (file, false)
    case Cut(n) => (Written(file, line, n), false)
  }

  /** append_evidence. */
  function AppendStep(w: World, n: Node, evidence: Value, fault: Fault): (Node, Result<Ack, Class>) {
    var observed := Open(w, n.disk);
    if observed.Failure? then (n, Failure(observed.error))
    else if observed.value != n.accepted then (n, Failure(StaleCheckpoint))
    else
      var rs := RecordsOf(w, n.disk.ledger);
      if rs.Failure? then (n, Failure(rs.error)) else
        var known := Dedup(rs.value, evidence);
        if known.Some? then (n, known.value)
        else
          var r := NextRecord(w, n.accepted, evidence);
          var (file, written) := WriteLine(n.disk.ledger, Line(w, r), fault);
          if written then
            (Node(n.disk.(ledger := file), Advance(w, n.accepted, r.hash)), Success(Ack(IdOrNull(evidence), r.sequence, r.hash)))
          else
            (n.(disk := n.disk.(ledger := file)), Failure(Io))
  }
}
