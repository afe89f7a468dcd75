/** The recorder as it runs: an object over its ledger file, checkpoint directory and accepted state. */
module Sidecar {
  import opened Wrappers
  import opened Json
  import opened Bytes
  import opened Ledger
  import opened RecordCodec

  class Recorder {
    const w: World
    var ledger: File
    var checkpoints: seq<Entry>
    var accepted: State

    /** The object's state as a value. */
    function Model(): Node
      reads this
    {
      Node(Disk(ledger, checkpoints), accepted)
    }

    /** Startup over what is on disk: accepted is the verified state; the caller has checked that it opens. */
    constructor (w: World, ledger: File, checkpoints: seq<Entry>)
      requires Open(w, Disk(ledger, checkpoints)).Success?
      ensures this.w == w
      ensures Model() == Node(Disk(ledger, checkpoints), Open(w, Disk(ledger, checkpoints)).value)
    {
      this.w := w;
      this.ledger := ledger;
      this.checkpoints := checkpoints;
      this.accepted := Open(w, Disk(ledger, checkpoints)).value;
    }

    /** read_records: splits the file on newline bytes and decodes line by line. */
    method ReadRecords() returns (r: Result<seq<Record>, Class>)
      ensures r == RecordsOf(w, ledger)
    {
      match ledger
      case Absent => return Success([]);
      case Unreadable => return Failure(Io);
      case Present(bytes) =>
        if bytes != [] && bytes[|bytes| - 1] != NEWLINE {
          return Failure(TruncatedTail);
        }
        var lines := SplitBytes(bytes);
        assert lines[0..] == lines;
        AfterEnds([], DecodeLines(w, lines));
        var records := [];
        var index := 0;
        while index < |lines|
          invariant 0 <= index <= |lines|
          invariant DecodeLines(w, lines) == After(records, DecodeLines(w, lines[index..]))
        {
          DecodeStep(w, lines, index, records);
          if lines[index] == [] {
            if index == |lines| - 1 {
              index := index + 1;
              continue;
            }
            return Failure(MalformedRecord);
          }
          var record := w.decode(lines[index]);
          if record.None? {
            return Failure(MalformedRecord);
          }
          records := records + [record.value];
          index := index + 1;
        }
        AfterEnds(records, Success([]));
        return Success(records);
    }

    /** replay_from: one pass with a running state. */
    method ReplayRecords(start: State, records: seq<Record>) returns (r: Result<State, Class>)
      ensures r == ReplayFrom(w, start, records)
    {
      var state := start;
      var index := 0;
      while index < |records|
        invariant 0 <= index <= |records|
        invariant ReplayFrom(w, state, records[index..]) == ReplayFrom(w, start, records)
      {
        var record := records[index];
        assert records[index..][0] == record && records[index..][1..] == records[index + 1..];
        if record.version != RECORD_VERSION {
          return Failure(MalformedRecord);
        }
        var expected := state.sequence + 1;
        if record.sequence < expected {
          return Failure(DuplicateSequence);
        }
        if record.sequence > expected {
          return Failure(SequenceGap);
        }
        if record.prevHash != state.headHash {
          return Failure(WrongPrevHash);
        }
        var computed := w.recordHash(record.sequence, record.prevHash, record.evidence);
        if record.hash != computed {
          return Failure(BadContentHash);
        }
        state := Advance(w, state, record.hash);
        index := index + 1;
      }
      return Success(state);
    }

    /** validate_checkpoints: every checkpoint file binds a prefix, and the rest replays from there. */
    method ValidateCheckpoints(records: seq<Record>) returns (bad: Option<Class>)
      ensures bad == CheckDir(w, checkpoints, records)
    {
      var index := 0;
      while index < |checkpoints|
        invariant 0 <= index <= |checkpoints|
        invariant CheckDir(w, checkpoints[index..], records) == CheckDir(w, checkpoints, records)
      {
        assert checkpoints[index..][1..] == checkpoints[index + 1..];
        match checkpoints[index].content {
          case Garbled => return Some(MalformedCheckpoint);
          case Parsed(cp) =>
            if cp.sequence > |records| {
              return Some(StaleCheckpoint);
            }
            var prefix := ReplayRecords(Origin, records[..cp.sequence]);
            if prefix.Failure? {
              return Some(prefix.error);
            }
            if cp.version != CHECKPOINT_VERSION || cp.sequence != prefix.value.sequence
               || cp.headHash != prefix.value.headHash || cp.historyHash != prefix.value.historyHash {
              return Some(StaleCheckpoint);
            }
            var rest := ReplayRecords(prefix.value, records[cp.sequence..]);
            if rest.Failure? {
              return Some(rest.error);
            }
        }
        index := index + 1;
      }
      return None;
    }

    /** open_verified_state. */
    method OpenVerified() returns (r: Result<State, Class>)
      ensures r == Open(w, Disk(ledger, checkpoints))
    {
      var records :- ReadRecords();
      var state :- ReplayRecords(Origin, records);
      var bad := ValidateCheckpoints(records);
      return if bad.Some? then Failure(bad.value) else Success(state);
    }

    /** append_evidence; fault says how the write to disk ends. */
    method AppendEvidence(evidence: Value, fault: Fault) returns (r: Result<Ack, Class>)
      modifies this`ledger, this`accepted
      ensures (Model(), r) == AppendStep(w, old(Model()), evidence, fault)
    {
      hide Open, RecordsOf, Dedup, IdOrNull, EvidenceId;
      var observed :- OpenVerified();
      if observed != accepted {
        return Failure(StaleCheckpoint);
      }
      var records :- ReadRecords();
      var known := FindExisting(records, evidence);
      if known.Some? {
        return known.value;
      }
      var sequence := accepted.sequence + 1;
      var prev := accepted.headHash;
      var hash := w.recordHash(sequence, prev, evidence);
      var record := Record(RECORD_VERSION, sequence, prev, evidence, hash);
      var line := w.encode(record) + [NEWLINE];
      var (file, written) := WriteLine(ledger, line, fault);
      ledger := file;
      if !written {
        return Failure(Io);
      }
      accepted := Advance(w, accepted, hash);
      return Success(Ack(IdOrNull(evidence), sequence, hash));
    }

    /** The loop over existing records that deduplicates by evidence id. */
    method FindExisting(records: seq<Record>, evidence: Value) returns (known: Option<Result<Ack, Class>>)
      ensures known == Dedup(records, evidence)
    {
      var id := EvidenceId(evidence);
      if id.None? {
        return None;
      }
      var i := 0;
      while i < |records|
        invariant 0 <= i <= |records|
        invariant forall j :: 0 <= j < i ==> EvidenceId(records[j].evidence) != id
      {
        var existing := records[i];
        if EvidenceId(existing.evidence) != id {
          i := i + 1;
          continue;
        }
        assert Find(records, id.value) == i;
        if SameSemantic(existing.evidence, evidence) {
          return Some(Success(Ack(IdOrNull(existing.evidence), existing.sequence, existing.hash)));
        }
        return Some(Failure(DuplicateEvidenceID));
      }
      return None;
    }

    /** create_checkpoint; fault says how the write to disk ends. */
    method CreateCheckpoint(fault: Fault) returns (bad: Option<Class>)
      modifies this`checkpoints
      ensures (Model(), bad) == CheckpointStep(w, old(Model()), fault)
    {
      var observed := OpenVerified();
      if observed.Failure? {
        return Some(observed.error);
      }
      if observed.value != accepted {
        return Some(StaleCheckpoint);
      }
      var (dir, failed) := WriteCheckpoint(w, checkpoints, CheckpointOf(accepted), fault);
      checkpoints := dir;
      return failed;
    }
  }

  /** The outcome of a decoding that had already read some records. */
  function After(records: seq<Record>, rest: Result<seq<Record>, Class>): Result<seq<Record>, Class> {
    if rest.Failure? then rest else Success(records + rest.value)
  }

  lemma {:induction false} AfterEnds(records: seq<Record>, rest: Result<seq<Record>, Class>)
    ensures records == [] ==> After(records, rest) == rest
    ensures rest == Success([]) ==> After(records, rest) == Success(records)
  {
    if rest.Success? {
      assert [] + rest.value == rest.value;
      assert records + [] == records;
    }
  }

  /** One turn of the line loop. */
  lemma {:induction false} DecodeStep(w: World, lines: seq<seq<Byte>>, index: nat, records: seq<Record>)
    requires index < |lines|
    ensures var line, rest := lines[index], DecodeLines(w, lines[index + 1..]);
            After(records, DecodeLines(w, lines[index..])) ==
            if line == [] then (if index == |lines| - 1 then After(records, rest) else Failure(MalformedRecord))
            else if w.decode(line).None? then Failure(MalformedRecord)
            else After(records + [w.decode(line).value], rest)
  {
    assert lines[index..][0] == lines[index] && lines[index..][1..] == lines[index + 1..];
    var rest := DecodeLines(w, lines[index + 1..]);
    if lines[index] != [] && w.decode(lines[index]).Some? && rest.Success? {
      var r := w.decode(lines[index]).value;
      assert records + ([r] + rest.value) == records + [r] + rest.value;
    }
    if index == |lines| - 1 {
      assert records + [] == records;
    }
  }
}
