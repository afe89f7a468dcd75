/** Reading a ledger of any content: which bytes read, as which records, which history replays, and with which class each refusal is reported. */
module LedgerReading {
  import opened Wrappers
  import opened Json
  import opened Bytes
  import Decimal
  import opened RecordCodec
  import opened Ledger
  import opened LedgerTheory

  // ----- Bytes -----

  /** The bytes are these records' lines, whatever bytes the codec takes for each. */
  ghost predicate Spells(w: World, b: seq<Byte>, rs: seq<Record>)
    decreases |rs|
  {
    if rs == [] then b == [] else
      exists line, rest :: line != [] && NEWLINE !in line && b == line + [NEWLINE] + rest && w.decode(line) == Some(rs[0]) && Spells(w, rest, rs[1..])
  }

  /** Reads line by line. */
  function ReadLines(w: World, b: seq<Byte>): Result<seq<Record>, Class> {
    DecodeLines(w, SplitBytes(b))
  }

  lemma {:induction false} FirstLine(b: seq<Byte>) returns (line: seq<Byte>, rest: seq<Byte>)
    requires b != [] && b[|b| - 1] == NEWLINE
    ensures NEWLINE !in line && b == line + [NEWLINE] + rest && (rest != [] ==> rest[|rest| - 1] == NEWLINE)
  {
    if b[0] == NEWLINE {
      line, rest := [], b[1..];
    } else {
      var l, r := FirstLine(b[1..]);
      line, rest := [b[0]] + l, r;
      assert b == [b[0]] + b[1..];
    }
  }

  lemma {:induction false} SplitFirst(w: World, line: seq<Byte>, rest: seq<Byte>)
    requires NEWLINE !in line
    ensures ReadLines(w, line + [NEWLINE] + rest) ==
            if line == [] then Failure(MalformedRecord)
            else if w.decode(line).None? then Failure(MalformedRecord)
            else
              var more := ReadLines(w, rest);
              if more.Failure? then more else Success([w.decode(line).value] + more.value)
  {
    SplitLine(line, rest);
    assert ([line] + SplitBytes(rest))[1..] == SplitBytes(rest);
  }

  lemma {:induction false} ReadNothing(w: World)
    ensures ReadLines(w, []) == Success([])
  {
    assert SplitBytes([]) == [[]];
  }

  lemma {:induction false} SpelledFirst(w: World, b: seq<Byte>, rs: seq<Record>) returns (line: seq<Byte>, rest: seq<Byte>)
    requires b != [] && Spells(w, b, rs)
    ensures rs != [] && line != [] && NEWLINE !in line && b == line + [NEWLINE] + rest && w.decode(line) == Some(rs[0]) && Spells(w, rest, rs[1..])
  {
    line, rest :| line != [] && NEWLINE !in line && b == line + [NEWLINE] + rest && w.decode(line) == Some(rs[0]) && Spells(w, rest, rs[1..]);
  }

  /** A file of whole lines reads as the records it spells, and is malformed if it spells none. */
  lemma {:induction false} WholeLinesRead(w: World, b: seq<Byte>)
    requires b != [] ==> b[|b| - 1] == NEWLINE
    ensures match ReadLines(w, b) case Success(rs) => Spells(w, b, rs) case Failure(e) => e == MalformedRecord && forall rs :: !Spells(w, b, rs)
    decreases |b|
  {
    hide DecodeLines, SplitBytes;
    if b == [] {
      ReadNothing(w);
    } else {
      var line, rest := FirstLine(b);
      SplitFirst(w, line, rest);
      WholeLinesRead(w, rest);
      forall rs | Spells(w, b, rs)
        ensures rs != [] && line != [] && w.decode(line) == Some(rs[0]) && Spells(w, rest, rs[1..])
      {
        var l2, r2 := SpelledFirst(w, b, rs);
        SameFirst(line, rest, l2, r2);
      }
      var r := ReadLines(w, b);
      if r.Success? {
        assert r.value[1..] == ReadLines(w, rest).value;
      }
    }
  }

  lemma {:induction false} SameFirst(a: seq<Byte>, x: seq<Byte>, b: seq<Byte>, y: seq<Byte>)
    requires NEWLINE !in a && NEWLINE !in b && a + [NEWLINE] + x == b + [NEWLINE] + y
    ensures a == b && x == y
  {
    var s, t := a + [NEWLINE] + x, b + [NEWLINE] + y;
    assert s[0] == if a == [] then NEWLINE else a[0];
    assert t[0] == if b == [] then NEWLINE else b[0];
    if a != [] && b != [] {
      assert s[1..] == a[1..] + [NEWLINE] + x && t[1..] == b[1..] + [NEWLINE] + y;
      SameFirst(a[1..], x, b[1..], y);
      assert a == [a[0]] + a[1..] && b == [b[0]] + b[1..];
    } else {
      assert s[1..] == x && t[1..] == y;
    }
  }

  /**
   * Reading any ledger file: no file reads as no record, an unreadable one is an Io failure, one
   * that ends inside a line is TruncatedTail, and every other reads as the records it spells or is
   * a MalformedRecord if it spells none.
   */
  lemma {:induction false} ReadExactly(w: World, file: File)
    ensures var r := RecordsOf(w, file);
            match file
            case Absent => r == Success([])
            case Unreadable => r == Failure(Io)
            case Present(b) =>
              if b != [] && b[|b| - 1] != NEWLINE then r == Failure(TruncatedTail)
              else
                match r case Success(rs) => Spells(w, b, rs) case Failure(e) => e == MalformedRecord && forall rs :: !Spells(w, b, rs)
  {
    if file.Present? && (file.bytes == [] || file.bytes[|file.bytes| - 1] == NEWLINE) {
      WholeLinesRead(w, file.bytes);
    }
  }

  // ----- Replay -----

  /** The head that the next record must name. */
  function HeadOf(rs: seq<Record>): string {
    if rs == [] then GENESIS else rs[|rs| - 1].hash
  }

  /** The class of a record that does not follow these, the first that applies; None if it follows them. */
  function Misfit(w: World, rs: seq<Record>, r: Record): Option<Class> {
    if r.version != 1 then Some(MalformedRecord)
    else if r.sequence <= |rs| then Some(DuplicateSequence)
    else if r.sequence > |rs| + 1 then Some(SequenceGap)
    else if r.prevHash != HeadOf(rs) then Some(WrongPrevHash)
    else if r.hash != w.recordHash(r.sequence, r.prevHash, r.evidence) then Some(BadContentHash)
    else None
  }

  /** One record more: the history replays on exactly if the record follows it, and else is refused with its class. */
  lemma {:induction false} NextReplaysExactly(w: World, rs: seq<Record>, r: Record)
    requires Replay(w, rs).Success?
    ensures match Misfit(w, rs, r) case Some(e) => Replay(w, rs + [r]) == Failure(e) case None => Replay(w, rs + [r]).Success?
  {
    var s := Replay(w, rs).value;
    ReplayAppend(w, Origin, rs, [r]);
    ReplayCounts(w, Origin, rs);
    HeadIs(w, rs);
    assert [r][1..] == [];
  }

  lemma {:induction false} HeadIs(w: World, rs: seq<Record>)
    requires Replay(w, rs).Success?
    ensures Replay(w, rs).value.headHash == HeadOf(rs)
  {
    hide ReplayFrom;
    if rs != [] {
      LastRecord(w, rs);
    } else {
      OriginReplays(w);
    }
  }

  lemma {:induction false} OriginReplays(w: World)
    ensures Replay(w, []) == Success(Origin)
  {
  }

  /** Any history: it replays exactly if every record follows those before it, and else is refused with the class of the first that does not. */
  lemma {:induction false} ReplayExactly(w: World, rs: seq<Record>)
    ensures match Replay(w, rs)
            case Success(_) => forall k :: 0 <= k < |rs| ==> Misfit(w, rs[..k], rs[k]).None?
            case Failure(e) => exists k :: 0 <= k < |rs| && Misfit(w, rs[..k], rs[k]) == Some(e) && forall j :: 0 <= j < k ==> Misfit(w, rs[..j], rs[j]).None?
    decreases |rs|
  {
    hide ReplayFrom, Misfit;
    if rs == [] {
      OriginReplays(w);
    } else {
      var m := |rs| - 1;
      var before := rs[..m];
      ReplayExactly(w, before);
      assert rs == before + [rs[m]];
      assert forall k :: 0 <= k < m ==> before[..k] == rs[..k] && before[k] == rs[k];
      ReplayAppend(w, Origin, before, [rs[m]]);
      if Replay(w, before).Success? {
        NextReplaysExactly(w, before, rs[m]);
      } else {
        var k :| 0 <= k < m && Misfit(w, before[..k], before[k]) == Some(Replay(w, before).error)
                 && forall j :: 0 <= j < k ==> Misfit(w, before[..j], before[j]).None?;
        assert Misfit(w, rs[..k], rs[k]) == Some(Replay(w, rs).error);
      }
    }
  }

  // ----- Deduplication and checkpoints -----

  /** Evidence under a known id: the first record of that id answers if it is the same evidence, and else the id is taken. */
  lemma {:induction false} DedupExactly(rs: seq<Record>, evidence: Value, i: nat)
    requires i < |rs| && EvidenceId(evidence).Some? && EvidenceId(rs[i].evidence) == EvidenceId(evidence)
    requires forall j :: 0 <= j < i ==> EvidenceId(rs[j].evidence) != EvidenceId(evidence)
    ensures Dedup(rs, evidence) ==
            Some(if SameSemantic(rs[i].evidence, evidence) then Success(Ack(Str(EvidenceId(evidence).value), rs[i].sequence, rs[i].hash))
                 else Failure(DuplicateEvidenceID))
  {
    hide SameSemantic;
    assert Find(rs, EvidenceId(evidence).value) == i;
  }

  /** New evidence, or evidence without an id, is not deduplicated. */
  lemma {:induction false} NewExactly(rs: seq<Record>, evidence: Value)
    ensures Dedup(rs, evidence).None? <==>
            EvidenceId(evidence).None? || forall j :: 0 <= j < |rs| ==> EvidenceId(rs[j].evidence) != EvidenceId(evidence)
  {
    hide SameSemantic;
  }

  /** An id counts exactly if it is a non-empty string. */
  lemma {:induction false} EvidenceIdExactly(v: Value, id: string)
    ensures EvidenceId(v) == Some(id) <==> v.Obj? && "id" in v.fields && v.fields["id"] == Str(id) && id != ""
  {
  }

  /**
   * A checkpoint of any content against a replayable history: it passes exactly if it is of
   * version 1 and binds a prefix by sequence, head and history hash; a file that does not read is
   * malformed, any other is stale.
   */
  lemma {:induction false} EntryExactly(w: World, e: Ledger.Entry, rs: seq<Record>)
    requires Replay(w, rs).Success?
    ensures match e.content
            case Garbled => CheckEntry(w, e, rs) == Some(MalformedCheckpoint)
            case Parsed(cp) =>
              CheckEntry(w, e, rs) ==
              if cp.version == 1 && cp.sequence <= |rs| && Replay(w, rs[..cp.sequence]).Success?
                 && cp.headHash == HeadOf(rs[..cp.sequence]) && cp.historyHash == Replay(w, rs[..cp.sequence]).value.historyHash
              then None else Some(StaleCheckpoint)
  {
    hide ReplayFrom;
    if e.content.Parsed? && e.content.cp.sequence <= |rs| {
      ReplayPrefix(w, rs, e.content.cp.sequence);
      HeadIs(w, rs[..e.content.cp.sequence]);
    }
  }

  /** A directory passes exactly if every file does; otherwise the first that fails decides. */
  lemma {:induction false} DirExactly(w: World, dir: seq<Ledger.Entry>, rs: seq<Record>)
    ensures match CheckDir(w, dir, rs)
            case None => forall e :: e in dir ==> CheckEntry(w, e, rs).None?
            case Some(bad) => exists i :: 0 <= i < |dir| && CheckEntry(w, dir[i], rs) == Some(bad)
                                          && forall j :: 0 <= j < i ==> CheckEntry(w, dir[j], rs).None?
  {
    hide CheckEntry;
    if dir != [] {
      DirExactly(w, dir[1..], rs);
      assert dir == [dir[0]] + dir[1..];
      if CheckEntry(w, dir[0], rs).None? && CheckDir(w, dir[1..], rs).Some? {
        var bad := CheckDir(w, dir[1..], rs).value;
        var i :| 0 <= i < |dir| - 1 && CheckEntry(w, dir[1..][i], rs) == Some(bad) && forall j :: 0 <= j < i ==> CheckEntry(w, dir[1..][j], rs).None?;
        assert forall j :: 0 < j <= i ==> dir[j] == dir[1..][j - 1];
        assert CheckEntry(w, dir[i + 1], rs) == Some(bad);
      }
    }
  }

  // ----- Answers -----

  /**
   * What the recorder answers to evidence: it refuses when its own ledger does not open or is not
   * what it remembers; it answers known evidence as deduplication says; and it acknowledges new
   * evidence, at the next sequence under its hash, exactly if the write ends in full.
   */
  lemma {:induction false} AppendAnswer(w: World, n: Node, evidence: Value, fault: Fault)
    ensures var (n', r) := AppendStep(w, n, evidence, fault);
            var found, next := Open(w, n.disk), n.accepted.sequence + 1;
            if found.Failure? then n' == n && r == Failure(found.error)
            else if found.value != n.accepted then n' == n && r == Failure(StaleCheckpoint)
            else
              && RecordsOf(w, n.disk.ledger).Success?
              && var known := Dedup(RecordsOf(w, n.disk.ledger).value, evidence);
                 if known.Some? then n' == n && r == known.value
                 else if fault.NoFault? then
                   r == Success(Ack(if evidence.Obj? && "id" in evidence.fields then evidence.fields["id"] else Null,
                                    next, w.recordHash(next, n.accepted.headHash, evidence)))
                 else r == Failure(Io) && n'.accepted == n.accepted
  {
    hide RecordsOf, Replay, CheckDir, Dedup, Line, Written;
  }

  /** The first file of this name in a directory. */
  ghost predicate FirstNamed(dir: seq<Ledger.Entry>, i: nat, name: string) {
    i < |dir| && dir[i].name == name && forall j :: 0 <= j < i ==> dir[j].name != name
  }

  lemma {:induction false} LookupExactly(dir: seq<Ledger.Entry>, name: string)
    ensures Lookup(dir, name).None? <==> forall e :: e in dir ==> e.name != name
    ensures forall i: nat :: FirstNamed(dir, i, name) ==> Lookup(dir, name) == Some(dir[i].content)
  {
    if dir != [] {
      LookupExactly(dir[1..], name);
      assert dir == [dir[0]] + dir[1..];
      forall i: nat | FirstNamed(dir, i, name) ensures Lookup(dir, name) == Some(dir[i].content) {
        if i > 0 {
          assert forall j :: 0 < j <= i ==> dir[j] == dir[1..][j - 1];
          assert FirstNamed(dir[1..], i - 1, name);
        }
      }
    }
  }

  /** The name of the checkpoint file for a state: its sequence and the first twelve digits of its head hash. */
  function NameFor(s: State): string {
    "checkpoint-" + Decimal.Dec(s.sequence) + "-" + (if |s.headHash| < 12 then s.headHash else s.headHash[..12]) + ".json"
  }

  /**
   * What the recorder answers when asked for a checkpoint: it refuses when its own ledger does not
   * open or is not what it remembers; a file of that name is taken exactly if it has the content
   * of this state; a new one is written, successfully exactly if the write ends in full.
   */
  lemma {:induction false} CheckpointAnswer(w: World, n: Node, fault: Fault)
    ensures var (n', bad) := CheckpointStep(w, n, fault);
            var found, s, dir, name := Open(w, n.disk), n.accepted, n.disk.dir, NameFor(n.accepted);
            && n'.accepted == s && n'.disk.ledger == n.disk.ledger
            && (found.Failure? ==> n' == n && bad == Some(found.error))
            && (found.Success? && found.value != s ==> n' == n && bad == Some(StaleCheckpoint))
            && (found.Success? && found.value == s ==>
                  && (forall i: nat :: FirstNamed(dir, i, name) ==>
                        n' == n && bad == match dir[i].content
                                          case Garbled => Some(MalformedCheckpoint)
                                          case Parsed(cp) =>
                                            if cp == Checkpoint(1, s.sequence, s.headHash, s.historyHash) then None else Some(StaleCheckpoint))
                  && ((forall e :: e in dir ==> e.name != name) ==>
                        && bad == (if fault.NoFault? then None else Some(Io))
                        && (if fault.OpenFails? then n' == n
                            else |n'.disk.dir| == |dir| + 1 && n'.disk.dir[..|dir|] == dir && n'.disk.dir[|dir|].name == name)))
  {
    hide Open, ReadCheckpoint, Lookup;
    LookupExactly(n.disk.dir, NameFor(n.accepted));
    assert FileName(CheckpointOf(n.accepted)) == NameFor(n.accepted);
  }
}
