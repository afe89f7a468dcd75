/**
 * What the recorder keeps over every run: the disk always holds a replayable history plus
 * at most one cut line, history only grows, and nothing is acknowledged while disk and
 * memory differ.
 */
module LedgerTheory {
  import opened Wrappers
  import opened Json
  import opened Bytes
  import opened Decimal
  import opened RecordCodec
  import opened Ledger

  // ----- Replay is a fold -----

  lemma {:induction false} ReplayAppend(w: World, s: State, a: seq<Record>, b: seq<Record>)
    ensures ReplayFrom(w, s, a + b) ==
            var first := ReplayFrom(w, s, a);
            if first.Failure? then first else ReplayFrom(w, first.value, b)
    decreases |a|
  {
    if a == [] {
      assert a + b == b;
    } else {
      assert (a + b)[0] == a[0] && (a + b)[1..] == a[1..] + b;
      if CheckRecord(w, s, a[0]).None? {
        ReplayAppend(w, Advance(w, s, a[0].hash), a[1..], b);
      }
    }
  }

  lemma {:induction false} ReplayCounts(w: World, s: State, rs: seq<Record>)
    requires ReplayFrom(w, s, rs).Success?
    ensures var t := ReplayFrom(w, s, rs).value; t.sequence == s.sequence + |rs| && t.count == s.count + |rs|
    decreases |rs|
  {
    if rs != [] {
      ReplayCounts(w, Advance(w, s, rs[0].hash), rs[1..]);
    }
  }

  /** Every prefix of a replayable history replays, and its state is where the rest continues. */
  lemma {:induction false} ReplayPrefix(w: World, rs: seq<Record>, k: nat)
    requires Replay(w, rs).Success? && k <= |rs|
    ensures Replay(w, rs[..k]).Success?
    ensures Replay(w, rs[..k]).value.sequence == k == Replay(w, rs[..k]).value.count
    ensures ReplayFrom(w, Replay(w, rs[..k]).value, rs[k..]) == Replay(w, rs)
  {
    assert rs[..k] + rs[k..] == rs;
    ReplayAppend(w, Origin, rs[..k], rs[k..]);
    ReplayCounts(w, Origin, rs[..k]);
  }

  /** Appending the next record to a replayable history advances its state by that record. */
  lemma {:induction false} ReplayNext(w: World, rs: seq<Record>, evidence: Value)
    requires Replay(w, rs).Success?
    ensures var s := Replay(w, rs).value;
            var r := NextRecord(w, s, evidence);
            Replay(w, rs + [r]) == Success(Advance(w, s, r.hash))
  {
    var s := Replay(w, rs).value;
    var r := NextRecord(w, s, evidence);
    ReplayAppend(w, Origin, rs, [r]);
    assert CheckRecord(w, s, r).None?;
    assert ReplayFrom(w, Advance(w, s, r.hash), [r][1..]) == Success(Advance(w, s, r.hash));
  }

  /** In a replayable history the k-th record has sequence k + 1. */
  lemma {:induction false} RecordSequence(w: World, rs: seq<Record>, k: nat)
    requires Replay(w, rs).Success? && k < |rs|
    ensures rs[k].sequence == k + 1
    ensures rs[k].hash == w.recordHash(rs[k].sequence, rs[k].prevHash, rs[k].evidence)
    ensures rs[k].prevHash == if k == 0 then GENESIS else rs[k - 1].hash
  {
    ReplayPrefix(w, rs, k);
    var s := Replay(w, rs[..k]).value;
    NextChecked(w, s, rs[k..]);
    if k > 0 {
      PrefixHead(w, rs, k);
    }
  }

  lemma {:induction false} NextChecked(w: World, s: State, rs: seq<Record>)
    requires rs != [] && ReplayFrom(w, s, rs).Success?
    ensures CheckRecord(w, s, rs[0]).None?
  {
  }

  /** After k records the chain head is the k-th record's hash. */
  lemma {:induction false} PrefixHead(w: World, rs: seq<Record>, k: nat)
    requires Replay(w, rs).Success? && 0 < k <= |rs|
    ensures Replay(w, rs[..k]).Success? && Replay(w, rs[..k]).value.headHash == rs[k - 1].hash
  {
    ReplayPrefix(w, rs, k);
    ReplayPrefix(w, rs, k - 1);
    var t := Replay(w, rs[..k - 1]).value;
    var last := [rs[k - 1]];
    assert rs[..k] == rs[..k - 1] + last;
    ReplayAppend(w, Origin, rs[..k - 1], last);
    NextChecked(w, t, rs[k - 1..]);
    assert last[1..] == [];
    assert ReplayFrom(w, t, last) == ReplayFrom(w, Advance(w, t, rs[k - 1].hash), []);
  }

  // ----- The head hash binds the whole history -----

  /** The last record of a replayable history and the state before it. */
  lemma {:induction false} LastRecord(w: World, rs: seq<Record>)
    requires rs != [] && Replay(w, rs).Success?
    ensures var k := |rs| - 1;
            Replay(w, rs[..k]).Success? && Replay(w, rs[..k]).value.headHash == rs[k].prevHash
    ensures Replay(w, rs).value.headHash == rs[|rs| - 1].hash
    ensures rs[|rs| - 1].version == RECORD_VERSION && rs[|rs| - 1].sequence == |rs|
  {
    var k := |rs| - 1;
    ReplayPrefix(w, rs, k);
    NextChecked(w, Replay(w, rs[..k]).value, rs[k..]);
    assert rs[..|rs|] == rs;
    PrefixHead(w, rs, |rs|);
  }

  /** Two records whose hash inputs differ although their hashes are the same. */
  ghost predicate Collide(w: World, x: Record, y: Record) {
    && w.recordHash(x.sequence, x.prevHash, x.evidence) == w.recordHash(y.sequence, y.prevHash, y.evidence)
    && !(x.sequence == y.sequence && x.prevHash == y.prevHash && x.evidence == y.evidence)
  }

  /** One record of each history, and the two collide. */
  ghost predicate Collision(w: World, a: seq<Record>, b: seq<Record>) {
    exists i, j :: 0 <= i < |a| && 0 <= j < |b| && Collide(w, a[i], b[j])
  }

  /** Two histories with the same head hash are the same, record by record, or they exhibit a collision of the record hash. */
  lemma {:induction false} HeadBindsHistory(w: World, a: seq<Record>, b: seq<Record>)
    requires Good(w)
    requires Replay(w, a).Success? && Replay(w, b).Success?
    requires Replay(w, a).value.headHash == Replay(w, b).value.headHash
    ensures a == b || Collision(w, a, b)
    decreases |a|
  {
    hide ReplayFrom, Collide;
    HashIsNotGenesis(w, a);
    HashIsNotGenesis(w, b);
    if a != [] && b != [] {
      LastRecord(w, a);
      LastRecord(w, b);
      var m, n := |a| - 1, |b| - 1;
      RecordSequence(w, a, m);
      RecordSequence(w, b, n);
      SameHash(w, a[m], b[n]);
      assert a == a[..m] + [a[m]] && b == b[..n] + [b[n]];
      if !Collide(w, a[m], b[n]) {
        HeadBindsHistory(w, a[..m], b[..n]);
        if Collision(w, a[..m], b[..n]) {
          CollisionGrows(w, a, m, b, n);
        }
      }
    }
  }

  lemma {:induction false} CollisionGrows(w: World, a: seq<Record>, m: nat, b: seq<Record>, n: nat)
    requires m <= |a| && n <= |b| && Collision(w, a[..m], b[..n])
    ensures Collision(w, a, b)
  {
    hide Collide;
    var i, j :| 0 <= i < m && 0 <= j < n && Collide(w, a[..m][i], b[..n][j]);
    assert a[..m][i] == a[i] && b[..n][j] == b[j];
  }

  lemma {:induction false} SameHash(w: World, x: Record, y: Record)
    requires x.version == y.version && x.hash == y.hash
    requires x.hash == w.recordHash(x.sequence, x.prevHash, x.evidence)
    requires y.hash == w.recordHash(y.sequence, y.prevHash, y.evidence)
    ensures x == y || Collide(w, x, y)
  {
  }

  /** A checkpoint that is valid for two ledgers binds one prefix: both begin with the same records, or the prefixes exhibit a collision. */
  lemma {:induction false} CheckpointBindsPrefix(w: World, e: Entry, a: seq<Record>, b: seq<Record>)
    requires Good(w) && e.content.Parsed?
    requires CheckEntry(w, e, a).None? && CheckEntry(w, e, b).None?
    ensures var k := e.content.cp.sequence;
            k <= |a| && k <= |b| && (a[..k] == b[..k] || Collision(w, a[..k], b[..k]))
  {
    var k := e.content.cp.sequence;
    hide ReplayFrom, Collision;
    HeadBindsHistory(w, a[..k], b[..k]);
  }

  lemma {:induction false} HashIsNotGenesis(w: World, rs: seq<Record>)
    requires Good(w) && Replay(w, rs).Success?
    ensures Replay(w, rs).value.headHash == GENESIS <==> rs == []
  {
    assert |GENESIS| == 7;
    if rs != [] {
      LastRecord(w, rs);
      RecordSequence(w, rs, |rs| - 1);
    }
  }

  // ----- The file -----

  ghost function FileOf(w: World, rs: seq<Record>): seq<Byte> {
    if rs == [] then [] else Line(w, rs[0]) + FileOf(w, rs[1..])
  }

  lemma {:induction false} FileOfAppend(w: World, rs: seq<Record>, r: Record)
    ensures FileOf(w, rs + [r]) == FileOf(w, rs) + Line(w, r)
  {
    if rs == [] {
      assert rs + [r] == [r];
      assert FileOf(w, [r]) == Line(w, r) + FileOf(w, [r][1..]);
    } else {
      assert (rs + [r])[0] == rs[0] && (rs + [r])[1..] == rs[1..] + [r];
      FileOfAppend(w, rs[1..], r);
    }
  }

  lemma {:induction false} FileOfEnds(w: World, rs: seq<Record>)
    ensures rs != [] ==> FileOf(w, rs) != [] && FileOf(w, rs)[|FileOf(w, rs)| - 1] == NEWLINE
    decreases |rs|
  {
    if rs != [] {
      FileOfEnds(w, rs[1..]);
    }
  }

  lemma {:induction false} SplitLine(line: seq<Byte>, rest: seq<Byte>)
    requires NEWLINE !in line
    ensures SplitBytes(line + [NEWLINE] + rest) == [line] + SplitBytes(rest)
  {
    var b := line + [NEWLINE] + rest;
    if line == [] {
      assert b[1..] == rest;
    } else {
      assert b[0] == line[0] && b[1..] == line[1..] + [NEWLINE] + rest;
      SplitLine(line[1..], rest);
      assert line == [line[0]] + line[1..];
    }
  }

  /** A file of complete lines reads back as exactly its records. */
  lemma {:induction false} FileRoundTrip(w: World, rs: seq<Record>)
    requires Good(w)
    ensures DecodeLines(w, SplitBytes(FileOf(w, rs))) == Success(rs)
    decreases |rs|
  {
    if rs != [] {
      var line, rest := w.encode(rs[0]), FileOf(w, rs[1..]);
      SplitLine(line, rest);
      assert FileOf(w, rs) == line + [NEWLINE] + rest;
      FileRoundTrip(w, rs[1..]);
      assert ([line] + SplitBytes(rest))[1..] == SplitBytes(rest);
      assert rs == [rs[0]] + rs[1..];
    }
  }

  /** The file holds these records followed by part of one line. */
  ghost predicate Stored(w: World, file: File, rs: seq<Record>, tail: seq<Byte>) {
    NEWLINE !in tail &&
    (file == Present(FileOf(w, rs) + tail) || (file.Absent? && rs == [] && tail == []))
  }

  /** What reading gives back: all records, or a refusal if the last line is cut. */
  lemma {:induction false} ReadStored(w: World, file: File, rs: seq<Record>, tail: seq<Byte>)
    requires Good(w) && Stored(w, file, rs, tail)
    ensures RecordsOf(w, file) == if tail == [] then Success(rs) else Failure(TruncatedTail)
  {
    if file.Present? {
      var b := FileOf(w, rs) + tail;
      if tail == [] {
        assert b == FileOf(w, rs);
        FileRoundTrip(w, rs);
        FileOfEnds(w, rs);
      } else {
        assert b[|b| - 1] == tail[|tail| - 1];
      }
    }
  }

  /** A write cut after n bytes leaves the old records with part of a line, or the old records and the new one. */
  lemma {:induction false} CutWrite(w: World, file: File, rs: seq<Record>, r: Record, n: nat)
    requires Good(w) && Stored(w, file, rs, [])
    ensures n < |Line(w, r)| ==> Stored(w, Written(file, Line(w, r), n), rs, Line(w, r)[..n])
    ensures n >= |Line(w, r)| ==> Stored(w, Written(file, Line(w, r), n), rs + [r], [])
  {
    var line := Line(w, r);
    var old_ := if file.Present? then file.bytes else [];
    assert old_ == FileOf(w, rs);
    if n < |line| {
      assert line[..n] == w.encode(r)[..n];
    } else {
      FileOfAppend(w, rs, r);
      assert FileOf(w, rs + [r]) + [] == FileOf(w, rs + [r]);
    }
  }

  /**
   * Crash recovery at byte level: a crash may cut the append of r to the file of rs after any
   * number of bytes; reopening then reads the old records if nothing was written, the old
   * records and r if all of it was, and refuses with TruncatedTail in every other case.
   */
  lemma {:induction false} CrashRecovery(w: World, file: File, rs: seq<Record>, r: Record, n: nat)
    requires Good(w) && Stored(w, file, rs, [])
    ensures RecordsOf(w, Written(file, Line(w, r), n)) ==
            if n == 0 then Success(rs)
            else if n < |Line(w, r)| then Failure(TruncatedTail)
            else Success(rs + [r])
  {
    var line := Line(w, r);
    CutWrite(w, file, rs, r, n);
    if n < |line| {
      ReadStored(w, Written(file, line, n), rs, line[..n]);
    } else {
      ReadStored(w, Written(file, line, n), rs + [r], []);
    }
  }

  // ----- Checkpoints -----

  /** The entry is half-written, or binds a prefix of the history under its own name. */
  ghost predicate Bound(w: World, e: Entry, rs: seq<Record>) {
    e.content.Parsed? ==>
      var cp := e.content.cp;
      cp.sequence <= |rs| && Replay(w, rs[..cp.sequence]).Success? &&
      cp == CheckpointOf(Replay(w, rs[..cp.sequence]).value) && e.name == FileName(cp)
  }

  ghost predicate AllBound(w: World, dir: seq<Entry>, rs: seq<Record>) {
    forall i :: 0 <= i < |dir| ==> Bound(w, dir[i], rs)
  }

  ghost predicate Intact(dir: seq<Entry>) {
    forall i :: 0 <= i < |dir| ==> dir[i].content.Parsed?
  }

  /** A checkpoint that binds a prefix still passes validation: the suffix replay from it ends where full replay ends. */
  lemma {:induction false} BoundEntryPasses(w: World, e: Entry, rs: seq<Record>)
    requires Replay(w, rs).Success? && Bound(w, e, rs)
    ensures CheckEntry(w, e, rs) == if e.content.Garbled? then Some(MalformedCheckpoint) else None
  {
    if e.content.Parsed? {
      ReplayPrefix(w, rs, e.content.cp.sequence);
    }
  }

  lemma {:induction false} BoundDirPasses(w: World, dir: seq<Entry>, rs: seq<Record>)
    requires Replay(w, rs).Success? && AllBound(w, dir, rs)
    ensures CheckDir(w, dir, rs) == if Intact(dir) then None else Some(MalformedCheckpoint)
    decreases |dir|
  {
    if dir != [] {
      BoundEntryPasses(w, dir[0], rs);
      assert forall i :: 0 <= i < |dir[1..]| ==> dir[1..][i] == dir[i + 1];
      BoundDirPasses(w, dir[1..], rs);
      assert Intact(dir) <==> dir[0].content.Parsed? && Intact(dir[1..]);
    }
  }

  /** Checkpoints stay bound when the history grows. */
  lemma {:induction false} BoundGrows(w: World, dir: seq<Entry>, rs: seq<Record>, more: seq<Record>)
    requires AllBound(w, dir, rs)
    ensures AllBound(w, dir, rs + more)
  {
    forall i | 0 <= i < |dir| ensures Bound(w, dir[i], rs + more) {
      if dir[i].content.Parsed? {
        var k := dir[i].content.cp.sequence;
        assert Bound(w, dir[i], rs);
        assert (rs + more)[..k] == rs[..k];
      }
    }
  }

  /** What a valid checkpoint means: replaying only the records after it ends in the state of full replay. */
  lemma {:induction false} SuffixReplay(w: World, cp: Checkpoint, rs: seq<Record>, s: State)
    requires Replay(w, rs).Success? && cp.sequence <= |rs|
    requires Replay(w, rs[..cp.sequence]) == Success(s) && cp == CheckpointOf(s)
    ensures ReplayFrom(w, State(cp.sequence, cp.headHash, cp.historyHash, cp.sequence), rs[cp.sequence..]) == Replay(w, rs)
  {
    ReplayPrefix(w, rs, cp.sequence);
  }

  // ----- File names -----

  lemma {:induction false} DashFree(s: string, t: string, u: string, v: string)
    requires '-' !in s && '-' !in t && s + "-" + u == t + "-" + v
    ensures s == t
  {
    var x, y := s + "-" + u, t + "-" + v;
    assert x[0] == if s == [] then '-' else s[0];
    assert y[0] == if t == [] then '-' else t[0];
    if s != [] && t != [] {
      assert s[0] == x[0] == y[0] == t[0];
      assert x[1..] == s[1..] + "-" + u && y[1..] == t[1..] + "-" + v;
      DashFree(s[1..], t[1..], u, v);
      assert s == [s[0]] + s[1..] && t == [t[0]] + t[1..];
    }
  }

  /** A checkpoint's file name determines its sequence. */
  lemma {:induction false} NameDeterminesSequence(a: Checkpoint, b: Checkpoint)
    requires FileName(a) == FileName(b)
    ensures a.sequence == b.sequence
  {
    DecRoundTrip(a.sequence);
    DecRoundTrip(b.sequence);
    hide Dec, Undec, ShortHash;
    var p := "checkpoint-";
    var u, v := ShortHash(a.headHash) + ".json", ShortHash(b.headHash) + ".json";
    assert FileName(a) == p + (Dec(a.sequence) + "-" + u);
    assert FileName(b) == p + (Dec(b.sequence) + "-" + v);
    assert FileName(a)[|p|..] == Dec(a.sequence) + "-" + u;
    assert FileName(b)[|p|..] == Dec(b.sequence) + "-" + v;
    DashFree(Dec(a.sequence), Dec(b.sequence), u, v);
    DecInjective(a.sequence, b.sequence);
  }

  lemma {:induction false} LookupFinds(dir: seq<Entry>, name: string)
    ensures match Lookup(dir, name)
            case None => forall i :: 0 <= i < |dir| ==> dir[i].name != name
            case Some(c) => exists i :: 0 <= i < |dir| && dir[i].name == name && dir[i].content == c
    decreases |dir|
  {
    if dir != [] && dir[0].name != name {
      LookupFinds(dir[1..], name);
      if Lookup(dir[1..], name).Some? {
        var i :| 0 <= i < |dir[1..]| && dir[1..][i].name == name && dir[1..][i].content == Lookup(dir[1..], name).value;
        assert dir[i + 1] == dir[1..][i];
      } else {
        forall i | 0 <= i < |dir| ensures dir[i].name != name {
          if i > 0 { assert dir[i] == dir[1..][i - 1]; }
        }
      }
    }
  }

  // ----- The invariant -----

  /** Each non-empty evidence id is bound to one record. */
  ghost predicate UniqueIds(rs: seq<Record>) {
    forall i, j :: 0 <= i < j < |rs| && EvidenceId(rs[i].evidence).Some? ==>
      EvidenceId(rs[i].evidence) != EvidenceId(rs[j].evidence)
  }

  /** The disk holds a replayable history and part of one line; memory holds the state of a prefix of it. */
  ghost predicate Sound(w: World, n: Node, rs: seq<Record>, tail: seq<Byte>) {
    && Stored(w, n.disk.ledger, rs, tail)
    && Replay(w, rs).Success?
    && n.accepted.sequence <= |rs|
    && Replay(w, rs[..n.accepted.sequence]) == Success(n.accepted)
    && UniqueIds(rs)
    && AllBound(w, n.disk.dir, rs)
  }

  /** Disk and memory agree and every file is whole. */
  ghost predicate Clean(n: Node, rs: seq<Record>, tail: seq<Byte>) {
    tail == [] && n.accepted.sequence == |rs| && Intact(n.disk.dir)
  }

  lemma {:induction false} OpenSound(w: World, n: Node, rs: seq<Record>, tail: seq<Byte>)
    requires Good(w) && Sound(w, n, rs, tail)
    ensures Open(w, n.disk) ==
            if tail != [] then Failure(TruncatedTail)
            else if Intact(n.disk.dir) then Replay(w, rs)
            else Failure(MalformedCheckpoint)
    ensures (Open(w, n.disk) == Success(n.accepted)) <==> Clean(n, rs, tail)
    ensures n.accepted.count == n.accepted.sequence
  {
    ReadStored(w, n.disk.ledger, rs, tail);
    BoundDirPasses(w, n.disk.dir, rs);
    ReplayPrefix(w, rs, n.accepted.sequence);
    ReplayPrefix(w, rs, |rs|);
    assert rs[..|rs|] == rs;
  }

  /** A new record with an id that no record has yet keeps ids unique. */
  lemma {:induction false} UniqueGrows(w: World, rs: seq<Record>, r: Record)
    requires UniqueIds(rs)
    requires EvidenceId(r.evidence).Some? ==> Find(rs, EvidenceId(r.evidence).value) == |rs|
    ensures UniqueIds(rs + [r])
  {
    var all := rs + [r];
    forall i, j | 0 <= i < j < |all| && EvidenceId(all[i].evidence).Some?
      ensures EvidenceId(all[i].evidence) != EvidenceId(all[j].evidence)
    {
      if j == |rs| && EvidenceId(r.evidence).Some? {
        assert Find(rs, EvidenceId(r.evidence).value) == |rs|;
      }
    }
  }

  /** What the history on disk is after an append attempt. */
  ghost function AfterAppend(w: World, n: Node, rs: seq<Record>, tail: seq<Byte>, evidence: Value, fault: Fault): (seq<Record>, seq<Byte>) {
    if !Clean(n, rs, tail) || Dedup(rs, evidence).Some? then (rs, tail) else
      var r := NextRecord(w, n.accepted, evidence);
      match fault
      case NoFault => (rs + [r], [])
      case OpenFails => (rs, [])
      case Cut(k) => if k < |Line(w, r)| then (rs, Line(w, r)[..k]) else (rs + [r], [])
  }

  /** An append to a recorder that is not clean, or of known evidence, changes nothing. */
  lemma {:induction false} AppendKept(w: World, n: Node, rs: seq<Record>, tail: seq<Byte>, evidence: Value, fault: Fault)
    requires Good(w) && Sound(w, n, rs, tail) && (Clean(n, rs, tail) ==> Dedup(rs, evidence).Some?)
    ensures var (n', ack) := AppendStep(w, n, evidence, fault);
            n' == n && if Clean(n, rs, tail) then ack == Dedup(rs, evidence).value else ack.Failure?
  {
    hide Find, FileOf, Dedup, Replay;
    OpenSound(w, n, rs, tail);
    ReadStored(w, n.disk.ledger, rs, tail);
    hide RecordsOf, Good, Intact, Stored, Open, UniqueIds, AllBound;
  }

  /** An append of new evidence to a clean recorder: the step is the write of the one new record. */
  lemma {:induction false} AppendWrites(w: World, n: Node, rs: seq<Record>, tail: seq<Byte>, evidence: Value, fault: Fault)
    requires Good(w) && Sound(w, n, rs, tail) && Clean(n, rs, tail) && Dedup(rs, evidence).None?
    ensures var r := NextRecord(w, n.accepted, evidence);
            var (file, written) := WriteLine(n.disk.ledger, Line(w, r), fault);
            && AppendStep(w, n, evidence, fault) ==
                 (if written then (Node(n.disk.(ledger := file), Advance(w, n.accepted, r.hash)), Success(Ack(IdOrNull(evidence), r.sequence, r.hash)))
                  else (n.(disk := n.disk.(ledger := file)), Failure(Io)))
            && r.sequence == |rs| + 1
  {
    hide Find, FileOf, Dedup, WriteLine, Line;
    OpenSound(w, n, rs, tail);
    ReadStored(w, n.disk.ledger, rs, tail);
    hide RecordsOf, Good, Intact, Stored, Open, UniqueIds, AllBound, Replay;
  }

  /** What that write leaves on disk. */
  lemma {:induction false} WriteSound(w: World, n: Node, rs: seq<Record>, evidence: Value, fault: Fault)
    requires Good(w) && Sound(w, n, rs, []) && Clean(n, rs, []) && Dedup(rs, evidence).None?
    ensures var r := NextRecord(w, n.accepted, evidence);
            var (file, written) := WriteLine(n.disk.ledger, Line(w, r), fault);
            var (rs', tail') := AfterAppend(w, n, rs, [], evidence, fault);
            && (written <==> fault.NoFault?)
            && Sound(w, if written then Node(n.disk.(ledger := file), Advance(w, n.accepted, r.hash)) else n.(disk := n.disk.(ledger := file)), rs', tail')
  {
    hide Find, RecordsOf, FileOf;
    assert rs[..|rs|] == rs;
    var r := NextRecord(w, n.accepted, evidence);
    var line := Line(w, r);
    ReplayNext(w, rs, evidence);
    UniqueGrows(w, rs, r);
    BoundGrows(w, n.disk.dir, rs, [r]);
    var all := rs + [r];
    assert all[..|rs|] == rs && all[..|all|] == all;
    match fault
    case NoFault => CutWrite(w, n.disk.ledger, rs, r, |line|);
    case OpenFails =>
    case Cut(k) => CutWrite(w, n.disk.ledger, rs, r, k);
  }

  /**
   * One append, whatever the disk does: history only grows, by at most the one new record;
   * the call acknowledges only from a clean state, and then either the one record already
   * bound to the id or the new last record, which is on disk.
   */
  lemma {:induction false} AppendSound(w: World, n: Node, rs: seq<Record>, tail: seq<Byte>, evidence: Value, fault: Fault)
    requires Good(w) && Sound(w, n, rs, tail)
    ensures var (n', ack) := AppendStep(w, n, evidence, fault);
            var (rs', tail') := AfterAppend(w, n, rs, tail, evidence, fault);
            && Sound(w, n', rs', tail')
            && rs <= rs' && |rs'| <= |rs| + 1
            && n'.disk.dir == n.disk.dir
            && (!Clean(n, rs, tail) ==> n' == n && ack.Failure?)
            && (Clean(n, rs, tail) && Dedup(rs, evidence).Some? ==> n' == n && ack == Dedup(rs, evidence).value)
            && (Clean(n, rs, tail) && Dedup(rs, evidence).None? ==>
                 var r := NextRecord(w, n.accepted, evidence);
                 (rs' == rs || rs' == rs + [r]) &&
                 (ack.Success? <==> fault.NoFault?) &&
                 (ack.Success? ==> ack.value == Ack(IdOrNull(evidence), |rs| + 1, r.hash) && rs' == rs + [r]) &&
                 (fault.NoFault? ==> Clean(n', rs', tail')))
  {
    hide Good, Sound, Dedup, AppendStep, WriteLine, Line, Intact, IdOrNull;
    if Clean(n, rs, tail) && Dedup(rs, evidence).None? {
      AppendWrites(w, n, rs, tail, evidence, fault);
      WriteSound(w, n, rs, evidence, fault);
    } else {
      AppendKept(w, n, rs, tail, evidence, fault);
    }
  }

  /** A cut checkpoint file is refused, except when only its sync failed. */
  lemma {:induction false} FilePartReads(w: World, cp: Checkpoint, n: nat)
    requires Good(w)
    ensures FilePart(w, cp, n) == Entry(FileName(cp), if n <= |w.encodeCheckpoint(cp)| then Garbled else Parsed(cp))
  {
    var text := w.encodeCheckpoint(cp);
    var line := text + [NEWLINE];
    if n <= |text| {
      assert line[..n] == text[..n];
    } else {
      assert line[..|line| - 1] == text;
    }
  }

  /** The write creates a checkpoint file and stops before its last byte. */
  ghost predicate Spoils(w: World, n: Node, fault: Fault) {
    var cp := CheckpointOf(n.accepted);
    fault.Cut? && fault.written <= |w.encodeCheckpoint(cp)| && Lookup(n.disk.dir, FileName(cp)).None?
  }

  /**
   * Writing a checkpoint never touches the ledger and keeps every checkpoint bound.  From a
   * clean state it leaves the directory whole exactly if no new file is cut, and it succeeds
   * exactly if the file was there or the write has no fault.
   */
  lemma {:induction false} CheckpointSound(w: World, n: Node, rs: seq<Record>, tail: seq<Byte>, fault: Fault)
    requires Good(w) && Sound(w, n, rs, tail)
    ensures var (n', bad) := CheckpointStep(w, n, fault);
            && Sound(w, n', rs, tail)
            && n'.accepted == n.accepted && n'.disk.ledger == n.disk.ledger
            && (!Clean(n, rs, tail) ==> n' == n && bad.Some?)
            && (Clean(n, rs, tail) ==> (Clean(n', rs, tail) <==> !Spoils(w, n, fault)))
            && (Clean(n, rs, tail) ==>
                  (bad.None? <==> Lookup(n.disk.dir, FileName(CheckpointOf(n.accepted))).Some? || fault.NoFault?))
  {
    hide Find, RecordsOf, FileOf, Dec, ReplayFrom, FilePart, Lookup;
    OpenSound(w, n, rs, tail);
    if Clean(n, rs, tail) {
      var cp := CheckpointOf(n.accepted);
      assert rs[..|rs|] == rs;
      LookupFinds(n.disk.dir, FileName(cp));
      if Lookup(n.disk.dir, FileName(cp)).Some? {
        var i :| 0 <= i < |n.disk.dir| && n.disk.dir[i].name == FileName(cp)
                 && n.disk.dir[i].content == Lookup(n.disk.dir, FileName(cp)).value;
        assert Bound(w, n.disk.dir[i], rs);
        NameDeterminesSequence(n.disk.dir[i].content.cp, cp);
      } else {
        FilePartReads(w, cp, |w.encodeCheckpoint(cp)| + 1);
        FilePartReads(w, cp, if fault.Cut? then fault.written else 0);
        assert Bound(w, Entry(FileName(cp), Parsed(cp)), rs);
        assert Bound(w, Entry(FileName(cp), Garbled), rs);
        IntactGrows(n.disk.dir, Entry(FileName(cp), Parsed(cp)));
        IntactGrows(n.disk.dir, Entry(FileName(cp), Garbled));
      }
    }
  }

  lemma {:induction false} IntactGrows(dir: seq<Entry>, e: Entry)
    ensures Intact(dir + [e]) <==> Intact(dir) && e.content.Parsed?
  {
    var all := dir + [e];
    assert all[|dir|] == e && forall i :: 0 <= i < |dir| ==> all[i] == dir[i];
  }

  // ----- Runs -----

  datatype Action =
    | Append(evidence: Value, fault: Fault)
    | WriteCheckpointFile(fault: Fault)
    | Restart

  /** A recorder that is running or refused to start. */
  datatype Machine = Machine(node: Node, up: bool)

  ghost function Do(w: World, m: Machine, a: Action): Machine {
    match a
    case Append(evidence, fault) => if m.up then m.(node := AppendStep(w, m.node, evidence, fault).0) else m
    case WriteCheckpointFile(fault) => if m.up then m.(node := CheckpointStep(w, m.node, fault).0) else m
    case Restart =>
      var observed := Open(w, m.node.disk);
      if observed.Success? then Machine(m.node.(accepted := observed.value), true) else m.(up := false)
  }

  ghost function Run(w: World, m: Machine, actions: seq<Action>): Machine
    decreases |actions|
  {
    if actions == [] then m else Run(w, Do(w, m, actions[0]), actions[1..])
  }

  lemma {:induction false} DoSound(w: World, m: Machine, a: Action, rs: seq<Record>, tail: seq<Byte>) returns (rs': seq<Record>, tail': seq<Byte>)
    requires Good(w) && Sound(w, m.node, rs, tail)
    ensures Sound(w, Do(w, m, a).node, rs', tail') && rs <= rs'
    ensures Do(w, m, a).up && a.Restart? ==> Clean(Do(w, m, a).node, rs', tail')
  {
    rs', tail' := rs, tail;
    match a
    case Append(evidence, fault) =>
      if m.up {
        AppendSound(w, m.node, rs, tail, evidence, fault);
        var after := AfterAppend(w, m.node, rs, tail, evidence, fault);
        rs', tail' := after.0, after.1;
      }
    case WriteCheckpointFile(fault) =>
      CheckpointSound(w, m.node, rs, tail, fault);
    case Restart =>
      OpenSound(w, m.node, rs, tail);
      ReplayPrefix(w, rs, |rs|);
      assert rs[..|rs|] == rs;
  }

  /** Over every run, with any write faults and restarts, the disk stays a sound history that extends the one it began with. */
  lemma {:induction false} RunSound(w: World, m: Machine, actions: seq<Action>, rs: seq<Record>, tail: seq<Byte>)
    returns (rs': seq<Record>, tail': seq<Byte>)
    requires Good(w) && Sound(w, m.node, rs, tail)
    ensures Sound(w, Run(w, m, actions).node, rs', tail') && rs <= rs'
    decreases |actions|
  {
    rs', tail' := rs, tail;
    if actions != [] {
      rs', tail' := DoSound(w, m, actions[0], rs, tail);
      var next := Do(w, m, actions[0]);
      var r2, t2 := RunSound(w, next, actions[1..], rs', tail');
      rs', tail' := r2, t2;
    }
  }

  ghost predicate Faultless(actions: seq<Action>) {
    forall i :: 0 <= i < |actions| ==>
      (actions[i].Append? ==> actions[i].fault.NoFault?) && (actions[i].WriteCheckpointFile? ==> actions[i].fault.NoFault?)
  }

  /** Without write faults the recorder stays up and clean: sequence, count and record number agree and memory is the replay of disk. */
  lemma {:induction false} FaultlessRun(w: World, m: Machine, actions: seq<Action>, rs: seq<Record>)
    returns (rs': seq<Record>)
    requires Good(w) && m.up && Sound(w, m.node, rs, []) && Clean(m.node, rs, []) && Faultless(actions)
    ensures var e := Run(w, m, actions);
            && e.up && Sound(w, e.node, rs', []) && Clean(e.node, rs', []) && rs <= rs'
            && e.node.accepted.sequence == e.node.accepted.count == |rs'|
            && Open(w, e.node.disk) == Success(e.node.accepted)
    decreases |actions|
  {
    hide ReplayFrom, AppendStep, CheckpointStep;
    rs' := rs;
    OpenSound(w, m.node, rs, []);
    if actions != [] {
      var a := actions[0];
      match a {
        case Append(evidence, fault) =>
          AppendSound(w, m.node, rs, [], evidence, fault);
          rs' := AfterAppend(w, m.node, rs, [], evidence, fault).0;
        case WriteCheckpointFile(fault) => CheckpointSound(w, m.node, rs, [], fault);
        case Restart =>
      }
      assert forall i :: 0 <= i < |actions[1..]| ==> actions[1..][i] == actions[i + 1];
      rs' := FaultlessRun(w, Do(w, m, a), actions[1..], rs');
    }
  }

  // ----- The assumptions hold of SHA-256 over JSON lines -----

  ghost function CheckpointMembers(cp: Checkpoint): seq<(string, Value)> {
    [("version", Int(cp.version)), ("seq", Int(cp.sequence)), ("head_hash", Str(cp.headHash)), ("history_hash", Str(cp.historyHash))]
  }

  ghost function EncodeCheckpoint(cp: Checkpoint): seq<Byte> {
    Utf8(Struct(CheckpointMembers(cp)))
  }

  /** serde's decoder: exactly these members, of these types. */
  function CheckpointFrom(m: map<string, Value>): Option<Checkpoint> {
    if m.Keys != {"version", "seq", "head_hash", "history_hash"} then None else
      var version, sequence := NatValue(m["version"]), NatValue(m["seq"]);
      if version.None? || sequence.None? || !m["head_hash"].Str? || !m["history_hash"].Str? then None else
        Some(Checkpoint(version.value, sequence.value, m["head_hash"].s, m["history_hash"].s))
  }

  function DecodeCheckpoint(bytes: seq<Byte>): Option<Checkpoint> {
    var text := Utf8Decode(bytes);
    if text.None? then None else
      var v := Parse(text.value);
      if v.None? || !v.value.Obj? then None else CheckpointFrom(v.value.fields)
  }

  lemma {:induction false} CheckpointFields(cp: Checkpoint)
    ensures CheckpointFrom(AsMap(CheckpointMembers(cp))) == Some(cp)
  {
    var ms := CheckpointMembers(cp);
    FourMembers(ms[0], ms[1], ms[2], ms[3]);
    IntRoundTrip(cp.version);
    IntRoundTrip(cp.sequence);
    hide AsMap, Dec;
  }

  lemma {:induction false} CheckpointReads(text: string, fields: map<string, Value>)
    requires Parse(text) == Some(Obj(fields))
    ensures DecodeCheckpoint(Utf8(text)) == CheckpointFrom(fields)
  {
    Utf8RoundTrip(text);
    hide Utf8, Utf8Decode, CheckpointFrom, Parse;
  }

  lemma {:induction false} CheckpointRoundTrip(cp: Checkpoint)
    ensures DecodeCheckpoint(EncodeCheckpoint(cp)) == Some(cp)
    ensures NEWLINE !in EncodeCheckpoint(cp)
  {
    hide AsMap, CheckpointMembers, CheckpointFrom, DecodeCheckpoint, Utf8, Parse;
    var ms := CheckpointMembers(cp);
    StructRoundTrip(ms);
    CheckpointFields(cp);
    CheckpointReads(Struct(ms), AsMap(ms));
    StructNoNewline(ms, 0);
    LineBytes(Struct(ms));
  }

  /** The recorder's own hash input and codecs, over a given SHA-256. */
  ghost function JsonWorld(sha: string -> string): World {
    World((n: nat, p, e) => sha(HashInput(n, p, e)), (a, b) => sha(a + "\n" + b), r => EncodeRecord(r), b => DecodeRecord(b),
          cp => EncodeCheckpoint(cp), b => DecodeCheckpoint(b))
  }

  /**
   * Good asks nothing more than that SHA-256 yields hex digests; and a collision of record
   * hashes would be a collision of SHA-256, on the two texts that are hashed.
   */
  lemma {:induction false} JsonWorldIsGood(sha: string -> string)
    requires forall t :: IsSha256(sha(t))
    ensures Good(JsonWorld(sha))
    ensures forall x, y :: Collide(JsonWorld(sha), x, y) <==> HashText(x) != HashText(y) && sha(HashText(x)) == sha(HashText(y))
  {
    hide HashInput, EncodeRecord, DecodeRecord, EncodeCheckpoint, DecodeCheckpoint;
    forall r: Record
      ensures DecodeRecord(EncodeRecord(r)) == Some(r) && NEWLINE !in EncodeRecord(r) && EncodeRecord(r) != []
    {
      RecordRoundTrip(r);
    }
    forall cp ensures DecodeCheckpoint(EncodeCheckpoint(cp)) == Some(cp) && NEWLINE !in EncodeCheckpoint(cp) {
      CheckpointRoundTrip(cp);
    }
    var w := JsonWorld(sha);
    assert forall n, p, e :: w.recordHash(n, p, e) == sha(HashInput(n, p, e));
    assert forall before, h :: w.historyHash(before, h) == sha(before + "\n" + h);
    assert forall r :: w.decode(w.encode(r)) == DecodeRecord(EncodeRecord(r)) && w.encode(r) == EncodeRecord(r);
    assert forall cp :: w.decodeCheckpoint(w.encodeCheckpoint(cp)) == DecodeCheckpoint(EncodeCheckpoint(cp)) && w.encodeCheckpoint(cp) == EncodeCheckpoint(cp);
    forall x: Record, y: Record
      ensures Collide(JsonWorld(sha), x, y) <==> HashText(x) != HashText(y) && sha(HashText(x)) == sha(HashText(y))
    {
      if HashText(x) == HashText(y) {
        HashInputInjective(x.sequence, x.prevHash, x.evidence, y.sequence, y.prevHash, y.evidence);
      }
    }
  }

  /** What is hashed of a record. */
  ghost function HashText(r: Record): string {
    HashInput(r.sequence, r.prevHash, r.evidence)
  }
}
