/** What the history hash of a ledger covers: every record hash, in order. */
module HistoryHashes {
  import opened Wrappers
  import opened RecordCodec
  import opened Ledger
  import opened LedgerTheory

  /** The history hash of the first k records. */
  function HashUpto(w: World, rs: seq<Record>, k: nat): string
    requires k <= |rs| && Replay(w, rs[..k]).Success?
  {
    Replay(w, rs[..k]).value.historyHash
  }

  /** The pair whose hash extends the history by record k: the history hash before it, and its record hash. */
  function InputAt(w: World, rs: seq<Record>, k: nat): (string, string)
    requires k < |rs| && Replay(w, rs[..k]).Success?
  {
    (HashUpto(w, rs, k), rs[k].hash)
  }

  ghost predicate Replays(w: World, rs: seq<Record>) {
    forall k :: 0 <= k <= |rs| ==> Replay(w, rs[..k]).Success?
  }

  lemma {:induction false} ReplaysAll(w: World, rs: seq<Record>)
    requires Replay(w, rs).Success?
    ensures Replays(w, rs)
  {
    hide ReplayFrom;
    forall k | 0 <= k <= |rs| ensures Replay(w, rs[..k]).Success? {
      ReplayPrefix(w, rs, k);
    }
  }

  /** Two different inputs of the history hash, one from each ledger, with one value. */
  ghost predicate HistoryCollision(w: World, a: seq<Record>, b: seq<Record>)
    requires Replays(w, a) && Replays(w, b)
  {
    exists i, j :: 0 <= i < |a| && 0 <= j < |b| && InputAt(w, a, i) != InputAt(w, b, j) &&
      w.historyHash(InputAt(w, a, i).0, InputAt(w, a, i).1) == w.historyHash(InputAt(w, b, j).0, InputAt(w, b, j).1)
  }

  /** The same record hashes in the same order. */
  ghost predicate SameHashes(a: seq<Record>, b: seq<Record>) {
    |a| == |b| && forall i :: 0 <= i < |a| ==> a[i].hash == b[i].hash
  }

  /** The history hash of no record is the word it starts from; each further record hashes the one before with its own hash. */
  lemma {:induction false} HistoryHashIs(w: World, rs: seq<Record>, k: nat)
    requires Replay(w, rs).Success? && k <= |rs| && Replays(w, rs)
    ensures HashUpto(w, rs, k) == if k == 0 then GENESIS else w.historyHash(InputAt(w, rs, k - 1).0, InputAt(w, rs, k - 1).1)
  {
    if k > 0 {
      var before, last := rs[..k - 1], [rs[k - 1]];
      assert rs[..k] == before + last;
      ReplayAppend(w, Origin, before, last);
      assert last[1..] == [];
    }
  }

  lemma {:induction false} NotGenesis(w: World, before: string, h: string)
    requires Good(w)
    ensures w.historyHash(before, h) != GENESIS
  {
    assert |GENESIS| == 7;
  }

  /** Two ledgers with one history hash have the same record hashes in order, or they exhibit a collision of it. */
  lemma {:induction false} HistoryHashBinds(w: World, a: seq<Record>, b: seq<Record>)
    requires Good(w) && Replay(w, a).Success? && Replay(w, b).Success?
    requires Replay(w, a).value.historyHash == Replay(w, b).value.historyHash
    ensures Replays(w, a) && Replays(w, b)
    ensures SameHashes(a, b) || HistoryCollision(w, a, b)
    decreases |a|
  {
    hide ReplayFrom, HistoryCollision, Replays, Good;
    ReplaysAll(w, a);
    ReplaysAll(w, b);
    var m, n := |a|, |b|;
    assert a[..m] == a && b[..n] == b;
    assert Replay(w, a[..m]).Success? && Replay(w, b[..n]).Success?;
    HistoryHashIs(w, a, m);
    HistoryHashIs(w, b, n);
    if m > 0 { InputReplays(w, a, m - 1); NotGenesis(w, InputAt(w, a, m - 1).0, InputAt(w, a, m - 1).1); }
    if n > 0 { InputReplays(w, b, n - 1); NotGenesis(w, InputAt(w, b, n - 1).0, InputAt(w, b, n - 1).1); }
    if m > 0 && n > 0 {
      if InputAt(w, a, m - 1) == InputAt(w, b, n - 1) {
        HistoryHashBinds(w, a[..m - 1], b[..n - 1]);
        if !SameHashes(a[..m - 1], b[..n - 1]) {
          HistoryCollisionGrows(w, a, m - 1, b, n - 1);
        } else {
          assert forall i :: 0 <= i < m - 1 ==> a[i].hash == a[..m - 1][i].hash == b[..n - 1][i].hash == b[i].hash;
        }
      } else {
        CollidesAt(w, a, m - 1, b, n - 1);
      }
    }
  }

  lemma {:induction false} InputReplays(w: World, rs: seq<Record>, k: nat)
    requires Replays(w, rs) && k < |rs|
    ensures Replay(w, rs[..k]).Success?
  {
    hide ReplayFrom;
  }

  lemma {:induction false} CollidesAt(w: World, a: seq<Record>, i: nat, b: seq<Record>, j: nat)
    requires Replays(w, a) && Replays(w, b) && i < |a| && j < |b| && InputAt(w, a, i) != InputAt(w, b, j)
    requires w.historyHash(InputAt(w, a, i).0, InputAt(w, a, i).1) == w.historyHash(InputAt(w, b, j).0, InputAt(w, b, j).1)
    ensures HistoryCollision(w, a, b)
  {
    hide InputAt, ReplayFrom;
  }

  lemma {:induction false} HistoryCollisionGrows(w: World, a: seq<Record>, m: nat, b: seq<Record>, n: nat)
    requires Replays(w, a) && Replays(w, b) && m <= |a| && n <= |b|
    requires Replays(w, a[..m]) && Replays(w, b[..n]) && HistoryCollision(w, a[..m], b[..n])
    ensures HistoryCollision(w, a, b)
  {
    hide ReplayFrom;
    var i, j :| 0 <= i < m && 0 <= j < n && InputAt(w, a[..m], i) != InputAt(w, b[..n], j) &&
      w.historyHash(InputAt(w, a[..m], i).0, InputAt(w, a[..m], i).1) == w.historyHash(InputAt(w, b[..n], j).0, InputAt(w, b[..n], j).1);
    assert a[..m][..i] == a[..i] && b[..n][..j] == b[..j];
    assert InputAt(w, a[..m], i) == InputAt(w, a, i) && InputAt(w, b[..n], j) == InputAt(w, b, j);
    CollidesAt(w, a, i, b, j);
  }

  /** A checkpoint that is valid for two ledgers binds, by its history hash alone, one sequence of record hashes, or exhibits a collision. */
  lemma {:induction false} CheckpointBindsHashes(w: World, e: Entry, a: seq<Record>, b: seq<Record>)
    requires Good(w) && e.content.Parsed?
    requires CheckEntry(w, e, a).None? && CheckEntry(w, e, b).None?
    ensures var k := e.content.cp.sequence;
            && k <= |a| && k <= |b| && Replays(w, a[..k]) && Replays(w, b[..k])
            && e.content.cp.historyHash == Replay(w, a[..k]).value.historyHash == Replay(w, b[..k]).value.historyHash
            && (SameHashes(a[..k], b[..k]) || HistoryCollision(w, a[..k], b[..k]))
  {
    hide ReplayFrom, HistoryCollision, SameHashes, Replays;
    var k := e.content.cp.sequence;
    HistoryHashBinds(w, a[..k], b[..k]);
    ReplaysAll(w, a[..k]);
    assert a[..k][..k] == a[..k] && b[..k][..k] == b[..k];
    assert Replay(w, a[..k][..k]).Success? && Replay(w, b[..k][..k]).Success? by { WholeReplays(w, a[..k]); WholeReplays(w, b[..k]); }
  }

  lemma {:induction false} WholeReplays(w: World, rs: seq<Record>)
    requires Replays(w, rs)
    ensures rs[..|rs|] == rs && Replay(w, rs).Success?
  {
    hide ReplayFrom;
    assert rs[..|rs|] == rs;
  }

  lemma {:induction false} FirstPiece(s: string, t: string, u: string, v: string)
    requires '\n' !in s && '\n' !in t && s + "\n" + u == t + "\n" + v
    ensures s == t
  {
    var x, y := s + "\n" + u, t + "\n" + v;
    assert x[0] == if s == [] then '\n' else s[0];
    assert y[0] == if t == [] then '\n' else t[0];
    if s != [] && t != [] {
      assert x[1..] == s[1..] + "\n" + u && y[1..] == t[1..] + "\n" + v;
      FirstPiece(s[1..], t[1..], u, v);
      assert s == [s[0]] + s[1..] && t == [t[0]] + t[1..];
    }
  }

  /** As JSON lines hash it, a collision of history hashes is one of SHA-256, since no hash holds a line break. */
  lemma {:induction false} HistoryTextsDiffer(x: (string, string), y: (string, string))
    requires '\n' !in x.0 && '\n' !in y.0 && x.0 + "\n" + x.1 == y.0 + "\n" + y.1
    ensures x == y
  {
    FirstPiece(x.0, y.0, x.1, y.1);
    var s, t, n := x.0 + "\n" + x.1, y.0 + "\n" + y.1, |x.0| + 1;
    assert s[n..] == x.1 && t[n..] == y.1;
  }
}
