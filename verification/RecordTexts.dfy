/** The texts that the recorder hashes and writes, letter by letter: member names, their order, and what stands between them. */
module RecordTexts {
  import opened Wrappers
  import opened Json
  import opened JsonRoundTrip
  import opened Decimal
  import opened RecordCodec
  import opened Ledger
  import LedgerTheory

  /** A member as it stands in a struct, after another one. */
  function Next(key: string): string {
    ",\"" + key + "\":"
  }

  /** A name that is written as it is. */
  predicate Name(key: string) {
    forall c :: c in key ==> 'a' <= c <= 'z' || c == '_'
  }

  lemma {:induction false} KeyText(key: string, comma: bool)
    requires Name(key)
    ensures Key(key, comma, false) == (if comma then Next(key) else "\"" + key + "\":")
  {
    PlainTextStays(key, false);
  }

  ghost function Member(m: (string, Value)): string {
    Next(m.0) + Canonical(m.1, false)
  }

  lemma {:induction false} MemberText(ms: seq<(string, Value)>, i: nat)
    requires 0 < i < |ms| && Name(ms[i].0)
    ensures OrderedFrom(ms, i) == Member(ms[i]) + OrderedFrom(ms, i + 1)
  {
    KeyText(ms[i].0, true);
    hide Key, Next, Canonical;
  }

  lemma {:induction false} LastMember(ms: seq<(string, Value)>, n: nat)
    requires n == |ms|
    ensures OrderedFrom(ms, n) == ""
  {
  }

  lemma {:induction false} FirstMember(ms: seq<(string, Value)>)
    requires ms != [] && Name(ms[0].0)
    ensures OrderedFrom(ms, 0) == "\"" + ms[0].0 + "\":" + Canonical(ms[0].1, false) + OrderedFrom(ms, 1)
  {
    KeyText(ms[0].0, false);
    hide Key, Canonical;
  }

  lemma {:induction false} FourText(a: (string, Value), b: (string, Value), c: (string, Value), d: (string, Value))
    requires Name(a.0) && Name(b.0) && Name(c.0) && Name(d.0)
    ensures Struct([a, b, c, d]) == "{" + ("\"" + a.0 + "\":" + Canonical(a.1, false) + Member(b) + Member(c) + Member(d) + "}")
  {
    var ms := [a, b, c, d];
    hide Member, Name, Canonical;
    FirstMember(ms);
    MemberText(ms, 1);
    MemberText(ms, 2);
    MemberText(ms, 3);
    LastMember(ms, 4);
    hide OrderedFrom;
    Regroup("\"" + a.0 + "\":" + Canonical(a.1, false), Member(b), Member(c), Member(d), "", "}");
  }

  lemma {:induction false} FiveText(a: (string, Value), b: (string, Value), c: (string, Value), d: (string, Value), e: (string, Value))
    requires Name(a.0) && Name(b.0) && Name(c.0) && Name(d.0) && Name(e.0)
    ensures Struct([a, b, c, d, e])
         == "{" + ("\"" + a.0 + "\":" + Canonical(a.1, false) + Member(b) + Member(c) + Member(d) + Member(e) + "}")
  {
    var ms := [a, b, c, d, e];
    hide Member, Name, Canonical;
    FirstMember(ms);
    MemberText(ms, 1);
    MemberText(ms, 2);
    MemberText(ms, 3);
    MemberText(ms, 4);
    LastMember(ms, 5);
    hide OrderedFrom;
    Regroup("\"" + a.0 + "\":" + Canonical(a.1, false), Member(b), Member(c), Member(d), Member(e) + "", "}");
  }

  lemma {:induction false} Regroup(a: string, b: string, c: string, d: string, e: string, f: string)
    ensures a + (b + (c + (d + e))) + f == a + b + c + d + e + f
  {
  }

  lemma {:induction false} Names()
    ensures Name("version") && Name("seq") && Name("prev_hash") && Name("evidence") && Name("hash") && Name("head_hash") && Name("history_hash") && Dec(1) == "1"
  {
  }

  lemma {:induction false} TextOf(n: nat, s: string)
    ensures Canonical(Int(n), false) == Dec(n) && Canonical(Str(s), false) == Quote(s, false)
  {
    hide Dec, Quote;
  }

  /** The text that a record's hash is taken over: four members, in this order. */
  lemma {:induction false} HashInputText(sequence: nat, prev: string, evidence: Value)
    ensures HashInput(sequence, prev, evidence) ==
            "{" + ("\"" + "version" + "\":" + "1" + (Next("seq") + Dec(sequence)) + (Next("prev_hash") + Quote(prev, false))
                   + (Next("evidence") + Canonical(evidence, false)) + "}")
  {
    hide Quote, Next, Dec, Canonical, Name, Struct;
    Names();
    TextOf(1, prev);
    TextOf(sequence, prev);
    FourText(("version", Int(1)), ("seq", Int(sequence)), ("prev_hash", Str(prev)), ("evidence", evidence));
  }

  /** The text of a ledger line: five members, in this order. */
  lemma {:induction false} LineText(r: Record)
    ensures Struct(RecordMembers(r)) ==
            "{" + ("\"" + "version" + "\":" + Dec(r.version) + (Next("seq") + Dec(r.sequence)) + (Next("prev_hash") + Quote(r.prevHash, false))
                   + (Next("evidence") + Canonical(r.evidence, false)) + (Next("hash") + Quote(r.hash, false)) + "}")
  {
    hide Quote, Next, Dec, Canonical, Name, Struct;
    Names();
    TextOf(r.version, r.prevHash);
    TextOf(r.sequence, r.hash);
    FiveText(("version", Int(r.version)), ("seq", Int(r.sequence)), ("prev_hash", Str(r.prevHash)), ("evidence", r.evidence), ("hash", Str(r.hash)));
  }

  /** The text of a checkpoint file: four members, in this order. */
  lemma {:induction false} CheckpointText(cp: Checkpoint)
    ensures Struct(LedgerTheory.CheckpointMembers(cp)) ==
            "{" + ("\"" + "version" + "\":" + Dec(cp.version) + (Next("seq") + Dec(cp.sequence)) + (Next("head_hash") + Quote(cp.headHash, false))
                   + (Next("history_hash") + Quote(cp.historyHash, false)) + "}")
  {
    hide Quote, Next, Dec, Canonical, Name, Struct;
    Names();
    TextOf(cp.version, cp.headHash);
    TextOf(cp.sequence, cp.historyHash);
    FourText(("version", Int(cp.version)), ("seq", Int(cp.sequence)), ("head_hash", Str(cp.headHash)), ("history_hash", Str(cp.historyHash)));
  }

  // ----- What reads -----

  predicate IsCount(v: Value) {
    v.Num? && AllDigits(v.lit)
  }

  /** A line reads as a record exactly if it has the five members and no other, each of its type. */
  lemma {:induction false} RecordReadsExactly(m: map<string, Value>)
    ensures FromMembers(m).Some? <==>
            m.Keys == {"version", "seq", "prev_hash", "evidence", "hash"}
            && IsCount(m["version"]) && IsCount(m["seq"]) && m["prev_hash"].Str? && m["hash"].Str?
    ensures FromMembers(m).Some? ==>
              var r := FromMembers(m).value;
              r.evidence == m["evidence"] && Str(r.prevHash) == m["prev_hash"] && Str(r.hash) == m["hash"]
              && Some(r.version) == NatOf(m["version"].lit) && Some(r.sequence) == NatOf(m["seq"].lit)
  {
  }

  /** A checkpoint file reads exactly if it has the four members and no other, each of its type. */
  lemma {:induction false} CheckpointReadsExactly(m: map<string, Value>)
    ensures LedgerTheory.CheckpointFrom(m).Some? <==>
            m.Keys == {"version", "seq", "head_hash", "history_hash"}
            && IsCount(m["version"]) && IsCount(m["seq"]) && m["head_hash"].Str? && m["history_hash"].Str?
    ensures LedgerTheory.CheckpointFrom(m).Some? ==>
              var cp := LedgerTheory.CheckpointFrom(m).value;
              Str(cp.headHash) == m["head_hash"] && Str(cp.historyHash) == m["history_hash"]
              && Some(cp.version) == NatOf(m["version"].lit) && Some(cp.sequence) == NatOf(m["seq"].lit)
  {
  }
}
