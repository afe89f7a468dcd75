/** The text of a ledger record and of its hash input, as serde_json writes a struct: members in declaration order. */
module RecordCodec {
  import opened Wrappers
  import opened Json
  import opened JsonRoundTrip
  import opened Decimal
  import opened Bytes

  const GENESIS := "genesis"
  const RECORD_VERSION: nat := 1

  /** One line of the ledger file. */
  datatype Record = Record(version: nat, sequence: nat, prevHash: string, evidence: Value, hash: string)

  /** The members from the i-th on, leading comma included. */
  ghost function OrderedFrom(ms: seq<(string, Value)>, i: nat): string
    requires i <= |ms|
    decreases |ms| - i
  {
    if i == |ms| then "" else
      Key(ms[i].0, i > 0, false) + Canonical(ms[i].1, false) + OrderedFrom(ms, i + 1)
  }

  ghost function Struct(ms: seq<(string, Value)>): string {
    "{" + (OrderedFrom(ms, 0) + "}")
  }

  ghost function AsMap(ms: seq<(string, Value)>): map<string, Value> {
    if ms == [] then map[] else map[ms[0].0 := ms[0].1] + AsMap(ms[1..])
  }

  lemma {:induction false} OrderedRoundTrip(ms: seq<(string, Value)>, i: nat, t: string)
    requires i <= |ms|
    ensures ParseMembers(OrderedFrom(ms, i) + ("}" + t), i == 0) == Ok(AsMap(ms[i..]), t)
    decreases |ms| - i
  {
    var close := "}" + t;
    var u := OrderedFrom(ms, i) + close;
    if i == |ms| {
      assert u == close;
      assert u[1..] == t;
      assert ms[i..] == [];
    } else {
      var (k, v) := ms[i];
      var tail := OrderedFrom(ms, i + 1);
      OrderedRoundTrip(ms, i + 1, t);
      OrderedDelimited(ms, i + 1, close);
      ValueRoundTrip(v, false, tail + close);
      MemberStep(k, v, i > 0, false, Canonical(v, false), tail, close, AsMap(ms[i + 1..]), t);
      assert ms[i..][0] == ms[i] && ms[i..][1..] == ms[i + 1..];
    }
  }

  lemma {:induction false} OrderedDelimited(ms: seq<(string, Value)>, i: nat, close: string)
    requires 0 < i <= |ms| && close != [] && close[0] == '}'
    ensures Delimited(OrderedFrom(ms, i) + close)
  {
  }

  lemma {:induction false} StructRoundTrip(ms: seq<(string, Value)>)
    ensures Parse(Struct(ms)) == Some(Obj(AsMap(ms)))
  {
    OrderedRoundTrip(ms, 0, "");
    assert ms[0..] == ms;
    var body := OrderedFrom(ms, 0) + ("}" + "");
    BraceStep(body, AsMap(ms), "");
    assert "}" + "" == "}";
    assert Struct(ms) == "{" + body;
  }

  lemma {:induction false} StructNoNewline(ms: seq<(string, Value)>, i: nat)
    requires i <= |ms|
    ensures '\n' !in OrderedFrom(ms, i)
    decreases |ms| - i
  {
    if i < |ms| {
      EscapeIsPlain(ms[i].0, false);
      CanonicalIsPlain(ms[i].1, false);
      StructNoNewline(ms, i + 1);
    }
  }

  // ----- The hash input -----

  ghost function HashMembers(sequence: nat, prev: string, evidence: Value): seq<(string, Value)> {
    [("version", Int(RECORD_VERSION)), ("seq", Int(sequence)), ("prev_hash", Str(prev)), ("evidence", evidence)]
  }

  ghost function HashInput(sequence: nat, prev: string, evidence: Value): string {
    Struct(HashMembers(sequence, prev, evidence))
  }

  lemma {:induction false} FourMembers(a: (string, Value), b: (string, Value), c: (string, Value), d: (string, Value))
    requires a.0 != b.0 && a.0 != c.0 && a.0 != d.0 && b.0 != c.0 && b.0 != d.0 && c.0 != d.0
    ensures AsMap([a, b, c, d]) == map[a.0 := a.1, b.0 := b.1, c.0 := c.1, d.0 := d.1]
  {
    var ms := [a, b, c, d];
    assert ms[1..] == [b, c, d] && ms[1..][1..] == [c, d] && ms[1..][1..][1..] == [d];
    assert AsMap([d]) == map[d.0 := d.1];
    assert AsMap([c, d]) == map[c.0 := c.1] + AsMap([d]);
    assert AsMap([b, c, d]) == map[b.0 := b.1] + AsMap([c, d]);
  }

  /** The bytes that are hashed determine the sequence, the predecessor and the evidence. */
  lemma {:induction false} HashInputInjective(s1: nat, p1: string, e1: Value, s2: nat, p2: string, e2: Value)
    requires HashInput(s1, p1, e1) == HashInput(s2, p2, e2)
    ensures s1 == s2 && p1 == p2 && e1 == e2
  {
    var m1, m2 := HashMembers(s1, p1, e1), HashMembers(s2, p2, e2);
    StructRoundTrip(m1);
    StructRoundTrip(m2);
    FourMembers(m1[0], m1[1], m1[2], m1[3]);
    FourMembers(m2[0], m2[1], m2[2], m2[3]);
    var a1, a2 := AsMap(m1), AsMap(m2);
    assert a1 == a2;
    assert a1["seq"] == Int(s1) && a2["seq"] == Int(s2);
    assert a1["prev_hash"] == Str(p1) && a2["prev_hash"] == Str(p2);
    assert a1["evidence"] == e1 && a2["evidence"] == e2;
    IntRoundTrip(s1);
    IntRoundTrip(s2);
  }

  // ----- The line -----

  ghost function RecordMembers(r: Record): seq<(string, Value)> {
    [("version", Int(r.version)), ("seq", Int(r.sequence)), ("prev_hash", Str(r.prevHash)),
     ("evidence", r.evidence), ("hash", Str(r.hash))]
  }

  ghost function EncodeRecord(r: Record): seq<Byte> {
    Utf8(Struct(RecordMembers(r)))
  }

  /** serde's decoder with deny_unknown_fields: exactly these members, of these types. */
  function FromMembers(m: map<string, Value>): Option<Record> {
    if m.Keys != {"version", "seq", "prev_hash", "evidence", "hash"} then None else
      var version, sequence := NatValue(m["version"]), NatValue(m["seq"]);
      if version.None? || sequence.None? || !m["prev_hash"].Str? || !m["hash"].Str? then None else
        Some(Record(version.value, sequence.value, m["prev_hash"].s, m["evidence"], m["hash"].s))
  }

  function DecodeRecord(bytes: seq<Byte>): Option<Record> {
    var text := Utf8Decode(bytes);
    if text.None? then None else
      var v := Parse(text.value);
      if v.None? || !v.value.Obj? then None else FromMembers(v.value.fields)
  }

  lemma {:induction false} RecordMap(r: Record)
    ensures AsMap(RecordMembers(r)) ==
            map["version" := Int(r.version), "seq" := Int(r.sequence), "prev_hash" := Str(r.prevHash),
                "evidence" := r.evidence, "hash" := Str(r.hash)]
  {
    var ms := RecordMembers(r);
    FourMembers(ms[1], ms[2], ms[3], ms[4]);
    assert ms[1..] == [ms[1], ms[2], ms[3], ms[4]];
  }

  lemma {:induction false} FieldsRoundTrip(r: Record)
    ensures FromMembers(AsMap(RecordMembers(r))) == Some(r)
  {
    RecordMap(r);
    IntRoundTrip(r.version);
    IntRoundTrip(r.sequence);
  }

  lemma {:induction false} RecordText(r: Record)
    ensures '\n' !in Struct(RecordMembers(r)) && Struct(RecordMembers(r)) != []
  {
    StructNoNewline(RecordMembers(r), 0);
  }

  lemma {:induction false} DecodeText(text: string, fields: map<string, Value>)
    requires Parse(text) == Some(Obj(fields))
    ensures DecodeRecord(Utf8(text)) == FromMembers(fields)
  {
    Utf8RoundTrip(text);
  }

  lemma {:induction false} LineBytes(text: string)
    requires '\n' !in text && text != []
    ensures NEWLINE !in Utf8(text) && Utf8(text) != []
  {
    Utf8Newline(text);
  }

  /** Reading a written record gives the record back; its line is non-empty and has no line break inside. */
  lemma {:induction false} RecordRoundTrip(r: Record)
    ensures DecodeRecord(EncodeRecord(r)) == Some(r)
    ensures NEWLINE !in EncodeRecord(r) && EncodeRecord(r) != []
  {
    StructRoundTrip(RecordMembers(r));
    FieldsRoundTrip(r);
    DecodeText(Struct(RecordMembers(r)), AsMap(RecordMembers(r)));
    RecordText(r);
    LineBytes(Struct(RecordMembers(r)));
  }
}
