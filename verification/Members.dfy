/** Go structs as JSON objects: members by position, omitted members, and reading fields back by name. */
module Members {
  import opened Wrappers
  import opened Json
  import opened Decimal

  /** The members that are present. */
  function Collect(keys: seq<string>, slots: seq<Option<Value>>): map<string, Value>
    requires |keys| == |slots|
  {
    if keys == [] then map[] else
      (if slots[0].Some? then map[keys[0] := slots[0].value] else map[]) + Collect(keys[1..], slots[1..])
  }

  function StrField(m: map<string, Value>, key: string): Option<string> {
    if key !in m || m[key].Null? then Some("")
    else if m[key].Str? then Some(m[key].s)
    else None
  }

  function NatField(m: map<string, Value>, key: string): Option<nat> {
    if key !in m || m[key].Null? then Some(0) else NatValue(m[key])
  }

  ghost predicate Distinct(keys: seq<string>) {
    forall i, j :: 0 <= i < j < |keys| ==> keys[i] != keys[j]
  }

  lemma {:induction false} CollectKeys(keys: seq<string>, slots: seq<Option<Value>>)
    requires |keys| == |slots|
    ensures forall k :: k in Collect(keys, slots) ==> k in keys
  {
    if keys != [] {
      CollectKeys(keys[1..], slots[1..]);
    }
  }

  /** A member is present exactly when its slot is filled, with that value. */
  lemma {:induction false} CollectAt(keys: seq<string>, slots: seq<Option<Value>>, i: nat)
    requires |keys| == |slots| && i < |keys| && Distinct(keys)
    ensures keys[i] in Collect(keys, slots) <==> slots[i].Some?
    ensures slots[i].Some? ==> Collect(keys, slots)[keys[i]] == slots[i].value
  {
    assert forall j :: 0 <= j < |keys| - 1 ==> keys[1..][j] == keys[j + 1];
    if i == 0 {
      CollectKeys(keys[1..], slots[1..]);
    } else {
      CollectAt(keys[1..], slots[1..], i - 1);
    }
  }

  /** Objects with the same member names are equal exactly when their slots are. */
  lemma {:induction false} CollectInjective(keys: seq<string>, a: seq<Option<Value>>, b: seq<Option<Value>>)
    requires |keys| == |a| == |b| && Distinct(keys)
    requires Collect(keys, a) == Collect(keys, b)
    ensures a == b
  {
    forall i | 0 <= i < |keys| ensures a[i] == b[i] {
      CollectAt(keys, a, i);
      CollectAt(keys, b, i);
    }
  }
}
