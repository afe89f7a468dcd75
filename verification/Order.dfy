/** The byte order on strings, and the sorted key lists that Go's sort.Strings produces. */
module Order {

  /** Strict lexicographic order by code point, which is also the order of the UTF-8 bytes. */
  predicate Less(a: string, b: string) {
    if b == [] then false
    else if a == [] then true
    else a[0] < b[0] || (a[0] == b[0] && Less(a[1..], b[1..]))
  }

  lemma {:induction false} LessIrreflexive(a: string)
    ensures !Less(a, a)
  {
    if a != [] {
      LessIrreflexive(a[1..]);
    }
  }

  lemma {:induction false} LessTransitive(a: string, b: string, c: string)
    requires Less(a, b) && Less(b, c)
    ensures Less(a, c)
  {
    if a != [] && a[0] == b[0] && b[0] == c[0] {
      LessTransitive(a[1..], b[1..], c[1..]);
    }
  }

  lemma {:induction false} LessTotal(a: string, b: string)
    ensures Less(a, b) || a == b || Less(b, a)
  {
    if a != [] && b != [] && a[0] == b[0] {
      LessTotal(a[1..], b[1..]);
      assert a == [a[0]] + a[1..] && b == [b[0]] + b[1..];
    }
  }

  lemma {:induction false} LessAsymmetric(a: string, b: string)
    requires Less(a, b)
    ensures !Less(b, a) && a != b
  {
    LessIrreflexive(a);
    if Less(b, a) {
      LessTransitive(a, b, a);
    }
  }

  /** k is the least element of s. */
  ghost predicate IsLeast(k: string, s: set<string>) {
    k in s && forall x :: x in s && x != k ==> Less(k, x)
  }

  lemma {:induction false} LeastExists(s: set<string>) returns (k: string)
    requires s != {}
    ensures IsLeast(k, s)
  {
    var x :| x in s;
    if s == {x} {
      k := x;
    } else {
      var rest := s - {x};
      var y := LeastExists(rest);
      LessTotal(x, y);
      if Less(x, y) {
        k := x;
        forall z | z in s && z != k ensures Less(k, z) {
          if z != y { LessTransitive(x, y, z); }
        }
      } else {
        k := y;
      }
    }
  }

  /** Strictly increasing. */
  ghost predicate Increasing(ks: seq<string>) {
    forall i, j :: 0 <= i < j < |ks| ==> Less(ks[i], ks[j])
  }

  /** The elements of s in increasing order. */
  ghost function SortedKeys(s: set<string>): (ks: seq<string>)
    ensures |ks| == |s|
    ensures forall k :: k in ks <==> k in s
    ensures Increasing(ks)
  {
    if s == {} then [] else
      assert exists k :: IsLeast(k, s) by {
        var k := LeastExists(s);
      }
      var k :| IsLeast(k, s);
      [k] + SortedKeys(s - {k})
  }

  lemma {:induction false} IncreasingDistinct(ks: seq<string>, i: nat, j: nat)
    requires Increasing(ks) && i < |ks| && j < |ks| && ks[i] == ks[j]
    ensures i == j
  {
    LessIrreflexive(ks[i]);
  }

  lemma {:induction false} HeadNotInTail(a: seq<string>)
    requires a != [] && Increasing(a)
    ensures a[0] !in a[1..]
  {
    if a[0] in a[1..] {
      var j :| 0 < j < |a| && a[j] == a[0];
      LessIrreflexive(a[0]);
    }
  }

  /** There is one increasing list of a given set: sorting is a function of the set alone. */
  lemma {:induction false} IncreasingUnique(a: seq<string>, b: seq<string>)
    requires Increasing(a) && Increasing(b)
    requires forall k :: k in a <==> k in b
    ensures a == b
  {
    assert b != [] ==> b[0] in b;
    if a == [] {
    } else {
      assert a[0] in b;
      assert b[0] in a;
      if a[0] != b[0] {
        assert Less(a[0], b[0]);
        assert Less(b[0], a[0]);
        LessAsymmetric(a[0], b[0]);
      }
      assert a == [a[0]] + a[1..] && b == [b[0]] + b[1..];
      HeadNotInTail(a);
      HeadNotInTail(b);
      forall k ensures k in a[1..] <==> k in b[1..] {
        assert k in a <==> k == a[0] || k in a[1..];
        assert k in b <==> k == b[0] || k in b[1..];
      }
      IncreasingUnique(a[1..], b[1..]);
    }
  }

  /** sort.Strings over the keys of a map, as an insertion sort. */
  method Sort(s: set<string>) returns (ks: seq<string>)
    ensures ks == SortedKeys(s)
  {
    ks := [];
    var todo := s;
    while todo != {}
      invariant todo <= s
      invariant Increasing(ks)
      invariant forall k :: k in ks <==> k in s - todo
      decreases todo
    {
      var x :| x in todo;
      todo := todo - {x};
      ks := Insert(ks, x);
    }
    IncreasingUnique(ks, SortedKeys(s));
  }

  method Insert(ks: seq<string>, x: string) returns (r: seq<string>)
    requires Increasing(ks) && x !in ks
    ensures Increasing(r)
    ensures forall k :: k in r <==> k in ks || k == x
  {
    var i := 0;
    while i < |ks| && Less(ks[i], x)
      invariant 0 <= i <= |ks|
      invariant forall j :: 0 <= j < i ==> Less(ks[j], x)
    {
      i := i + 1;
    }
    r := ks[..i] + [x] + ks[i..];
    if i < |ks| {
      LessTotal(ks[i], x);
      forall j | i <= j < |ks| ensures Less(x, ks[j]) {
        if j > i { LessTransitive(x, ks[i], ks[j]); }
      }
    }
  }

  // ----- Sizes -----

  lemma {:induction false} SubsetOfSameSize(a: set<string>, b: set<string>)
    requires a <= b && |a| == |b|
    ensures a == b
  {
    if a != b {
      var x :| x in b && x !in a;
      var c := b - {x};
      assert a <= c;
      SubsetSize(a, c);
    }
  }

  lemma {:induction false} SubsetSize(a: set<string>, b: set<string>)
    requires a <= b
    ensures |a| <= |b|
  {
    if a != {} {
      var x :| x in a;
      SubsetSize(a - {x}, b - {x});
    }
  }
}
