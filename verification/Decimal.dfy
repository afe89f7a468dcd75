/** Decimal spelling of naturals, as JSON integers and file names carry it. */
module Decimal {
  import opened Wrappers
  import opened Json

  function DigitChar(d: nat): char
    requires d < 10
  {
    ('0' as int + d) as char
  }

  function Dec(n: nat): (s: string)
    ensures s != []
  {
    if n < 10 then [DigitChar(n)] else Dec(n / 10) + [DigitChar(n % 10)]
  }

  predicate AllDigits(s: string) {
    s != [] && forall i :: 0 <= i < |s| ==> Digit(s[i])
  }

  function Undec(s: string): nat
    requires forall i :: 0 <= i < |s| ==> Digit(s[i])
  {
    if s == [] then 0 else
      assert Digit(s[|s| - 1]);
      10 * Undec(s[..|s| - 1]) + (s[|s| - 1] as int - '0' as int)
  }

  /** Reads an integer literal; anything else is not an integer. */
  function NatOf(s: string): Option<nat> {
    if AllDigits(s) then Some(Undec(s)) else None
  }

  lemma {:induction false} DecRoundTrip(n: nat)
    ensures AllDigits(Dec(n)) && Undec(Dec(n)) == n
    ensures NatOf(Dec(n)) == Some(n)
  {
    if n >= 10 {
      DecRoundTrip(n / 10);
      UndecAppend(Dec(n / 10), n % 10);
    } else {
      UndecAppend("", n);
      assert "" + [DigitChar(n)] == [DigitChar(n)];
    }
  }

  lemma {:induction false} UndecAppend(s: string, d: nat)
    requires d < 10 && forall i :: 0 <= i < |s| ==> Digit(s[i])
    ensures var t := s + [DigitChar(d)]; AllDigits(t) && Undec(t) == 10 * Undec(s) + d
  {
    var t := s + [DigitChar(d)];
    assert t[..|t| - 1] == s;
  }

  lemma {:induction false} DecInjective(m: nat, n: nat)
    requires Dec(m) == Dec(n)
    ensures m == n
  {
    DecRoundTrip(m);
    DecRoundTrip(n);
  }

  lemma {:induction false} DigitsAll(s: string)
    requires forall i :: 0 <= i < |s| ==> Digit(s[i])
    ensures Digits(s) == |s|
  {
    if s != [] {
      DigitsAll(s[1..]);
    }
  }

  lemma {:induction false} DecNoLeadingZero(n: nat)
    ensures Dec(n)[0] == '0' ==> n == 0
  {
    if n >= 10 {
      DecNoLeadingZero(n / 10);
    }
  }

  lemma {:induction false} DecNumeral(n: nat)
    ensures IsNumeral(Dec(n))
  {
    DecRoundTrip(n);
    DecNoLeadingZero(n);
    DigitsAll(Dec(n));
  }

  /** A natural as a JSON number. */
  function Int(n: nat): Value {
    DecNumeral(n);
    Num(Dec(n))
  }

  function NatValue(v: Value): Option<nat> {
    if v.Num? then NatOf(v.lit) else None
  }

  lemma {:induction false} IntRoundTrip(n: nat)
    ensures NatValue(Int(n)) == Some(n)
  {
    DecRoundTrip(n);
  }
}
