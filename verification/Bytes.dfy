/** Bytes, and the UTF-8 form (RFC 3629) in which text reaches a file. */
module Bytes {
  import opened Wrappers

  type Byte = b: int | 0 <= b < 256

  const NEWLINE: Byte := 10

  function Utf8Char(c: char): (bytes: seq<Byte>)
    ensures 1 <= |bytes| <= 4
  {
    var n := c as int;
    if n < 0x80 then [n]
    else if n < 0x800 then [0xC0 + n / 64, 0x80 + n % 64]
    else if n < 0x10000 then [0xE0 + n / 4096, 0x80 + n / 64 % 64, 0x80 + n % 64]
    else [0xF0 + n / 262144, 0x80 + n / 4096 % 64, 0x80 + n / 64 % 64, 0x80 + n % 64]
  }

  function Utf8(s: string): seq<Byte> {
    if s == [] then [] else Utf8Char(s[0]) + Utf8(s[1..])
  }

  predicate Scalar(n: int) {
    0 <= n < 0xD800 || 0xE000 <= n < 0x110000
  }

  /** The code point at the head of a byte string and how many bytes it takes. */
  function HeadChar(b: seq<Byte>): Option<(int, nat)> {
    if b == [] then None
    else if b[0] < 0x80 then Some((b[0], 1))
    else if 0xC0 <= b[0] < 0xE0 && |b| >= 2 then Some(((b[0] as int - 0xC0) * 64 + (b[1] as int - 0x80), 2))
    else if 0xE0 <= b[0] < 0xF0 && |b| >= 3 then
      Some(((b[0] as int - 0xE0) * 4096 + (b[1] as int - 0x80) * 64 + (b[2] as int - 0x80), 3))
    else if 0xF0 <= b[0] && |b| >= 4 then
      Some(((b[0] as int - 0xF0) * 262144 + (b[1] as int - 0x80) * 4096 + (b[2] as int - 0x80) * 64 + (b[3] as int - 0x80), 4))
    else None
  }

  function Utf8Decode(b: seq<Byte>): Option<string>
    decreases |b|
  {
    if b == [] then Some("") else
      var h := HeadChar(b);
      if h.None? || !Scalar(h.value.0) || Utf8Char(h.value.0 as char) != b[..h.value.1] then None else
        var rest := Utf8Decode(b[h.value.1..]);
        if rest.None? then None else Some([h.value.0 as char] + rest.value)
  }

  lemma {:induction false} HeadOf(c: char, t: seq<Byte>)
    ensures HeadChar(Utf8Char(c) + t) == Some((c as int, |Utf8Char(c)|))
  {
    var n := c as int;
    var a, b := n / 64, n / 4096;
    assert b == a / 64 && n / 262144 == b / 64;
    assert n == 64 * a + n % 64 && a == 64 * b + a % 64 && b == 64 * (n / 262144) + b % 64;
  }

  lemma {:induction false} Utf8RoundTrip(s: string)
    ensures Utf8Decode(Utf8(s)) == Some(s)
  {
    if s != [] {
      var h, t := Utf8Char(s[0]), Utf8(s[1..]);
      HeadOf(s[0], t);
      Utf8RoundTrip(s[1..]);
      assert (h + t)[..|h|] == h && (h + t)[|h|..] == t;
      assert s == [s[0]] + s[1..];
    }
  }

  /** Only a newline character puts a newline byte into the file. */
  lemma {:induction false} Utf8Newline(s: string)
    ensures NEWLINE in Utf8(s) <==> '\n' in s
  {
    if s != [] {
      Utf8Newline(s[1..]);
      assert s == [s[0]] + s[1..];
      assert NEWLINE in Utf8Char(s[0]) <==> s[0] == '\n';
    }
  }
}
