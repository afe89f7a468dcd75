/**
 * JSON values as the authority hashes them: objects are key maps and numbers keep their
 * literal, exactly as encoding/json with UseNumber decodes them.  Canonical is the text
 * that writeCanonical produces; Parse is a decoder for that text.  The main results are
 * that Parse inverts Canonical in any surrounding text and that the text determines the
 * value, so a hash of the text is a hash of the value.
 */
module Json {
  import opened Order
  import opened Wrappers

  // ----- Numbers (RFC 8259, section 6) -----

  predicate Digit(c: char) { '0' <= c <= '9' }

  /** Characters that may occur in a number literal. */
  predicate NumChar(c: char) {
    Digit(c) || c == '-' || c == '+' || c == '.' || c == 'e' || c == 'E'
  }

  /** Length of the longest prefix of digits. */
  function Digits(s: string): (n: nat)
    ensures n <= |s|
    ensures forall i :: 0 <= i < n ==> Digit(s[i])
  {
    if s != [] && Digit(s[0]) then 1 + Digits(s[1..]) else 0
  }

  predicate IsExponent(s: string) {
    s == [] ||
    ((s[0] == 'e' || s[0] == 'E') &&
     var t := if |s| > 1 && (s[1] == '+' || s[1] == '-') then s[2..] else s[1..];
     t != [] && Digits(t) == |t|)
  }

  predicate IsFraction(s: string) {
    if s != [] && s[0] == '.' then
      var n := Digits(s[1..]);
      n > 0 && IsExponent(s[1 + n..])
    else
      IsExponent(s)
  }

  predicate IsUnsigned(t: string) {
    var n := Digits(t);
    n > 0 && (t[0] == '0' ==> n == 1) && IsFraction(t[n..])
  }

  /** The number grammar that isValidNumber checks. */
  predicate IsNumeral(s: string) {
    if s != [] && s[0] == '-' then IsUnsigned(s[1..]) else IsUnsigned(s)
  }

  type Numeral = s: string | IsNumeral(s) witness "0"

  predicate AllNumChars(s: string) {
    forall i :: 0 <= i < |s| ==> NumChar(s[i])
  }

  lemma {:induction false} ExponentChars(s: string)
    requires IsExponent(s)
    ensures AllNumChars(s)
  {
    if s != [] {
      var k := if |s| > 1 && (s[1] == '+' || s[1] == '-') then 2 else 1;
      var t := s[k..];
      assert AllNumChars(t);
      assert forall i :: k <= i < |s| ==> s[i] == t[i - k];
    }
  }

  lemma {:induction false} FractionChars(s: string)
    requires IsFraction(s)
    ensures AllNumChars(s)
  {
    if s != [] && s[0] == '.' {
      var n := Digits(s[1..]);
      ExponentChars(s[1 + n..]);
      assert forall i :: 1 <= i < 1 + n ==> s[i] == s[1..][i - 1];
      assert forall i :: 1 + n <= i < |s| ==> s[i] == s[1 + n..][i - 1 - n];
    } else {
      ExponentChars(s);
    }
  }

  lemma {:induction false} UnsignedChars(t: string)
    requires IsUnsigned(t)
    ensures t != [] && Digit(t[0]) && AllNumChars(t)
  {
    var n := Digits(t);
    FractionChars(t[n..]);
    hide IsFraction, Digits;
    PartsNumChars(t[..n], t[n..]);
    assert t == t[..n] + t[n..];
  }

  lemma {:induction false} NumeralChars(s: string)
    requires IsNumeral(s)
    ensures s != [] && (Digit(s[0]) || s[0] == '-')
    ensures AllNumChars(s)
  {
    hide IsUnsigned;
    if s != [] && s[0] == '-' {
      UnsignedChars(s[1..]);
      PartsNumChars([s[0]], s[1..]);
      assert s == [s[0]] + s[1..];
    } else {
      UnsignedChars(s);
    }
  }

  lemma {:induction false} PartsNumChars(a: string, b: string)
    requires AllNumChars(a) && AllNumChars(b)
    ensures AllNumChars(a + b)
  {
  }

  // ----- Values -----

  datatype Value =
    | Null
    | Bool(b: bool)
    | Num(lit: Numeral)
    | Str(s: string)
    | Arr(items: seq<Value>)
    | Obj(fields: map<string, Value>)

  // ----- Strings (RFC 8259, section 7) -----

  function HexDigit(n: int): char
    requires 0 <= n < 16
  {
    (if n < 10 then '0' as int + n else 'a' as int + n - 10) as char
  }

  function HexValue(c: char): (r: Option<int>)
    ensures r.Some? ==> 0 <= r.value < 16
  {
    if '0' <= c <= '9' then Some(c as int - '0' as int)
    else if 'a' <= c <= 'f' then Some(c as int - 'a' as int + 10)
    else if 'A' <= c <= 'F' then Some(c as int - 'A' as int + 10)
    else None
  }

  function Hex4(n: int): (h: string)
    requires 0 <= n < 0x10000
    ensures |h| == 4
  {
    [HexDigit(n / 4096), HexDigit(n / 256 % 16), HexDigit(n / 16 % 16), HexDigit(n % 16)]
  }

  /** The escape of one character as encoding/json writes it; html is Go's HTML escaping,
      which serde_json does not have. */
  function Escape(c: char, html: bool): string {
    if c == '"' then "\\\""
    else if c == '\\' then "\\\\"
    else if c as int == 8 then "\\b"
    else if c as int == 12 then "\\f"
    else if c == '\n' then "\\n"
    else if c == '\r' then "\\r"
    else if c == '\t' then "\\t"
    else if c as int < 32 then "\\u" + Hex4(c as int)
    else if html && (c == '<' || c == '>' || c == '&' || c as int == 0x2028 || c as int == 0x2029)
    then "\\u" + Hex4(c as int)
    else [c]
  }

  function EscapeAll(s: string, html: bool): string {
    if s == [] then [] else Escape(s[0], html) + EscapeAll(s[1..], html)
  }

  function Quote(s: string, html: bool): string {
    "\"" + EscapeAll(s, html) + "\""
  }

  // ----- The writer -----

  /** A member's key, with the comma that separates it from an earlier member. */
  function Key(k: string, comma: bool, html: bool): string {
    (if comma then "," else "") + Quote(k, html) + ":"
  }

  /** The text writeCanonical leaves for one value. */
  ghost function Canonical(v: Value, html: bool): string
    decreases v, 2, 0
  {
    match v
    case Null => "null"
    case Bool(b) => if b then "true" else "false"
    case Num(lit) => lit
    case Str(s) => Quote(s, html)
    case Arr(items) => "[" + (ItemsFrom(v, 0, html) + "]")
    case Obj(fields) => "{" + (MembersFrom(v, SortedKeys(fields.Keys), 0, html) + "}")
  }

  /** What is still to be written of an array from item i on, leading comma included. */
  ghost function ItemsFrom(v: Value, i: nat, html: bool): string
    requires v.Arr? && i <= |v.items|
    decreases v, 1, |v.items| - i
  {
    if i == |v.items| then "" else
      (if i > 0 then "," else "") + Canonical(v.items[i], html) + ItemsFrom(v, i + 1, html)
  }

  /** What is still to be written of an object from key i on, leading comma included. */
  ghost function MembersFrom(v: Value, keys: seq<string>, i: nat, html: bool): string
    requires v.Obj? && i <= |keys| && forall k :: k in keys ==> k in v.fields
    decreases v, 1, |keys| - i
  {
    if i == |keys| then "" else
      Key(keys[i], i > 0, html) + Canonical(v.fields[keys[i]], html) + MembersFrom(v, keys, i + 1, html)
  }

  lemma {:induction false} Regroup(a: string, sep: string, item: string, tail: string, close: string)
    ensures a + ((sep + item + tail) + close) == (a + sep + item) + (tail + close)
  {
  }

  /** The recursive writer, which grows one output buffer. */
  method WriteCanonical(v: Value, html: bool, before: string) returns (out: string)
    ensures out == before + Canonical(v, html)
    decreases v, 2
  {
    out := before;
    match v
    case Null => out := out + "null";
    case Bool(b) => out := out + (if b then "true" else "false");
    case Num(lit) => out := out + lit;
    case Str(s) => out := out + Quote(s, html);
    case Arr(_) => out := WriteItems(v, html, out);
    case Obj(fields) =>
      var keys := Sort(fields.Keys);
      out := WriteMembers(v, keys, html, out);
  }

  /** The []any case of writeCanonical. */
  method WriteItems(v: Value, html: bool, before: string) returns (out: string)
    requires v.Arr?
    ensures out == before + Canonical(v, html)
    decreases v, 1
  {
    out := before + "[";
    var i := 0;
    while i < |v.items|
      invariant 0 <= i <= |v.items|
      invariant out + (ItemsFrom(v, i, html) + "]") == before + Canonical(v, html)
    {
      ghost var soFar, sep := out, if i > 0 then "," else "";
      if i > 0 {
        out := out + ",";
      }
      assert out == soFar + sep;
      out := WriteCanonical(v.items[i], html, out);
      Regroup(soFar, sep, Canonical(v.items[i], html), ItemsFrom(v, i + 1, html), "]");
      i := i + 1;
    }
    out := out + "]";
  }

  lemma {:induction false} MembersStep(v: Value, keys: seq<string>, i: nat, html: bool)
    requires v.Obj? && i < |keys| && forall k :: k in keys ==> k in v.fields
    ensures MembersFrom(v, keys, i, html)
         == Key(keys[i], i > 0, html) + Canonical(v.fields[keys[i]], html) + MembersFrom(v, keys, i + 1, html)
  {
  }

  /** One turn of the member loop. */
  method WriteMember(v: Value, keys: seq<string>, i: nat, html: bool, before: string) returns (out: string)
    requires v.Obj? && i < |keys| && forall k :: k in keys ==> k in v.fields
    ensures out + (MembersFrom(v, keys, i + 1, html) + "}") == before + (MembersFrom(v, keys, i, html) + "}")
    decreases v, 0
  {
    hide Canonical, MembersFrom, Quote;
    out := before;
    if i > 0 {
      out := out + ",";
    }
    out := out + Quote(keys[i], html);
    out := out + ":";
    ghost var key, item := Key(keys[i], i > 0, html), Canonical(v.fields[keys[i]], html);
    assert out == before + key;
    out := WriteCanonical(v.fields[keys[i]], html, out);
    Regroup(before, key, item, MembersFrom(v, keys, i + 1, html), "}");
    MembersStep(v, keys, i, html);
  }

  /** The map[string]any case of writeCanonical, over the sorted keys. */
  method WriteMembers(v: Value, keys: seq<string>, html: bool, before: string) returns (out: string)
    requires v.Obj? && forall k :: k in keys ==> k in v.fields
    ensures out == before + ("{" + (MembersFrom(v, keys, 0, html) + "}"))
    decreases v, 1
  {
    out := before + "{";
    var i := 0;
    while i < |keys|
      invariant 0 <= i <= |keys|
      invariant out + (MembersFrom(v, keys, i, html) + "}") == before + ("{" + (MembersFrom(v, keys, 0, html) + "}"))
    {
      out := WriteMember(v, keys, i, html, out);
      i := i + 1;
    }
    out := out + "}";
  }

  // ----- The decoder -----

  datatype Parsed<+T> = Fail | Ok(value: T, rest: string)

  /** Decodes string characters up to and including the closing quote. */
  function ParseChars(t: string): (r: Parsed<string>)
    ensures r.Ok? ==> |r.rest| < |t|
    decreases |t|
  {
    if t == [] then Fail
    else if t[0] == '"' then Ok("", t[1..])
    else if t[0] == '\\' then
      if |t| < 2 then Fail
      else if t[1] == 'u' then
        if |t| < 6 then Fail else
          var a, b, c, d := HexValue(t[2]), HexValue(t[3]), HexValue(t[4]), HexValue(t[5]);
          if a.None? || b.None? || c.None? || d.None? then Fail else
            var n := a.value * 4096 + b.value * 256 + c.value * 16 + d.value;
            if 0xD800 <= n < 0xE000 then Fail else
              assert 0 <= n < 0x10000;
              Prepend(n as char, ParseChars(t[6..]))
      else
        var e := Unescape(t[1]);
        if e.None? then Fail else Prepend(e.value, ParseChars(t[2..]))
    else if t[0] as int < 32 then Fail
    else Prepend(t[0], ParseChars(t[1..]))
  }

  function Unescape(c: char): Option<char> {
    if c == '"' then Some('"')
    else if c == '\\' then Some('\\')
    else if c == '/' then Some('/')
    else if c == 'b' then Some(8 as char)
    else if c == 'f' then Some(12 as char)
    else if c == 'n' then Some('\n')
    else if c == 'r' then Some('\r')
    else if c == 't' then Some('\t')
    else None
  }

  function Prepend(c: char, r: Parsed<string>): Parsed<string> {
    if r.Fail? then Fail else Ok([c] + r.value, r.rest)
  }

  /** Length of the longest prefix of number characters. */
  function NumLength(t: string): (n: nat)
    ensures n <= |t|
  {
    if t != [] && NumChar(t[0]) then 1 + NumLength(t[1..]) else 0
  }

  function ParseValue(t: string): (r: Parsed<Value>)
    ensures r.Ok? ==> |r.rest| < |t|
    decreases |t|, 0
  {
    if t == [] then Fail
    else if "null" <= t then Ok(Null, t[4..])
    else if "true" <= t then Ok(Bool(true), t[4..])
    else if "false" <= t then Ok(Bool(false), t[5..])
    else if t[0] == '"' then
      var r := ParseChars(t[1..]);
      if r.Fail? then Fail else Ok(Str(r.value), r.rest)
    else if t[0] == '[' then
      var r := ParseItems(t[1..], true);
      if r.Fail? then Fail else Ok(Arr(r.value), r.rest)
    else if t[0] == '{' then
      var r := ParseMembers(t[1..], true);
      if r.Fail? then Fail else Ok(Obj(r.value), r.rest)
    else
      var n := NumLength(t);
      if n > 0 && IsNumeral(t[..n]) then Ok(Num(t[..n]), t[n..]) else Fail
  }

  /** The rest of an array: first says that no item has been read yet. */
  function ParseItems(t: string, first: bool): (r: Parsed<seq<Value>>)
    ensures r.Ok? ==> |r.rest| < |t|
    decreases |t|, 1
  {
    if t == [] then Fail
    else if t[0] == ']' then Ok([], t[1..])
    else if !first && t[0] != ',' then Fail
    else
      var v := ParseValue(if first then t else t[1..]);
      if v.Fail? then Fail else
        var r := ParseItems(v.rest, false);
        if r.Fail? then Fail else Ok([v.value] + r.value, r.rest)
  }

  /** The rest of an object; a repeated key keeps its last value. */
  function ParseMembers(t: string, first: bool): (r: Parsed<map<string, Value>>)
    ensures r.Ok? ==> |r.rest| < |t|
    decreases |t|, 1
  {
    if t == [] then Fail
    else if t[0] == '}' then Ok(map[], t[1..])
    else if !first && t[0] != ',' then Fail
    else
      var u := if first then t else t[1..];
      if u == [] || u[0] != '"' then Fail else
        var k := ParseChars(u[1..]);
        if k.Fail? || k.rest == [] || k.rest[0] != ':' then Fail else
          var v := ParseValue(k.rest[1..]);
          if v.Fail? then Fail else
            var r := ParseMembers(v.rest, false);
            if r.Fail? then Fail else Ok(map[k.value := v.value] + r.value, r.rest)
  }

  /** Decodes a text that is exactly one value. */
  function Parse(t: string): Option<Value> {
    var r := ParseValue(t);
    if r.Ok? && r.rest == [] then Some(r.value) else None
  }
}
