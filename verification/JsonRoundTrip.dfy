/** The decoder inverts the canonical writer, so the canonical text determines the value. */
module JsonRoundTrip {
  import opened Order
  import opened Json
  import opened Wrappers

  lemma {:induction false} HexRoundTrip(n: int)
    requires 0 <= n < 16
    ensures HexValue(HexDigit(n)) == Some(n)
  {
  }

  lemma {:induction false} HexDigitsOf(n: int)
    requires 0 <= n < 0x10000
    ensures n / 4096 * 4096 + n / 256 % 16 * 256 + n / 16 % 16 * 16 + n % 16 == n
  {
    var a := n / 16;
    var b := n / 256;
    assert b == a / 16 && n / 4096 == b / 16;
    assert n == 16 * a + n % 16 && a == 16 * b + a % 16 && b == 16 * (n / 4096) + b % 16;
  }

  lemma {:induction false} Hex4RoundTrip(n: int)
    requires 0 <= n < 0x10000
    ensures var h := Hex4(n);
            HexValue(h[0]) == Some(n / 4096) && HexValue(h[1]) == Some(n / 256 % 16) &&
            HexValue(h[2]) == Some(n / 16 % 16) && HexValue(h[3]) == Some(n % 16)
  {
    HexRoundTrip(n / 4096);
    HexRoundTrip(n / 256 % 16);
    HexRoundTrip(n / 16 % 16);
    HexRoundTrip(n % 16);
  }

  lemma {:induction false} UnicodeEscape(c: char, t: string)
    requires c as int < 0x10000
    ensures ParseChars(("\\u" + Hex4(c as int)) + t) == Prepend(c, ParseChars(t))
  {
    var h := Hex4(c as int);
    var u := ("\\u" + h) + t;
    Hex4RoundTrip(c as int);
    HexDigitsOf(c as int);
    assert u[0] == '\\' && u[1] == 'u' && u[6..] == t;
    assert u[2] == h[0] && u[3] == h[1] && u[4] == h[2] && u[5] == h[3];
  }

  lemma {:induction false} ShortEscape(e: string, c: char, t: string)
    requires |e| == 2 && e[0] == '\\' && e[1] != 'u' && Unescape(e[1]) == Some(c)
    ensures ParseChars(e + t) == Prepend(c, ParseChars(t))
  {
    var u := e + t;
    assert u[0] == '\\' && u[1] == e[1] && u[2..] == t;
  }

  /** Whatever way a character is escaped, the decoder reads that one character back. */
  lemma {:induction false} EscapeRoundTrip(c: char, html: bool, t: string)
    ensures ParseChars(Escape(c, html) + t) == Prepend(c, ParseChars(t))
  {
    var e := Escape(c, html);
    var u := e + t;
    if |e| == 6 {
      UnicodeEscape(c, t);
    } else if |e| == 2 {
      ShortEscape(e, c, t);
    } else {
      assert u[0] == c && u[1..] == t;
    }
  }

  lemma {:induction false} CharsRoundTrip(s: string, html: bool, t: string)
    ensures ParseChars(EscapeAll(s, html) + ("\"" + t)) == Ok(s, t)
  {
    var close := "\"" + t;
    if s == [] {
      assert EscapeAll(s, html) + close == close;
      assert close[1..] == t;
    } else {
      hide Escape, ParseChars;
      var e, rest := Escape(s[0], html), EscapeAll(s[1..], html);
      assert EscapeAll(s, html) + close == e + (rest + close);
      EscapeRoundTrip(s[0], html, rest + close);
      CharsRoundTrip(s[1..], html, t);
      assert s == [s[0]] + s[1..];
    }
  }

  /** A text after which a number literal has certainly ended. */
  predicate Delimited(t: string) {
    t == [] || !NumChar(t[0])
  }

  lemma {:induction false} NumLengthExact(n: string, t: string)
    requires AllNumChars(n) && Delimited(t)
    ensures NumLength(n + t) == |n|
  {
    if n == [] {
      assert n + t == t;
    } else {
      assert (n + t)[1..] == n[1..] + t;
      NumLengthExact(n[1..], t);
    }
  }

  lemma {:induction false} NumeralRoundTrip(lit: Numeral, t: string)
    requires Delimited(t)
    ensures ParseValue(lit + t) == Ok(Num(lit), t)
  {
    NumeralChars(lit);
    NumLengthExact(lit, t);
    var u := lit + t;
    assert u[0] == lit[0];
    assert u[..|lit|] == lit && u[|lit|..] == t;
  }

  lemma {:induction false} StringRoundTrip(s: string, html: bool, t: string)
    ensures ParseValue(Quote(s, html) + t) == Ok(Str(s), t)
  {
    var u := Quote(s, html) + t;
    assert u == "\"" + (EscapeAll(s, html) + ("\"" + t));
    assert u[0] == '"' && u[1..] == EscapeAll(s, html) + ("\"" + t);
    CharsRoundTrip(s, html, t);
  }

  /** No value's text can be mistaken for the end of an array or object, or for a comma. */
  lemma {:induction false} FirstChar(v: Value, html: bool)
    ensures var c := Canonical(v, html);
            c != [] && c[0] != ']' && c[0] != '}' && c[0] != ','
  {
    if v.Num? {
      NumeralChars(v.lit);
    }
  }

  lemma {:induction false} AtomRoundTrip(v: Value, html: bool, t: string)
    requires v.Null? || v.Bool?
    ensures ParseValue(Canonical(v, html) + t) == Ok(v, t)
  {
    var c := Canonical(v, html);
    assert (c + t)[|c|..] == t;
    assert c <= c + t;
    assert (c + t)[0] == c[0];
  }

  /** The decoder reads back exactly the written value, whatever text follows it. */
  lemma {:induction false} ValueRoundTrip(v: Value, html: bool, t: string)
    requires Delimited(t)
    ensures ParseValue(Canonical(v, html) + t) == Ok(v, t)
    decreases v, 2, 0
  {
    hide ParseValue, ParseItems, ParseMembers;
    match v
    case Null => AtomRoundTrip(v, html, t);
    case Bool(_) => AtomRoundTrip(v, html, t);
    case Num(lit) => NumeralRoundTrip(lit, t);
    case Str(s) => StringRoundTrip(s, html, t);
    case Arr(items) =>
      ItemsRoundTrip(v, 0, html, t);
      assert items[0..] == items;
      ArrayText(v, html, t);
    case Obj(fields) =>
      var keys := SortedKeys(fields.Keys);
      MembersRoundTrip(v, keys, 0, html, t);
      assert keys[0..] == keys;
      assert Pick(fields, keys) == fields;
      ObjectText(v, keys, html, t);
  }

  lemma {:induction false} ArrayText(v: Value, html: bool, t: string)
    requires v.Arr?
    requires ParseItems(ItemsFrom(v, 0, html) + ("]" + t), true) == Ok(v.items, t)
    ensures ParseValue(Canonical(v, html) + t) == Ok(v, t)
  {
    hide ParseItems, ParseValue, ItemsFrom;
    BracketStep(ItemsFrom(v, 0, html) + ("]" + t), v.items, t);
    Reassociate("[", ItemsFrom(v, 0, html), "]", t);
  }

  lemma {:induction false} BracketStep(body: string, items: seq<Value>, t: string)
    requires ParseItems(body, true) == Ok(items, t)
    ensures ParseValue("[" + body) == Ok(Arr(items), t)
  {
    assert ("[" + body)[0] == '[' && ("[" + body)[1..] == body;
  }

  lemma {:induction false} ObjectText(v: Value, keys: seq<string>, html: bool, t: string)
    requires v.Obj? && keys == SortedKeys(v.fields.Keys)
    requires ParseMembers(MembersFrom(v, keys, 0, html) + ("}" + t), true) == Ok(v.fields, t)
    ensures ParseValue(Canonical(v, html) + t) == Ok(v, t)
  {
    hide ParseMembers, ParseValue, MembersFrom;
    var body := MembersFrom(v, keys, 0, html);
    BraceStep(body + ("}" + t), v.fields, t);
    Reassociate("{", body, "}", t);
  }

  lemma {:induction false} Reassociate(a: string, b: string, c: string, d: string)
    ensures (a + (b + c)) + d == a + (b + (c + d))
  {
  }

  lemma {:induction false} BraceStep(body: string, fields: map<string, Value>, t: string)
    requires ParseMembers(body, true) == Ok(fields, t)
    ensures ParseValue("{" + body) == Ok(Obj(fields), t)
  {
    assert ("{" + body)[0] == '{' && ("{" + body)[1..] == body;
  }

  lemma {:induction false} ItemsRoundTrip(v: Value, i: nat, html: bool, t: string)
    requires v.Arr? && i <= |v.items|
    ensures ParseItems(ItemsFrom(v, i, html) + ("]" + t), i == 0) == Ok(v.items[i..], t)
    decreases v, 1, |v.items| - i
  {
    hide ParseValue, ParseItems, Canonical;
    var u := ItemsFrom(v, i, html) + ("]" + t);
    if i == |v.items| {
      assert u == "]" + t;
      ItemsEnd(i == 0, t);
      assert v.items[i..] == [];
    } else {
      var item, tail := Canonical(v.items[i], html), ItemsFrom(v, i + 1, html) + ("]" + t);
      TailDelimited(v, i + 1, html, t);
      ValueRoundTrip(v.items[i], html, tail);
      ItemsRoundTrip(v, i + 1, html, t);
      FirstChar(v.items[i], html);
      ItemText(v, i, html, "]" + t);
      ItemStep(u, i == 0, item + tail, v.items[i], tail, v.items[i + 1..], t);
      assert v.items[i..] == [v.items[i]] + v.items[i + 1..];
    }
  }

  lemma {:induction false} ItemsEnd(first: bool, t: string)
    ensures ParseItems("]" + t, first) == Ok([], t)
  {
    assert ("]" + t)[1..] == t;
  }

  /** The shape of one item's text as the decoder meets it. */
  lemma {:induction false} ItemText(v: Value, i: nat, html: bool, close: string)
    requires v.Arr? && i < |v.items|
    ensures var u := ItemsFrom(v, i, html) + close;
            var w := Canonical(v.items[i], html) + (ItemsFrom(v, i + 1, html) + close);
            u == if i == 0 then w else "," + w
  {
    hide Canonical;
  }

  /** One turn of the decoder's item loop. */
  lemma {:induction false} ItemStep(u: string, first: bool, w: string, item: Value, tail: string, items: seq<Value>, t: string)
    requires w != [] && w[0] != ']' && u == if first then w else "," + w
    requires ParseValue(w) == Ok(item, tail)
    requires ParseItems(tail, false) == Ok(items, t)
    ensures ParseItems(u, first) == Ok([item] + items, t)
  {
    if !first {
      assert u[1..] == w;
    }
  }

  lemma {:induction false} TailDelimited(v: Value, i: nat, html: bool, t: string)
    requires v.Arr? && 0 < i <= |v.items|
    ensures Delimited(ItemsFrom(v, i, html) + ("]" + t))
  {
  }

  lemma {:induction false} MembersDelimited(v: Value, keys: seq<string>, i: nat, html: bool, t: string)
    requires v.Obj? && 0 < i <= |keys| && forall k :: k in keys ==> k in v.fields
    ensures Delimited(MembersFrom(v, keys, i, html) + ("}" + t))
  {
  }

  ghost function Pick(fields: map<string, Value>, keys: seq<string>): map<string, Value>
    requires forall k :: k in keys ==> k in fields
  {
    map k | k in keys :: fields[k]
  }

  lemma {:induction false} PickNone(fields: map<string, Value>, keys: seq<string>)
    requires keys == []
    ensures Pick(fields, keys) == map[]
  {
  }

  lemma {:induction false} PickStep(fields: map<string, Value>, keys: seq<string>, i: nat)
    requires i < |keys| && forall k :: k in keys ==> k in fields
    ensures Pick(fields, keys[i..]) == map[keys[i] := fields[keys[i]]] + Pick(fields, keys[i + 1..])
  {
    assert keys[i..] == [keys[i]] + keys[i + 1..];
  }

  lemma {:induction false} MembersRoundTrip(v: Value, keys: seq<string>, i: nat, html: bool, t: string)
    requires v.Obj? && i <= |keys| && forall k :: k in keys ==> k in v.fields
    ensures ParseMembers(MembersFrom(v, keys, i, html) + ("}" + t), i == 0)
         == Ok(Pick(v.fields, keys[i..]), t)
    decreases v, 1, |keys| - i
  {
    hide ParseValue, ParseMembers, Canonical, Key, Pick;
    var u := MembersFrom(v, keys, i, html) + ("}" + t);
    if i == |keys| {
      assert u == "}" + t;
      MembersEnd(i == 0, t);
      PickNone(v.fields, keys[i..]);
    } else {
      var k, close := keys[i], "}" + t;
      var tail := MembersFrom(v, keys, i + 1, html);
      var rest := Pick(v.fields, keys[i + 1..]);
      MembersDelimited(v, keys, i + 1, html, t);
      ValueRoundTrip(v.fields[k], html, tail + close);
      MembersRoundTrip(v, keys, i + 1, html, t);
      MemberStep(k, v.fields[k], i > 0, html, Canonical(v.fields[k], html), tail, close, rest, t);
      assert u == (Key(k, i > 0, html) + Canonical(v.fields[k], html) + tail) + close;
      PickStep(v.fields, keys, i);
    }
  }

  lemma {:induction false} MembersEnd(first: bool, t: string)
    ensures ParseMembers("}" + t, first) == Ok(map[], t)
  {
    assert ("}" + t)[1..] == t;
  }

  /** One turn of the decoder's member loop. */
  lemma {:induction false} MemberStep(k: string, item: Value, comma: bool, html: bool, text: string, tail: string, close: string,
                   rest: map<string, Value>, t: string)
    requires ParseValue(text + (tail + close)) == Ok(item, tail + close)
    requires ParseMembers(tail + close, false) == Ok(rest, t)
    ensures ParseMembers((Key(k, comma, html) + text + tail) + close, !comma)
         == Ok(map[k := item] + rest, t)
  {
    MemberText(k, comma, html, text, tail, close);
    var after := text + (tail + close);
    CharsRoundTrip(k, html, ":" + after);
    assert (":" + after)[1..] == after;
  }

  /** The shape of one member's text as the decoder meets it. */
  lemma {:induction false} MemberText(k: string, comma: bool, html: bool, item: string, tail: string, close: string)
    ensures var u := (Key(k, comma, html) + item + tail) + close;
            u != [] && u[0] == (if comma then ',' else '"') &&
            var w := if comma then u[1..] else u;
            w != [] && w[0] == '"' &&
            w[1..] == EscapeAll(k, html) + ("\"" + (":" + (item + (tail + close))))
  {
    var u := (Key(k, comma, html) + item + tail) + close;
    var w := "\"" + (EscapeAll(k, html) + ("\"" + (":" + (item + (tail + close)))));
    if comma {
      assert u == "," + w;
      assert u[1..] == w;
    } else {
      assert u == w;
    }
    assert w[1..] == EscapeAll(k, html) + ("\"" + (":" + (item + (tail + close))));
  }

  /** The decoder inverts the canonical writer. */
  lemma {:induction false} CanonicalRoundTrip(v: Value, html: bool)
    ensures Parse(Canonical(v, html)) == Some(v)
  {
    ValueRoundTrip(v, html, "");
    assert Canonical(v, html) + "" == Canonical(v, html);
  }

  /** Canonical writing is unambiguous: equal text exactly for equal values. */
  lemma {:induction false} CanonicalInjective(v: Value, w: Value, html: bool)
    ensures Canonical(v, html) == Canonical(w, html) <==> v == w
  {
    CanonicalRoundTrip(v, html);
    CanonicalRoundTrip(w, html);
  }

  // ----- What is escaped, and how -----

  /** Characters that canonical text escapes: control characters, and for HTML those that could end a script. */
  predicate Escaped(c: char, html: bool) {
    c as int < 32 || c == '"' || c == '\\' || (html && Unsafe(c))
  }

  predicate Unsafe(c: char) {
    c == '<' || c == '>' || c == '&' || c as int == 0x2028 || c as int == 0x2029
  }

  /** The hexadecimal digits of a unit, in lower case. */
  ghost predicate IsHexOf(h: string, n: int) {
    && |h| == 4 && IsLower(h)
    && HexValue(h[0]).Some? && HexValue(h[1]).Some? && HexValue(h[2]).Some? && HexValue(h[3]).Some?
    && HexValue(h[0]).value * 4096 + HexValue(h[1]).value * 256 + HexValue(h[2]).value * 16 + HexValue(h[3]).value == n
  }

  /** Characters that have an escape of two characters. */
  predicate HasShort(c: char) {
    c in "\"\\\n\r\t" || c as int == 8 || c as int == 12
  }

  predicate IsLower(h: string) {
    forall x :: x in h ==> '0' <= x <= '9' || 'a' <= x <= 'f'
  }

  /** A character is written as itself, as a short escape, or by its number. */
  lemma {:induction false} EscapeExactly(c: char, html: bool)
    ensures var e := Escape(c, html);
            if !Escaped(c, html) then e == [c]
            else if HasShort(c) then |e| == 2 && e[0] == '\\' && e[1] != '/' && Unescape(e[1]) == Some(c)
            else |e| == 6 && e[..2] == "\\u" && IsHexOf(e[2..], c as int)
  {
    if Escaped(c, html) && !HasShort(c) {
      HexExactly(c as int);
      hide Hex4, IsHexOf, HasShort, Escaped, Unescape;
      assert Escape(c, html) == "\\u" + Hex4(c as int);
      assert ("\\u" + Hex4(c as int))[2..] == Hex4(c as int);
    } else {
      hide Hex4, IsHexOf;
    }
  }

  /** A text without such characters is written as it is. */
  lemma {:induction false} PlainTextStays(s: string, html: bool)
    requires forall c :: c in s ==> !Escaped(c, html)
    ensures EscapeAll(s, html) == s
  {
    hide Escaped, Escape;
    if s != [] {
      EscapeExactly(s[0], html);
      PlainTextStays(s[1..], html);
      assert s == [s[0]] + s[1..];
    }
  }

  lemma {:induction false} HexExactly(n: int)
    requires 0 <= n < 0x10000
    ensures IsHexOf(Hex4(n), n)
  {
    hide Hex4, HexValue, IsLower, Unsafe;
    Hex4RoundTrip(n);
    HexLower(n);
  }

  lemma {:induction false} HexLower(n: int)
    requires 0 <= n < 0x10000
    ensures IsLower(Hex4(n)) && forall x :: x in Hex4(n) ==> x as int >= 32 && !Unsafe(x)
  {
    forall k | 0 <= k < 16 ensures '0' <= HexDigit(k) <= '9' || 'a' <= HexDigit(k) <= 'f' {
    }
    hide HexDigit;
  }

  /** No control character, and with HTML escaping no unsafe one. */
  predicate Plain(t: string, html: bool) {
    forall x :: x in t ==> x as int >= 32 && !(html && Unsafe(x))
  }

  lemma {:induction false} PlainJoins(a: string, b: string, html: bool)
    requires Plain(a, html) && Plain(b, html)
    ensures Plain(a + b, html)
  {
  }

  lemma {:induction false} EscapeIsPlain(s: string, html: bool)
    ensures Plain(EscapeAll(s, html), html)
  {
    hide Plain, Escape;
    if s != [] {
      EscapeIsPlain(s[1..], html);
      CharIsPlain(s[0], html);
      PlainJoins(Escape(s[0], html), EscapeAll(s[1..], html), html);
    } else {
      assert Plain([], html) by { NothingIsPlain(html); }
    }
  }

  lemma {:induction false} NothingIsPlain(html: bool)
    ensures Plain([], html)
  {
  }

  lemma {:induction false} CharIsPlain(c: char, html: bool)
    ensures Plain(Escape(c, html), html)
  {
    if |Escape(c, html)| == 6 {
      HexLower(c as int);
    }
    hide Hex4;
  }

  /** Canonical text is one line: every control character in it is escaped, and every unsafe one if asked for. */
  lemma {:induction false} CanonicalIsPlain(v: Value, html: bool)
    ensures Plain(Canonical(v, html), html)
    decreases v, 2, 0
  {
    hide EscapeAll, Plain;
    match v
    case Null => WordsArePlain(html);
    case Bool(_) => WordsArePlain(html);
    case Num(lit) => NumeralIsPlain(lit, html);
    case Str(s) =>
      EscapeIsPlain(s, html);
      Enclosed("\"", EscapeAll(s, html), "\"", html);
    case Arr(_) =>
      ItemsIsPlain(v, 0, html);
      Enclosed("[", ItemsFrom(v, 0, html), "]", html);
    case Obj(fields) =>
      MembersIsPlain(v, SortedKeys(fields.Keys), 0, html);
      Enclosed("{", MembersFrom(v, SortedKeys(fields.Keys), 0, html), "}", html);
  }

  lemma {:induction false} WordsArePlain(html: bool)
    ensures Plain("null", html) && Plain("true", html) && Plain("false", html)
  {
  }

  lemma {:induction false} NumeralIsPlain(lit: Numeral, html: bool)
    ensures Plain(lit, html)
  {
    NumeralChars(lit);
    hide IsNumeral;
    forall x | x in lit ensures x as int >= 32 && !Unsafe(x) {
      assert NumChar(x);
    }
  }

  lemma {:induction false} Enclosed(open: string, t: string, close: string, html: bool)
    requires Plain(t, html) && open in ["\"", "[", "{"] && close in ["\"", "]", "}"]
    ensures Plain(open + t + close, html) && Plain(open + (t + close), html)
  {
  }

  lemma {:induction false} ItemsIsPlain(v: Value, i: nat, html: bool)
    requires v.Arr? && i <= |v.items|
    ensures Plain(ItemsFrom(v, i, html), html)
    decreases v, 1, |v.items| - i
  {
    if i < |v.items| {
      CanonicalIsPlain(v.items[i], html);
      ItemsIsPlain(v, i + 1, html);
    }
  }

  lemma {:induction false} MembersIsPlain(v: Value, keys: seq<string>, i: nat, html: bool)
    requires v.Obj? && i <= |keys| && forall k :: k in keys ==> k in v.fields
    ensures Plain(MembersFrom(v, keys, i, html), html)
    decreases v, 1, |keys| - i
  {
    if i < |keys| {
      EscapeIsPlain(keys[i], html);
      CanonicalIsPlain(v.fields[keys[i]], html);
      MembersIsPlain(v, keys, i + 1, html);
    }
  }
}
