/**
 * What splitting a text into lines does, for every text: each text is lines with their endings,
 * and splitting gives back the lines, whichever endings they have and whether or not the last
 * one is ended.
 */
module LineEndings {
  import opened Text
  import opened Diff

  function Ending(crlf: bool): string {
    if crlf then "\r\n" else "\n"
  }

  /** The lines written one after the other, each but perhaps the last with its ending. */
  function Written(lines: seq<string>, crlf: seq<bool>): string
    requires |crlf| <= |lines| <= |crlf| + 1
  {
    if lines == [] then ""
    else if crlf == [] then lines[0]
    else lines[0] + (Ending(crlf[0]) + Written(lines[1..], crlf[1..]))
  }

  predicate EndsCR(line: string) {
    line != [] && line[|line| - 1] == '\r'
  }

  /** No line holds a line break, and none before a plain one looks as if it had the other kind. */
  ghost predicate Proper(lines: seq<string>, crlf: seq<bool>) {
    && |crlf| <= |lines| <= |crlf| + 1
    && (forall i :: 0 <= i < |lines| ==> '\n' !in lines[i])
    && (forall i :: 0 <= i < |crlf| && !crlf[i] ==> !EndsCR(lines[i]))
  }

  lemma {:induction false} ProperTail(lines: seq<string>, crlf: seq<bool>)
    requires Proper(lines, crlf) && crlf != []
    ensures Proper(lines[1..], crlf[1..])
  {
  }

  lemma {:induction false} DropBreak(crlf: bool, rest: string)
    ensures DropCR(Ending(crlf) + rest) == "\n" + DropCR(rest)
  {
    var t := Ending(crlf) + rest;
    if crlf {
      assert t[0] == '\r' && t[1] == '\n' && t[2..] == rest;
    } else {
      assert t[0] == '\n' && t[1..] == rest;
    }
  }

  lemma {:induction false} DropChar(c: char, t: string)
    requires t != [] && c == '\r' ==> t[0] != '\n'
    ensures DropCR([c] + t) == [c] + DropCR(t)
  {
    assert ([c] + t)[1..] == t;
  }

  /** Dropping carriage returns from one line and its ending. */
  lemma {:induction false} DropLine(line: string, crlf: bool, rest: string)
    requires '\n' !in line && (!crlf ==> !EndsCR(line))
    ensures DropCR(line + (Ending(crlf) + rest)) == line + ("\n" + DropCR(rest))
    decreases |line|
  {
    hide DropCR;
    if line == [] {
      DropBreak(crlf, rest);
      assert [] + (Ending(crlf) + rest) == Ending(crlf) + rest;
      assert [] + ("\n" + DropCR(rest)) == "\n" + DropCR(rest);
    } else {
      var tail := line[1..] + (Ending(crlf) + rest);
      assert line == [line[0]] + line[1..];
      assert tail[0] == if |line| > 1 then line[1] else Ending(crlf)[0];
      DropChar(line[0], tail);
      DropLine(line[1..], crlf, rest);
      assert line + (Ending(crlf) + rest) == [line[0]] + tail;
      assert [line[0]] + (line[1..] + ("\n" + DropCR(rest))) == line + ("\n" + DropCR(rest));
    }
  }

  lemma {:induction false} DropLast(line: string)
    requires '\n' !in line
    ensures DropCR(line) == line
  {
    if line != [] {
      DropLast(line[1..]);
      assert line == [line[0]] + line[1..];
    }
  }

  /** All endings plain. */
  function Plain(n: nat): seq<bool> {
    seq(n, _ => false)
  }

  lemma {:induction false} DropWritten(lines: seq<string>, crlf: seq<bool>)
    requires Proper(lines, crlf)
    ensures DropCR(Written(lines, crlf)) == Written(lines, Plain(|crlf|))
    decreases |lines|
  {
    if crlf != [] {
      ProperTail(lines, crlf);
      DropLine(lines[0], crlf[0], Written(lines[1..], crlf[1..]));
      DropWritten(lines[1..], crlf[1..]);
      assert Plain(|crlf|)[1..] == Plain(|crlf| - 1);
    } else if lines != [] {
      DropLast(lines[0]);
    }
  }

  /** With plain endings a text is the joined lines, with a final newline if the last is ended. */
  lemma {:induction false} PlainIsJoin(lines: seq<string>, n: nat)
    requires lines != [] && n <= |lines| <= n + 1
    ensures Written(lines, Plain(n)) == Join(lines, '\n') + if n == |lines| then "\n" else ""
    decreases |lines|
  {
    if n > 0 {
      assert Plain(n)[1..] == Plain(n - 1);
      if |lines| > 1 {
        PlainIsJoin(lines[1..], n - 1);
      } else {
        assert Written(lines[1..], Plain(n)[1..]) == "";
      }
    }
  }

  lemma {:induction false} JoinEnds(lines: seq<string>)
    requires lines != []
    ensures var last, t := lines[|lines| - 1], Join(lines, '\n');
            last != [] ==> t != [] && t[|t| - 1] == last[|last| - 1]
    ensures Join(lines, '\n') == [] <==> lines == [[]]
    ensures |lines| > 1 && lines[|lines| - 1] == [] ==> Join(lines, '\n') == Join(lines[..|lines| - 1], '\n') + "\n"
    decreases |lines|
  {
    if |lines| > 1 {
      JoinEnds(lines[1..]);
      var n := |lines| - 1;
      if lines[n] == [] {
        if n == 1 {
          assert lines[1..] == [[]] && lines[..1] == [lines[0]];
        } else {
          assert lines[1..][..n - 1] == lines[..n][1..];
        }
      }
    }
  }

  /** A final line that is empty and not ended is no line, and neither is a single empty one. */
  function Shown(lines: seq<string>, ended: bool): seq<string> {
    var kept := if !ended && lines != [] && lines[|lines| - 1] == [] then lines[..|lines| - 1] else lines;
    if kept == [[]] then [] else kept
  }

  lemma {:induction false} TrimEnded(t: string)
    ensures TrimNewline(t + "\n") == t
    ensures t != [] && t[|t| - 1] != '\n' ==> TrimNewline(t) == t
  {
    assert (t + "\n")[..|t|] == t;
  }

  lemma {:induction false} SplitPlain(lines: seq<string>, n: nat)
    requires lines != [] && n <= |lines| <= n + 1 && forall i :: 0 <= i < |lines| ==> '\n' !in lines[i]
    ensures var t := TrimNewline(Written(lines, Plain(n)));
            (if t == [] then [] else Split(t, '\n')) == Shown(lines, n == |lines|)
  {
    hide TrimNewline, Split, Join;
    PlainIsJoin(lines, n);
    JoinEnds(lines);
    var whole, m := Join(lines, '\n'), |lines| - 1;
    if n == |lines| {
      TrimEnded(whole);
      SplitJoin(lines, '\n');
    } else {
      assert whole + "" == whole;
      if lines[m] != [] {
        TrimEnded(whole);
        SplitJoin(lines, '\n');
      } else if m > 0 {
        TrimEnded(Join(lines[..m], '\n'));
        JoinEnds(lines[..m]);
        SplitJoin(lines[..m], '\n');
      } else {
        TrimNothing();
      }
    }
  }

  lemma {:induction false} TrimNothing()
    ensures TrimNewline([]) == []
  {
  }

  /** Splitting what was written gives the lines, but for a last empty one that is not ended, and for a single empty one. */
  lemma {:induction false} SplitWritten(lines: seq<string>, crlf: seq<bool>)
    requires Proper(lines, crlf)
    ensures SplitLines(Written(lines, crlf)) == Shown(lines, |crlf| == |lines|)
  {
    hide TrimNewline, DropCR, Split;
    DropWritten(lines, crlf);
    if lines == [] {
      TrimNothing();
    } else {
      SplitPlain(lines, |crlf|);
    }
  }

  /** Every text is written of some lines, so SplitWritten says what splitting any text gives. */
  lemma {:induction false} EveryTextIsWritten(s: string) returns (lines: seq<string>, crlf: seq<bool>)
    ensures Proper(lines, crlf) && Written(lines, crlf) == s && |lines| == |crlf| + 1
  {
    if s == [] {
      lines, crlf := [[]], [];
    } else {
      var ls, es := EveryTextIsWritten(s[1..]);
      if s[0] == '\n' {
        lines, crlf := [[]] + ls, [false] + es;
        assert lines[1..] == ls && crlf[1..] == es;
        assert [] + ("\n" + Written(ls, es)) == s;
      } else if s[0] == '\r' && es != [] && ls[0] == [] && !es[0] {
        lines, crlf := ls, [true] + es[1..];
        assert crlf[1..] == es[1..];
        assert [] + (Ending(false) + Written(ls[1..], es[1..])) == s[1..];
        assert [] + (Ending(true) + Written(ls[1..], es[1..])) == s;
      } else {
        var first := [s[0]] + ls[0];
        lines, crlf := [first] + ls[1..], es;
        assert lines[1..] == ls[1..];
        if es != [] {
          assert first + (Ending(es[0]) + Written(ls[1..], es[1..])) == [s[0]] + (ls[0] + (Ending(es[0]) + Written(ls[1..], es[1..])));
          assert EndsCR(first) ==> EndsCR(ls[0]) || (ls[0] == [] && s[0] == '\r');
        }
      }
    }
  }

  /** The three texts without a line. */
  lemma {:induction false} NoLines()
    ensures SplitLines("") == [] && SplitLines("\n") == [] && SplitLines("\r\n") == []
  {
    SplitWritten([], []);
    SplitWritten([""], [false]);
    SplitWritten([""], [true]);
    assert [""][1..] == [] && [false][1..] == [] && [true][1..] == [];
    assert "" + (Ending(false) + "") == "\n" && "" + (Ending(true) + "") == "\r\n";
  }
}
