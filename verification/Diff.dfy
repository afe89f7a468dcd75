/**
 * The line diff: a longest-common-subsequence table filled backwards, a greedy walk over
 * it, and the unified text.  The walk is proved to be a shortest edit script, and the
 * printed text to carry enough to turn the old lines into the new ones.
 */
module Diff {
  import opened Text

  // ----- Splitting a text into lines -----

  /** strings.ReplaceAll(s, "\r\n", "\n"). */
  function DropCR(s: string): string {
    if s == [] then []
    else if |s| >= 2 && s[0] == '\r' && s[1] == '\n' then ['\n'] + DropCR(s[2..])
    else [s[0]] + DropCR(s[1..])
  }

  /** strings.TrimSuffix(s, "\n"). */
  function TrimNewline(s: string): string {
    if s != [] && s[|s| - 1] == '\n' then s[..|s| - 1] else s
  }

  function SplitLines(s: string): seq<string> {
    var t := TrimNewline(DropCR(s));
    if t == [] then [] else Split(t, '\n')
  }

  lemma {:induction false} SplitLinesGivesLines(s: string)
    ensures Pieces(SplitLines(s), '\n')
  {
    SplitGivesPieces(TrimNewline(DropCR(s)), '\n');
  }

  // ----- Edit scripts -----

  datatype Op = Context | Remove | Add

  /** One output line; a line number the operation does not have is zero. */
  datatype Line = Line(op: Op, oldLine: nat, newLine: nat, text: string)

  /** The old side of a script: its context and removed lines. */
  function OldSide(script: seq<Line>): seq<string> {
    if script == [] then []
    else (if script[0].op.Add? then [] else [script[0].text]) + OldSide(script[1..])
  }

  /** The new side of a script: its context and added lines. */
  function NewSide(script: seq<Line>): seq<string> {
    if script == [] then []
    else (if script[0].op.Remove? then [] else [script[0].text]) + NewSide(script[1..])
  }

  /** How many lines a script keeps. */
  function Kept(script: seq<Line>): nat {
    if script == [] then 0 else (if script[0].op.Context? then 1 else 0) + Kept(script[1..])
  }

  /** How many lines a script adds or removes. */
  function Cost(script: seq<Line>): nat {
    if script == [] then 0 else (if script[0].op.Context? then 0 else 1) + Cost(script[1..])
  }

  ghost predicate Transforms(script: seq<Line>, a: seq<string>, b: seq<string>) {
    OldSide(script) == a && NewSide(script) == b
  }

  /** Each kept line counts on both sides, each other line on one. */
  lemma {:induction false} CostBalance(script: seq<Line>)
    ensures Cost(script) + 2 * Kept(script) == |OldSide(script)| + |NewSide(script)|
  {
    if script != [] {
      CostBalance(script[1..]);
    }
  }

  // ----- The table -----

  /** What the table holds at (i, j). */
  function Lcs(a: seq<string>, b: seq<string>, i: nat, j: nat): nat
    requires i <= |a| && j <= |b|
    decreases |a| - i + |b| - j
  {
    if i == |a| || j == |b| then 0
    else if a[i] == b[j] then Lcs(a, b, i + 1, j + 1) + 1
    else if Lcs(a, b, i + 1, j) >= Lcs(a, b, i, j + 1) then Lcs(a, b, i + 1, j)
    else Lcs(a, b, i, j + 1)
  }

  lemma {:induction false} LcsSteps(a: seq<string>, b: seq<string>, i: nat, j: nat)
    requires i <= |a| && j <= |b|
    ensures i < |a| ==> Lcs(a, b, i + 1, j) <= Lcs(a, b, i, j) <= Lcs(a, b, i + 1, j) + 1
    ensures j < |b| ==> Lcs(a, b, i, j + 1) <= Lcs(a, b, i, j) <= Lcs(a, b, i, j + 1) + 1
    decreases |a| - i + |b| - j
  {
    if i < |a| && j < |b| {
      LcsSteps(a, b, i + 1, j);
      LcsSteps(a, b, i, j + 1);
      LcsSteps(a, b, i + 1, j + 1);
    }
  }

  /** No edit script between the two suffixes keeps more lines than the table says. */
  lemma {:induction false} KeptAtMostLcs(script: seq<Line>, a: seq<string>, b: seq<string>, i: nat, j: nat)
    requires i <= |a| && j <= |b| && Transforms(script, a[i..], b[j..])
    ensures Kept(script) <= Lcs(a, b, i, j)
    decreases |script|
  {
    if script != [] {
      var rest := script[1..];
      LcsSteps(a, b, i, j);
      match script[0].op
      case Context =>
        assert OldSide(rest) == a[i..][1..] == a[i + 1..];
        assert NewSide(rest) == b[j..][1..] == b[j + 1..];
        assert a[i..][0] == b[j..][0];
        KeptAtMostLcs(rest, a, b, i + 1, j + 1);
      case Remove =>
        assert OldSide(rest) == a[i..][1..] == a[i + 1..];
        KeptAtMostLcs(rest, a, b, i + 1, j);
      case Add =>
        assert NewSide(rest) == b[j..][1..] == b[j + 1..];
        KeptAtMostLcs(rest, a, b, i, j + 1);
    }
  }

  // ----- The walk -----

  /** The output from position (i, j) on. */
  function Walk(a: seq<string>, b: seq<string>, i: nat, j: nat): seq<Line>
    requires i <= |a| && j <= |b|
    decreases |a| - i + |b| - j
  {
    if i < |a| && j < |b| then
      if a[i] == b[j] then [Line(Context, i + 1, j + 1, a[i])] + Walk(a, b, i + 1, j + 1)
      else if Lcs(a, b, i + 1, j) >= Lcs(a, b, i, j + 1) then [Line(Remove, i + 1, 0, a[i])] + Walk(a, b, i + 1, j)
      else [Line(Add, 0, j + 1, b[j])] + Walk(a, b, i, j + 1)
    else if i < |a| then [Line(Remove, i + 1, 0, a[i])] + Walk(a, b, i + 1, j)
    else if j < |b| then [Line(Add, 0, j + 1, b[j])] + Walk(a, b, i, j + 1)
    else []
  }

  lemma {:induction false} LcsBorder(a: seq<string>, b: seq<string>)
    ensures forall j :: 0 <= j <= |b| ==> Lcs(a, b, |a|, j) == 0
    ensures forall i :: 0 <= i <= |a| ==> Lcs(a, b, i, |b|) == 0
  {
  }

  lemma {:induction false} LcsRecurrence(a: seq<string>, b: seq<string>, i: nat, j: nat)
    requires i < |a| && j < |b|
    ensures Lcs(a, b, i, j) ==
            if a[i] == b[j] then Lcs(a, b, i + 1, j + 1) + 1
            else if Lcs(a, b, i + 1, j) >= Lcs(a, b, i, j + 1) then Lcs(a, b, i + 1, j)
            else Lcs(a, b, i, j + 1)
  {
  }

  /** The two nested loops that fill the table from its last row and column. */
  method FillTable(a: seq<string>, b: seq<string>) returns (dp: array2<nat>)
    ensures fresh(dp) && dp.Length0 == |a| + 1 && dp.Length1 == |b| + 1
    ensures forall i, j :: 0 <= i <= |a| && 0 <= j <= |b| ==> dp[i, j] == Lcs(a, b, i, j)
  {
    hide Lcs;
    LcsBorder(a, b);
    var n, m := |a|, |b|;
    dp := new nat[n + 1, m + 1]((_, _) => 0);
    assert forall r, c :: 0 <= r <= n && 0 <= c <= m ==> dp[r, c] == 0;
    assert forall c :: 0 <= c <= m ==> dp[n, c] == Lcs(a, b, n, c);
    var i := n - 1;
    while i >= 0
      invariant -1 <= i < n
      invariant forall r, c :: i < r <= n && 0 <= c <= m ==> dp[r, c] == Lcs(a, b, r, c)
      invariant forall r :: 0 <= r <= n ==> dp[r, m] == 0
    {
      var j := m - 1;
      while j >= 0
        invariant -1 <= j < m
        invariant forall r, c :: i < r <= n && 0 <= c <= m ==> dp[r, c] == Lcs(a, b, r, c)
        invariant forall r :: 0 <= r <= n ==> dp[r, m] == 0
        invariant forall c :: j < c <= m ==> dp[i, c] == Lcs(a, b, i, c)
      {
        LcsRecurrence(a, b, i, j);
        if a[i] == b[j] {
          dp[i, j] := dp[i + 1, j + 1] + 1;
        } else if dp[i + 1, j] >= dp[i, j + 1] {
          dp[i, j] := dp[i + 1, j];
        } else {
          dp[i, j] := dp[i, j + 1];
        }
        j := j - 1;
      }
      i := i - 1;
    }
  }

  lemma {:induction false} Push(out: seq<Line>, line: Line, rest: seq<Line>)
    ensures out + ([line] + rest) == (out + [line]) + rest
  {
  }

  lemma {:induction false} WalkNext(a: seq<string>, b: seq<string>, i: nat, j: nat)
    requires i <= |a| && j <= |b|
    ensures Walk(a, b, i, j) ==
      if i < |a| && j < |b| && a[i] == b[j] then [Line(Context, i + 1, j + 1, a[i])] + Walk(a, b, i + 1, j + 1)
      else if i < |a| && (j == |b| || Lcs(a, b, i + 1, j) >= Lcs(a, b, i, j + 1)) then
        [Line(Remove, i + 1, 0, a[i])] + Walk(a, b, i + 1, j)
      else if j < |b| then [Line(Add, 0, j + 1, b[j])] + Walk(a, b, i, j + 1)
      else []
  {
    hide Lcs;
  }

  method Lines(oldText: string, newText: string) returns (out: seq<Line>)
    ensures out == Walk(SplitLines(oldText), SplitLines(newText), 0, 0)
  {
    var a, b := SplitLines(oldText), SplitLines(newText);
    var n, m := |a|, |b|;
    var dp := FillTable(a, b);
    hide Lcs, Walk, SplitLines;
    out := [];
    var i, j := 0, 0;
    var oldLine, newLine := 1, 1;
    ghost var all := Walk(a, b, 0, 0);
    while i < n && j < m
      invariant 0 <= i <= n && 0 <= j <= m && oldLine == i + 1 && newLine == j + 1
      invariant forall r, c :: 0 <= r <= n && 0 <= c <= m ==> dp[r, c] == Lcs(a, b, r, c)
      invariant out + Walk(a, b, i, j) == all
      decreases n - i + m - j
    {
      WalkNext(a, b, i, j);
      if a[i] == b[j] {
        Push(out, Line(Context, oldLine, newLine, a[i]), Walk(a, b, i + 1, j + 1));
        out := out + [Line(Context, oldLine, newLine, a[i])];
        i, j, oldLine, newLine := i + 1, j + 1, oldLine + 1, newLine + 1;
      } else if dp[i + 1, j] >= dp[i, j + 1] {
        Push(out, Line(Remove, oldLine, 0, a[i]), Walk(a, b, i + 1, j));
        out := out + [Line(Remove, oldLine, 0, a[i])];
        i, oldLine := i + 1, oldLine + 1;
      } else {
        Push(out, Line(Add, 0, newLine, b[j]), Walk(a, b, i, j + 1));
        out := out + [Line(Add, 0, newLine, b[j])];
        j, newLine := j + 1, newLine + 1;
      }
    }
    while i < n
      invariant 0 <= i <= n && 0 <= j <= m && (i == n || j == m) && oldLine == i + 1 && newLine == j + 1
      invariant out + Walk(a, b, i, j) == all
    {
      WalkNext(a, b, i, j);
      Push(out, Line(Remove, oldLine, 0, a[i]), Walk(a, b, i + 1, j));
      out := out + [Line(Remove, oldLine, 0, a[i])];
      i, oldLine := i + 1, oldLine + 1;
    }
    while j < m
      invariant i == n && 0 <= j <= m && newLine == j + 1
      invariant out + Walk(a, b, i, j) == all
    {
      WalkNext(a, b, i, j);
      Push(out, Line(Add, 0, newLine, b[j]), Walk(a, b, i, j + 1));
      out := out + [Line(Add, 0, newLine, b[j])];
      j, newLine := j + 1, newLine + 1;
    }
    WalkNext(a, b, n, m);
  }

  /** The walk's old side is the old lines, its new side the new lines, and it keeps as many as the table promises. */
  lemma {:induction false} WalkTransforms(a: seq<string>, b: seq<string>, i: nat, j: nat)
    requires i <= |a| && j <= |b|
    ensures Transforms(Walk(a, b, i, j), a[i..], b[j..])
    ensures Kept(Walk(a, b, i, j)) == Lcs(a, b, i, j)
    decreases |a| - i + |b| - j
  {
    if i < |a| { assert a[i..] == [a[i]] + a[i + 1..]; }
    if j < |b| { assert b[j..] == [b[j]] + b[j + 1..]; }
    WalkNext(a, b, i, j);
    hide Walk;
    var w := Walk(a, b, i, j);
    if w != [] {
      match w[0].op
      case Context =>
        WalkTransforms(a, b, i + 1, j + 1);
        assert w[1..] == Walk(a, b, i + 1, j + 1);
      case Remove =>
        WalkTransforms(a, b, i + 1, j);
        assert w[1..] == Walk(a, b, i + 1, j);
      case Add =>
        WalkTransforms(a, b, i, j + 1);
        assert w[1..] == Walk(a, b, i, j + 1);
    }
  }

  /** The diff is a shortest edit script: it turns old into new, and nothing that does so costs less. */
  lemma {:induction false} DiffIsMinimal(a: seq<string>, b: seq<string>, other: seq<Line>)
    requires Transforms(other, a, b)
    ensures Transforms(Walk(a, b, 0, 0), a, b)
    ensures Cost(Walk(a, b, 0, 0)) <= Cost(other)
  {
    assert a[0..] == a && b[0..] == b;
    WalkTransforms(a, b, 0, 0);
    KeptAtMostLcs(other, a, b, 0, 0);
    CostBalance(Walk(a, b, 0, 0));
    CostBalance(other);
  }

  // ----- Which of the shortest scripts -----

  function Rank(op: Op): nat {
    match op
    case Context => 0
    case Remove => 1
    case Add => 2
  }

  /** At the first place where they differ, x keeps a line and y does not, or x removes one and y adds one. */
  predicate NotAfter(x: seq<Line>, y: seq<Line>) {
    x == [] || (y != [] && (Rank(x[0].op) < Rank(y[0].op) || (x[0].op == y[0].op && NotAfter(x[1..], y[1..]))))
  }

  /** A walk on from here is first among the scripts that keep as many lines. */
  lemma {:induction false} WalkIsFirst(other: seq<Line>, a: seq<string>, b: seq<string>, i: nat, j: nat)
    requires i <= |a| && j <= |b| && Transforms(other, a[i..], b[j..]) && Kept(other) == Lcs(a, b, i, j)
    ensures NotAfter(Walk(a, b, i, j), other)
    decreases |other|
  {
    WalkNext(a, b, i, j);
    WalkTransforms(a, b, i, j);
    if other != [] {
      var rest := other[1..];
      match other[0].op
      case Context =>
        assert a[i..][1..] == a[i + 1..] && b[j..][1..] == b[j + 1..] && a[i] == b[j];
        WalkIsFirst(rest, a, b, i + 1, j + 1);
      case Remove =>
        assert a[i..][1..] == a[i + 1..];
        KeptAtMostLcs(rest, a, b, i + 1, j);
        hide Walk;
        if Walk(a, b, i, j)[0].op.Remove? {
          WalkIsFirst(rest, a, b, i + 1, j);
        }
      case Add =>
        assert b[j..][1..] == b[j + 1..];
        KeptAtMostLcs(rest, a, b, i, j + 1);
        hide Walk;
        if Walk(a, b, i, j)[0].op.Add? {
          WalkIsFirst(rest, a, b, i, j + 1);
        }
    }
  }

  /** Of the shortest edit scripts the diff is the first: it keeps lines as early as it can, and removes before it adds. */
  lemma {:induction false} DiffIsFirst(a: seq<string>, b: seq<string>, other: seq<Line>)
    requires Transforms(other, a, b) && Cost(other) == Cost(Walk(a, b, 0, 0))
    ensures NotAfter(Walk(a, b, 0, 0), other)
  {
    assert a[0..] == a && b[0..] == b;
    WalkTransforms(a, b, 0, 0);
    CostBalance(Walk(a, b, 0, 0));
    CostBalance(other);
    WalkIsFirst(other, a, b, 0, 0);
  }

  // ----- Longest common subsequence, defined without the table -----

  ghost predicate Subsequence(c: seq<string>, a: seq<string>) {
    c == [] || (a != [] && ((c[0] == a[0] && Subsequence(c[1..], a[1..])) || Subsequence(c, a[1..])))
  }

  /** The lines a script keeps. */
  function KeptLines(script: seq<Line>): seq<string> {
    if script == [] then []
    else (if script[0].op.Context? then [script[0].text] else []) + KeptLines(script[1..])
  }

  lemma {:induction false} KeptLinesCommon(script: seq<Line>)
    ensures |KeptLines(script)| == Kept(script)
    ensures Subsequence(KeptLines(script), OldSide(script)) && Subsequence(KeptLines(script), NewSide(script))
  {
    if script != [] {
      KeptLinesCommon(script[1..]);
      var o, w := OldSide(script), NewSide(script);
      var k := KeptLines(script);
      match script[0].op
      case Context =>
        assert k[1..] == KeptLines(script[1..]);
        assert o[1..] == OldSide(script[1..]) && w[1..] == NewSide(script[1..]);
      case Remove =>
        assert k == KeptLines(script[1..]);
        assert o[1..] == OldSide(script[1..]) && w == NewSide(script[1..]);
      case Add =>
        assert k == KeptLines(script[1..]);
        assert o == OldSide(script[1..]) && w[1..] == NewSide(script[1..]);
    }
  }

  lemma {:induction false} SubsequenceOfTail(c: seq<string>, a: seq<string>)
    requires c != [] && Subsequence(c, a)
    ensures a != [] && Subsequence(c[1..], a[1..])
  {
    if c[0] == a[0] && Subsequence(c[1..], a[1..]) {
    } else {
      SubsequenceOfTail(c, a[1..]);
      SubsequenceWeaken(c[1..], a[1..]);
    }
  }

  lemma {:induction false} SubsequenceWeaken(c: seq<string>, a: seq<string>)
    requires a != [] && Subsequence(c, a[1..])
    ensures Subsequence(c, a)
  {
  }

  /** The table entry bounds every common subsequence of the two suffixes. */
  lemma {:induction false} CommonAtMostLcs(c: seq<string>, a: seq<string>, b: seq<string>, i: nat, j: nat)
    requires i <= |a| && j <= |b|
    requires Subsequence(c, a[i..]) && Subsequence(c, b[j..])
    ensures |c| <= Lcs(a, b, i, j)
    decreases |a| - i + |b| - j
  {
    if c != [] {
      assert a[i..][1..] == a[i + 1..] && b[j..][1..] == b[j + 1..];
      LcsSteps(a, b, i, j);
      if a[i] == b[j] {
        SubsequenceOfTail(c, a[i..]);
        SubsequenceOfTail(c, b[j..]);
        CommonAtMostLcs(c[1..], a, b, i + 1, j + 1);
      } else if c[0] != a[i] {
        CommonAtMostLcs(c, a, b, i + 1, j);
      } else {
        CommonAtMostLcs(c, a, b, i, j + 1);
      }
    }
  }

  /** dp[i][j] is the length of a longest common subsequence of a[i..] and b[j..]. */
  lemma {:induction false} TableIsLcs(a: seq<string>, b: seq<string>, i: nat, j: nat)
    requires i <= |a| && j <= |b|
    ensures exists c :: |c| == Lcs(a, b, i, j) && Subsequence(c, a[i..]) && Subsequence(c, b[j..])
    ensures forall c :: Subsequence(c, a[i..]) && Subsequence(c, b[j..]) ==> |c| <= Lcs(a, b, i, j)
  {
    var w := Walk(a, b, i, j);
    WalkTransforms(a, b, i, j);
    KeptLinesCommon(w);
    assert |KeptLines(w)| == Lcs(a, b, i, j);
    forall c | Subsequence(c, a[i..]) && Subsequence(c, b[j..]) ensures |c| <= Lcs(a, b, i, j) {
      CommonAtMostLcs(c, a, b, i, j);
    }
  }

  // ----- Line numbers -----

  /** Old and new line numbers count up by one with no gaps, from the given starting counts. */
  ghost predicate Numbered(script: seq<Line>, o: nat, n: nat) {
    script == [] ||
    match script[0].op
    case Context => script[0].oldLine == o + 1 && script[0].newLine == n + 1 && Numbered(script[1..], o + 1, n + 1)
    case Remove => script[0].oldLine == o + 1 && script[0].newLine == 0 && Numbered(script[1..], o + 1, n)
    case Add => script[0].oldLine == 0 && script[0].newLine == n + 1 && Numbered(script[1..], o, n + 1)
  }

  lemma {:induction false} WalkNumbered(a: seq<string>, b: seq<string>, i: nat, j: nat)
    requires i <= |a| && j <= |b|
    ensures Numbered(Walk(a, b, i, j), i, j)
    decreases |a| - i + |b| - j
  {
    var w := Walk(a, b, i, j);
    if w != [] {
      match w[0].op
      case Context =>
        WalkNumbered(a, b, i + 1, j + 1);
        assert w[1..] == Walk(a, b, i + 1, j + 1);
      case Remove =>
        WalkNumbered(a, b, i + 1, j);
        assert w[1..] == Walk(a, b, i + 1, j);
      case Add =>
        WalkNumbered(a, b, i, j + 1);
        assert w[1..] == Walk(a, b, i, j + 1);
    }
  }

  // ----- The unified text -----

  function Sign(op: Op): char {
    match op
    case Context => ' '
    case Remove => '-'
    case Add => '+'
  }

  function Body(script: seq<Line>): string {
    if script == [] then [] else [Sign(script[0].op)] + script[0].text + "\n" + Body(script[1..])
  }

  function UnifiedText(oldText: string, newText: string, path: string): string {
    "--- " + path + "\n" + ("+++ " + path + "\n" + Body(Walk(SplitLines(oldText), SplitLines(newText), 0, 0)))
  }

  method Unified(oldText: string, newText: string, path: string) returns (text: string)
    ensures text == UnifiedText(oldText, newText, path)
  {
    text := "--- " + path + "\n";
    text := text + ("+++ " + path + "\n");
    var lines := Lines(oldText, newText);
    ghost var header := text;
    var k := 0;
    while k < |lines|
      invariant 0 <= k <= |lines|
      invariant text + Body(lines[k..]) == header + Body(lines)
    {
      BodyStep(text, lines, k);
      match lines[k].op {
        case Context => text := text + (" " + lines[k].text + "\n");
        case Remove => text := text + ("-" + lines[k].text + "\n");
        case Add => text := text + ("+" + lines[k].text + "\n");
      }
      k := k + 1;
    }
    HeaderText(path, Body(lines));
  }

  lemma {:induction false} BodyStep(text: string, lines: seq<Line>, k: nat)
    requires k < |lines|
    ensures text + Body(lines[k..])
         == (text + ([Sign(lines[k].op)] + lines[k].text + "\n")) + Body(lines[k + 1..])
  {
    assert lines[k..][1..] == lines[k + 1..];
  }

  lemma {:induction false} HeaderText(path: string, body: string)
    ensures ("--- " + path + "\n" + ("+++ " + path + "\n")) + body
         == "--- " + path + "\n" + ("+++ " + path + "\n" + body)
  {
  }

  // ----- Reading the unified text back -----

  /** Cuts the first line off a text; None if it has no line end. */
  function FirstLine(t: string): (r: (bool, string, string))
    ensures r.0 ==> |r.2| < |t|
  {
    if t == [] then (false, [], [])
    else if t[0] == '\n' then (true, [], t[1..])
    else
      var r := FirstLine(t[1..]);
      (r.0, [t[0]] + r.1, r.2)
  }

  /** Applies the body of a unified text to the old lines; fails on a line that does not match. */
  function Patch(t: string, a: seq<string>): (bool, seq<string>)
    decreases |t|
  {
    if t == [] then (a == [], [])
    else
      var (found, line, rest) := FirstLine(t);
      if !found || line == [] then (false, [])
      else if line[0] == '+' then
        var r := Patch(rest, a);
        (r.0, [line[1..]] + r.1)
      else if a == [] || line[1..] != a[0] then (false, [])
      else if line[0] == '-' then Patch(rest, a[1..])
      else if line[0] == ' ' then
        var r := Patch(rest, a[1..]);
        (r.0, [a[0]] + r.1)
      else (false, [])
  }

  /** Skips the two header lines and patches. */
  function PatchText(t: string, a: seq<string>): (bool, seq<string>) {
    var (f1, _, r1) := FirstLine(t);
    var (f2, _, r2) := FirstLine(r1);
    if f1 && f2 then Patch(r2, a) else (false, [])
  }

  lemma {:induction false} FirstLineOf(line: string, rest: string)
    requires '\n' !in line
    ensures FirstLine(line + "\n" + rest) == (true, line, rest)
  {
    var t := line + "\n" + rest;
    if line == [] {
      assert t[1..] == rest;
    } else {
      assert t[0] == line[0] && t[1..] == line[1..] + "\n" + rest;
      FirstLineOf(line[1..], rest);
      assert line == [line[0]] + line[1..];
    }
  }

  lemma {:induction false} PatchBody(script: seq<Line>)
    requires forall k :: 0 <= k < |script| ==> '\n' !in script[k].text
    ensures Patch(Body(script), OldSide(script)) == (true, NewSide(script))
  {
    if script != [] {
      var first, rest := script[0], script[1..];
      var line := [Sign(first.op)] + first.text;
      assert Body(script) == line + "\n" + Body(rest);
      FirstLineOf(line, Body(rest));
      PatchBody(rest);
      PatchStep(first.op, first.text, Body(rest), OldSide(rest), NewSide(rest));
    }
  }

  /** One line of the body read back. */
  lemma {:induction false} PatchStep(op: Op, text: string, body: string, a: seq<string>, b: seq<string>)
    requires '\n' !in text && Patch(body, a) == (true, b)
    ensures Patch([Sign(op)] + text + "\n" + body, if op.Add? then [] + a else [text] + a)
         == (true, if op.Remove? then [] + b else [text] + b)
  {
    var line := [Sign(op)] + text;
    var t := line + "\n" + body;
    FirstLineOf(line, body);
    assert t != [] && line[0] == Sign(op) && line[1..] == text;
    if op.Add? {
      assert [] + a == a;
    } else {
      assert ([text] + a)[1..] == a;
      assert op.Remove? ==> [] + b == b;
    }
  }

  lemma {:induction false} WalkTexts(a: seq<string>, b: seq<string>, i: nat, j: nat)
    requires i <= |a| && j <= |b| && Pieces(a, '\n') && Pieces(b, '\n')
    ensures forall k :: 0 <= k < |Walk(a, b, i, j)| ==> '\n' !in Walk(a, b, i, j)[k].text
    decreases |a| - i + |b| - j
  {
    if i < |a| && j < |b| { WalkTexts(a, b, i + 1, j + 1); }
    if i < |a| { WalkTexts(a, b, i + 1, j); }
    if j < |b| { WalkTexts(a, b, i, j + 1); }
  }

  /** Patching the old lines with the unified text gives the new lines. */
  lemma {:induction false} UnifiedRoundTrip(oldText: string, newText: string, path: string)
    requires '\n' !in path
    ensures PatchText(UnifiedText(oldText, newText, path), SplitLines(oldText)) == (true, SplitLines(newText))
  {
    var a, b := SplitLines(oldText), SplitLines(newText);
    var w := Walk(a, b, 0, 0);
    SplitLinesGivesLines(oldText);
    SplitLinesGivesLines(newText);
    WalkTexts(a, b, 0, 0);
    WalkTransforms(a, b, 0, 0);
    assert a[0..] == a && b[0..] == b;
    PatchBody(w);
    FirstLineOf("+++ " + path, Body(w));
    FirstLineOf("--- " + path, "+++ " + path + "\n" + Body(w));
  }

  /** The text begins with two lines that name the path, one for each side. */
  lemma {:induction false} HeaderNamesPath(oldText: string, newText: string, path: string)
    requires '\n' !in path
    ensures var (_, first, rest) := FirstLine(UnifiedText(oldText, newText, path));
            var (found, second, _) := FirstLine(rest);
            found && first == "--- " + path && second == "+++ " + path
  {
    var body := Body(Walk(SplitLines(oldText), SplitLines(newText), 0, 0));
    hide Body, Walk, SplitLines;
    FirstLineOf("+++ " + path, body);
    FirstLineOf("--- " + path, "+++ " + path + "\n" + body);
  }
}
