/** The path check as the source makes it, with path.Clean, against the form used here. */
module SafePaths {
  import opened Text
  import opened Workspaces

  /** The segments that path.Clean keeps of a path without "..". */
  function Kept(segments: seq<string>): seq<string> {
    if segments == [] then []
    else (if segments[0] == "" || segments[0] == "." then [] else [segments[0]]) + Kept(segments[1..])
  }

  /** path.Clean of a path without "..". */
  function Clean(p: string): string {
    var kept := Kept(Split(p, '/'));
    var rest := if kept == [] then "" else Join(kept, '/');
    if p != "" && p[0] == '/' then "/" + rest else if rest == "" then "." else rest
  }

  lemma {:induction false} KeepsAll(segments: seq<string>)
    requires forall s :: s in segments ==> s != "" && s != "."
    ensures Kept(segments) == segments
  {
    if segments != [] {
      assert segments[0] in segments;
      assert forall s :: s in segments[1..] ==> s in segments;
      KeepsAll(segments[1..]);
    }
  }

  lemma {:induction false} FirstSegment(p: string)
    ensures p != "" && p[0] == '/' ==> Split(p, '/')[0] == ""
  {
  }

  /**
   * A path is safe exactly if it passes the six checks of the source: it is not empty, not
   * absolute, without NUL and without "..", its own cleaned form, and without a bad segment.
   */
  lemma {:induction false} SafeExactly(p: string)
    ensures SafePath(p) <==>
            && p != "" && !HasPrefix(p, "/") && 0 as char !in p
            && !Contains(p, "..")
            && Clean(p) == p
            && (forall s :: s in Split(p, '/') ==> s != "" && s != "." && s != "..")
  {
    hide Split, Join;
    DotsAreDots(p);
    FirstSegment(p);
    JoinSplit(p, '/');
    var segments := Split(p, '/');
    if forall s :: s in segments ==> s != "" && s != "." {
      KeepsAll(segments);
      assert segments[0] in segments;
    }
    if SafePath(p) {
      forall s | s in segments ensures s != ".." {
        if s == ".." { SegmentHasNoDots(p, s); }
      }
    }
  }

  /** strings.Contains. */
  predicate Contains(p: string, w: string)
    decreases |p|
  {
    |w| <= |p| && (p[..|w|] == w || (p != [] && Contains(p[1..], w)))
  }

  lemma {:induction false} DotsAreDots(p: string)
    ensures HasDots(p) <==> Contains(p, "..")
    decreases |p|
  {
    if |p| >= 2 {
      assert p[..2] == [p[0], p[1]];
      DotsAreDots(p[1..]);
      if HasDots(p) {
        var i :| 0 <= i < |p| - 1 && p[i] == '.' && p[i + 1] == '.';
        if i > 0 { assert p[1..][i - 1] == '.' && p[1..][i] == '.'; }
      }
      if HasDots(p[1..]) {
        var i :| 0 <= i < |p[1..]| - 1 && p[1..][i] == '.' && p[1..][i + 1] == '.';
        assert p[i + 1] == '.' && p[i + 2] == '.';
      }
    }
  }

  /** Two dots in a segment are two dots in the path. */
  lemma {:induction false} SegmentHasNoDots(p: string, s: string)
    requires s in Split(p, '/') && s == ".."
    ensures HasDots(p)
    decreases |p|
  {
    var rest := Split(p[1..], '/');
    if p[0] == '/' || s in rest[1..] {
      assert s in rest;
      SegmentHasNoDots(p[1..], s);
      var i :| 0 <= i < |p[1..]| - 1 && p[1..][i] == '.' && p[1..][i + 1] == '.';
      assert p[i + 1] == '.' && p[i + 2] == '.';
    } else {
      assert s == [p[0]] + rest[0];
      assert s[0] == '.' && s[1] == '.' && s[1..] == rest[0];
      FirstChar(p[1..]);
      assert p[1] == '.';
    }
  }

  lemma {:induction false} FirstChar(p: string)
    requires Split(p, '/')[0] != ""
    ensures p != "" && p[0] == Split(p, '/')[0][0]
  {
  }
}
