/** Workspace files: paths, upserts, appends and the directory list, as values and as the object that holds them. */
module Workspaces {
  import opened Wrappers
  import opened Bytes
  import opened Order
  import opened Text

  /** What is left open: the content hash, the two tables by file extension, and base64. */
  datatype Codecs = Codecs(
    sha: seq<Byte> -> string, language: string -> string, mediaType: string -> string,
    base64: seq<Byte> -> string, unbase64: string -> Option<seq<Byte>>)

  ghost predicate GoodCodecs(c: Codecs) {
    forall b :: c.unbase64(c.base64(b)) == Some(b) && (c.base64(b) == "" <==> b == [])
  }

  datatype File = File(
    path: string, size: nat, sha256: string, declared: string, encoding: string,
    kind: string, language: string, mediaType: string, verified: bool, data: seq<Byte>)

  // ----- Paths -----

  predicate HasDots(p: string) {
    exists i :: 0 <= i < |p| - 1 && p[i] == '.' && p[i + 1] == '.'
  }

  /** IsSafePath: without "..", a path is its own cleaned form exactly if no segment is empty or ".". */
  predicate SafePath(p: string) {
    p != "" && 0 as char !in p && !HasDots(p) && forall s :: s in Split(p, '/') ==> s != "" && s != "."
  }

  function HasPrefix(p: string, prefix: string): bool {
    |prefix| <= |p| && p[..|prefix|] == prefix
  }

  function LastSlash(p: string): (i: nat)
    requires '/' in p
    ensures i < |p| && p[i] == '/' && '/' !in p[i + 1..]
  {
    if p[|p| - 1] == '/' then |p| - 1 else
      assert p == p[..|p| - 1] + [p[|p| - 1]];
      LastSlash(p[..|p| - 1])
  }

  /** path.Dir of a path with a slash. */
  function Parent(p: string): string
    requires '/' in p
  {
    p[..LastSlash(p)]
  }

  /** Every directory above a path. */
  function Parents(p: string): set<string>
    decreases |p|
  {
    if '/' in p then {Parent(p)} + Parents(Parent(p)) else {}
  }

  // ----- Files -----

  function Encoding(data: seq<Byte>): string {
    if Utf8Decode(data).Some? then "utf-8" else "base64"
  }

  function Default(s: string, d: string): string {
    if s != "" then s else d
  }

  /** The record UpsertFile stores; what is known of an existing file is kept. */
  function NewFile(c: Codecs, files: map<string, File>, p: string, data: seq<Byte>): File {
    var fresh_ := File(p, |data|, c.sha(data), c.sha(data), Encoding(data), "text", c.language(p), c.mediaType(p), true, data);
    if p in files then
      fresh_.(kind := Default(files[p].kind, "text"), language := Default(files[p].language, c.language(p)),
              mediaType := Default(files[p].mediaType, c.mediaType(p)))
    else fresh_
  }

  datatype Space = Space(files: map<string, File>, directories: seq<string>)

  /** The directories above any of these paths. */
  function Above(paths: set<string>): set<string> {
    set p, d | p in paths && d in Parents(p) :: d
  }

  /** The directories that a list names: its safe entries and what is above them. */
  function Listed(ds: seq<string>): set<string> {
    if ds == [] then {} else
      var d := ds[|ds| - 1];
      Listed(ds[..|ds| - 1]) + if SafePath(d) then {d} + Parents(d) else {}
  }

  /** The directories RecalcCounts keeps: above a file, or listed and safe, or above one of those. */
  function Directories(s: Space): set<string> {
    Above(s.files.Keys) + Listed(s.directories)
  }

  ghost function Recalculated(s: Space): Space {
    s.(directories := SortedKeys(Directories(s)))
  }

  /** UpsertFile; None is an unsafe path. */
  ghost function Upsert(c: Codecs, s: Space, p: string, data: seq<Byte>): Option<Space> {
    if !SafePath(p) then None else Some(Recalculated(s.(files := s.files[p := NewFile(c, s.files, p, data)])))
  }

  function Terminated(data: seq<Byte>): seq<Byte> {
    if data != [] && data[|data| - 1] == NEWLINE then data else data + [NEWLINE]
  }

  /** What AppendToFile makes of a file's bytes: the line on a line of its own. */
  function Appended(before: seq<Byte>, line: seq<Byte>): seq<Byte> {
    Terminated((if before == [] then [] else Terminated(before)) + line)
  }

  function DataOf(s: Space, p: string): seq<Byte> {
    if p in s.files then s.files[p].data else []
  }

  ghost function AppendTo(c: Codecs, s: Space, p: string, line: seq<Byte>): Option<Space> {
    Upsert(c, s, p, Appended(DataOf(s, p), line))
  }

  // ----- The object -----

  class Workspace {
    const c: Codecs
    var files: map<string, File>
    var directories: seq<string>
    var fileCount: nat
    var directoryCount: nat

    function Model(): Space
      reads this
    {
      Space(files, directories)
    }

    constructor (c: Codecs, s: Space)
      ensures this.c == c && Model() == s
    {
      this.c := c;
      files := s.files;
      directories := s.directories;
      fileCount := |s.files|;
      directoryCount := |s.directories|;
    }

    /** candidateWorkspace: a copy whose file map can change alone. */
    method Copy() returns (w: Workspace)
      ensures fresh(w) && w.c == c && w.Model() == Model()
    {
      w := new Workspace(c, Model());
    }

    /** RecalcCounts: the counts, and the sorted list of directories. */
    method RecalcCounts()
      modifies this`directories, this`fileCount, this`directoryCount
      ensures Model() == Recalculated(old(Model()))
      ensures fileCount == |files| && directoryCount == |directories|
    {
      hide Above, Listed, SortedKeys;
      fileCount := |files|;
      var dirs := AboveFiles(files.Keys);
      dirs := AddListed(directories, dirs);
      directories := Sort(dirs);
      directoryCount := |directories|;
    }

    /** UpsertFile; on success the file is in place and the directories follow. */
    method UpsertFile(p: string, data: seq<Byte>) returns (f: Option<File>)
      modifies this
      ensures f.Some? <==> SafePath(p)
      ensures f.None? ==> Model() == old(Model())
      ensures f.Some? ==> f.value == NewFile(c, old(files), p, data) && Upsert(c, old(Model()), p, data) == Some(Model())
    {
      if !SafePath(p) {
        return None;
      }
      var encoding := "utf-8";
      if Utf8Decode(data).None? {
        encoding := "base64";
      }
      var hash := c.sha(data);
      var made := File(p, |data|, hash, hash, encoding, "text", c.language(p), c.mediaType(p), true, data);
      if p in files {
        var existing := files[p];
        if existing.kind != "" {
          made := made.(kind := existing.kind);
        }
        if existing.language != "" {
          made := made.(language := existing.language);
        }
        if existing.mediaType != "" {
          made := made.(mediaType := existing.mediaType);
        }
      }
      files := files[p := made];
      RecalcCounts();
      return Some(made);
    }

    /** AppendToFile: a newline between what is there and the line, and one after it. */
    method AppendToFile(p: string, line: seq<Byte>) returns (f: Option<File>)
      modifies this
      ensures f.Some? <==> SafePath(p)
      ensures f.None? ==> Model() == old(Model())
      ensures f.Some? ==> AppendTo(c, old(Model()), p, line) == Some(Model())
      ensures f.Some? ==> var data := Appended(DataOf(old(Model()), p), line);
                          f.value == NewFile(c, old(files), p, data) && f.value.data == data
    {
      var data: seq<Byte> := [];
      if p in files {
        data := files[p].data;
      }
      if |data| > 0 && data[|data| - 1] != NEWLINE {
        data := data + [NEWLINE];
      }
      data := data + line;
      if data == [] || data[|data| - 1] != NEWLINE {
        data := data + [NEWLINE];
      }
      assert data == Appended(DataOf(Model(), p), line);
      f := UpsertFile(p, data);
    }
  }

  /** addParents: climbs from a path to the top. */
  method AddParents(p: string, dirs: set<string>) returns (r: set<string>)
    ensures r == dirs + Parents(p)
  {
    r := dirs;
    var at := p;
    while '/' in at
      invariant r + Parents(at) == dirs + Parents(p)
      decreases |at|
    {
      at := Parent(at);
      r := r + {at};
    }
  }

  /** The loop of RecalcCounts over the files. */
  method AboveFiles(paths: set<string>) returns (dirs: set<string>)
    ensures dirs == Above(paths)
  {
    hide Parents;
    dirs := {};
    var todo := paths;
    while todo != {}
      invariant todo <= paths
      invariant dirs == Above(paths - todo)
      decreases todo
    {
      var p :| p in todo;
      ghost var done := paths - todo;
      todo := todo - {p};
      dirs := AddParents(p, dirs);
      assert paths - todo == done + {p};
    }
    assert paths - todo == paths;
  }

  /** The loop of RecalcCounts over the directories that were listed. */
  method AddListed(ds: seq<string>, before: set<string>) returns (dirs: set<string>)
    ensures dirs == before + Listed(ds)
  {
    hide Parents, SafePath;
    dirs := before;
    var i := 0;
    while i < |ds|
      invariant 0 <= i <= |ds|
      invariant dirs == before + Listed(ds[..i])
    {
      var d := ds[i];
      assert ds[..i + 1][..i] == ds[..i];
      if SafePath(d) {
        dirs := dirs + {d};
        dirs := AddParents(d, dirs);
      }
      i := i + 1;
    }
    assert ds[..i] == ds;
  }

  // ----- What the directory list keeps -----

  lemma {:induction false} ParentsNest(p: string, d: string)
    requires d in Parents(p)
    ensures Parents(d) <= Parents(p)
    decreases |p|
  {
    if d != Parent(p) {
      ParentsNest(Parent(p), d);
    }
  }

  lemma {:induction false} ListedClosed(ds: seq<string>, q: string)
    requires q in Listed(ds)
    ensures Parents(q) <= Listed(ds)
  {
    hide SafePath, Parents;
    var d := ds[|ds| - 1];
    if q in Listed(ds[..|ds| - 1]) {
      ListedClosed(ds[..|ds| - 1], q);
    } else if q != d {
      ParentsNest(d, q);
    }
  }

  /** The directory of every file is listed, and with a directory every directory above it. */
  lemma {:induction false} DirectoriesClosed(s: Space)
    ensures var dirs := Recalculated(s).directories;
            && Increasing(dirs)
            && (forall p, d :: p in s.files && d in Parents(p) ==> d in dirs)
            && (forall q, d :: q in dirs && d in Parents(q) ==> d in dirs)
  {
    hide SafePath, Parents, Listed;
    var dirs := Recalculated(s).directories;
    forall q, d | q in dirs && d in Parents(q) ensures d in dirs {
      assert q in Directories(s);
      if p :| p in s.files && q in Parents(p) {
        ParentsNest(p, q);
      } else {
        ListedClosed(s.directories, q);
      }
    }
  }

  /** An append leaves every earlier byte in place and ends the file with the line and a newline. */
  lemma {:induction false} AppendKeeps(before: seq<Byte>, line: seq<Byte>)
    ensures before <= Appended(before, line)
    ensures Appended(before, line)[|Appended(before, line)| - 1] == NEWLINE
    ensures line != [] && line[|line| - 1] != NEWLINE ==>
            Appended(before, line) == (if before == [] then [] else Terminated(before)) + line + [NEWLINE]
    ensures line != [] && line[|line| - 1] == NEWLINE ==> Appended(before, line) == (if before == [] then [] else Terminated(before)) + line
    ensures line == [] ==> Appended(before, line) == Terminated(before)
  {
  }
}
