/**
 The filesystem the server reads, as one immutable snapshot keyed by canonical
 absolute path (`/` or `/a/b`, see `Canonical`). A node is a regular file with
 its text, or a directory with its entry names in the order `readdirSync`
 reports them. Both carry the `statSync` size and modification time
 (milliseconds since the epoch).

 Paths reach the snapshot the way the process hands them to the kernel: a
 relative path is taken from the working directory, `.` and empty segments
 vanish and `..` climbs one level, never above the root; a path ending in `/`,
 `/.` or `/..` names a directory. The POSIX `path.normalize`, `path.join` and
 `path.resolve` the server calls are modelled with the same segment rules.
 */
module FileSystem {
  import opened Optional
  import opened Text

  datatype Body = FileBody(content: string) | DirBody(entries: seq<string>)

  datatype Node = Node(size: nat, mtime: int, body: Body)

  type Fs = map<string, Node>

  predicate Absolute(p: string) {
    |p| > 0 && p[0] == '/'
  }

  /** A segment that names a directory entry. */
  predicate PlainSegment(s: string) {
    s != "" && s != "." && s != ".." && '/' !in s
  }

  /** One segment of Node's `normalizeString`: empty and `.` segments vanish; `..` drops the
      last kept segment, and when there is none to drop (or it is itself `..`) it is kept if
      the path may climb above its start and discarded otherwise. */
  function NormStep(kept: seq<string>, seg: string, aboveRoot: bool): seq<string> {
    if seg == "" || seg == "." then kept
    else if seg == ".." then
      if |kept| > 0 && kept[|kept| - 1] != ".." then kept[..|kept| - 1]
      else if aboveRoot then kept + [".."]
      else kept
    else kept + [seg]
  }

  /** `NormStep` over a run of segments, left to right. */
  function NormFrom(kept: seq<string>, segs: seq<string>, aboveRoot: bool): seq<string>
    decreases |segs|
  {
    if |segs| == 0 then kept else NormFrom(NormStep(kept, segs[0], aboveRoot), segs[1..], aboveRoot)
  }

  /** The segments `normalizeString` keeps of `p`. */
  function NormalSegments(p: string, aboveRoot: bool): seq<string> {
    NormFrom([], Split(p, '/'), aboveRoot)
  }

  /** `path.normalize(p)`: the kept segments, rooted when `p` is absolute, with a trailing `/`
      kept; an empty relative result is `.` (or `./`). */
  function Normalize(p: string): string {
    if p == "" then "."
    else
      var abs := p[0] == '/';
      var trailing := p[|p| - 1] == '/';
      var body := Join(NormalSegments(p, !abs), "/");
      if body == "" then (if abs then "/" else if trailing then "./" else ".")
      else (if abs then "/" else "") + body + (if trailing then "/" else "")
  }

  /** `path.join(dir, name)`: the non-empty arguments joined with `/`, then normalised. The
      server's three-argument and four-argument joins of non-empty names are the same as a
      join of `dir` with the names already joined by `/`. */
  function PathJoin(dir: string, name: string): (r: string)
  {
    Normalize(if dir == "" then name else if name == "" then dir else dir + "/" + name)
  }

  /** `path.resolve(p)` with `process.cwd()` equal to `cwd`: a relative `p` is taken from `cwd`,
      and the result is normalised without a trailing `/`. */
  function Resolve(cwd: string, p: string): (r: string)
  {
    var full := if Absolute(p) then p else if p == "" then cwd else if cwd == "" then p else cwd + "/" + p;
    var body := Join(NormalSegments(full, !Absolute(full)), "/");
    if Absolute(full) then "/" + body else if body == "" then "." else body
  }

  /** The form of the paths the snapshot is keyed by, and of every path `Resolve` returns
      from an absolute working directory (`ResolveIsCanonical`). */
  predicate Canonical(c: string) {
    Absolute(c) && (c == "/" || forall s :: s in Split(c[1..], '/') ==> PlainSegment(s))
  }

  /** Whether the kernel requires `p` to name a directory: its last segment is empty, `.` or `..`. */
  predicate DirectoryForm(p: string) {
    var segs := Split(p, '/');
    var last := segs[|segs| - 1];
    last == "" || last == "." || last == ".."
  }

  /** What `fs.statSync(p)` finds, from the working directory `cwd`: nothing for the empty path,
      otherwise the node at the resolved path, provided it is a directory when `p` demands one. */
  function Stat(fs: Fs, cwd: string, p: string): (r: Option<Node>)
    ensures r.Some? ==> p != "" && Resolve(cwd, p) in fs && r.value == fs[Resolve(cwd, p)]
    ensures r.None? && p != "" && Resolve(cwd, p) in fs ==> DirectoryForm(p) && !fs[Resolve(cwd, p)].body.DirBody?
  {
    if p == "" then None
    else
      var c := Resolve(cwd, p);
      if c in fs && (!DirectoryForm(p) || fs[c].body.DirBody?) then Some(fs[c]) else None
  }

  /** `fs.existsSync(p)`: true for files and directories alike. */
  predicate Exists(fs: Fs, cwd: string, p: string) {
    Stat(fs, cwd, p).Some?
  }

  /** `fs.readFileSync(p, 'utf8')`: fails on a missing path and on a directory. */
  function ReadFile(fs: Fs, cwd: string, p: string): (r: Option<string>)
    ensures r.Some? <==> Exists(fs, cwd, p) && Stat(fs, cwd, p).value.body.FileBody?
    ensures r.Some? ==> r.value == Stat(fs, cwd, p).value.body.content
  {
    var n := Stat(fs, cwd, p);
    if n.Some? && n.value.body.FileBody? then Some(n.value.body.content) else None
  }

  /** `fs.readdirSync(p)`: fails on a missing path and on a regular file. */
  function ReadDir(fs: Fs, cwd: string, p: string): (r: Option<seq<string>>)
    ensures r.Some? <==> Exists(fs, cwd, p) && Stat(fs, cwd, p).value.body.DirBody?
    ensures r.Some? ==> r.value == Stat(fs, cwd, p).value.body.entries
  {
    var n := Stat(fs, cwd, p);
    if n.Some? && n.value.body.DirBody? then Some(n.value.body.entries) else None
  }

  // ---------------------------------------------------------------------------------------
  // The segment rules.

  /** Normalising a concatenation of segment runs normalises one run after the other. */
  lemma {:induction false} NormFromAppend(kept: seq<string>, a: seq<string>, b: seq<string>, aboveRoot: bool)
    ensures NormFrom(kept, a + b, aboveRoot) == NormFrom(NormFrom(kept, a, aboveRoot), b, aboveRoot)
    decreases |a|
  {
    if |a| > 0 {
      assert (a + b)[0] == a[0];
      assert (a + b)[1..] == a[1..] + b;
      NormFromAppend(NormStep(kept, a[0], aboveRoot), a[1..], b, aboveRoot);
    } else {
      assert a + b == b;
    }
  }

  /** Plain segments are kept as they are. */
  lemma {:induction false} NormFromPlain(kept: seq<string>, segs: seq<string>, aboveRoot: bool)
    requires forall k :: 0 <= k < |segs| ==> PlainSegment(segs[k])
    ensures NormFrom(kept, segs, aboveRoot) == kept + segs
    decreases |segs|
  {
    if |segs| > 0 {
      NormFromPlain(kept + [segs[0]], segs[1..], aboveRoot);
      assert kept + [segs[0]] + segs[1..] == kept + segs;
    }
  }

  /** Without climbing above the start, only plain segments are kept. */
  lemma {:induction false} NormFromKeepsPlain(kept: seq<string>, segs: seq<string>)
    requires forall k :: 0 <= k < |kept| ==> PlainSegment(kept[k])
    requires forall k :: 0 <= k < |segs| ==> '/' !in segs[k]
    ensures var r := NormFrom(kept, segs, false);
            forall k :: 0 <= k < |r| ==> PlainSegment(r[k])
    decreases |segs|
  {
    if |segs| > 0 {
      var next := NormStep(kept, segs[0], false);
      assert forall k :: 0 <= k < |next| ==> PlainSegment(next[k]) by {
        if segs[0] != "" && segs[0] != "." && segs[0] != ".." {
          assert next == kept + [segs[0]];
        }
      }
      NormFromKeepsPlain(next, segs[1..]);
      assert NormFrom(kept, segs, false) == NormFrom(next, segs[1..], false);
      var r := NormFrom(kept, segs, false);
      assert forall k :: 0 <= k < |r| ==> PlainSegment(r[k]);
    } else {
      assert NormFrom(kept, segs, false) == kept;
    }
  }

  /** The segments of a rooted path are those after its leading empty one. */
  lemma RootedSegments(rest: string)
    ensures Split("/" + rest, '/') == [""] + Split(rest, '/')
  {
    assert "/" + rest == "" + ['/'] + rest;
    SplitConcat("", rest, '/');
    assert Split("", '/') == [""];
  }

  /** A canonical path is its own list of segments, rooted. */
  lemma CanonicalSegments(c: string)
    requires Canonical(c) && c != "/"
    ensures NormalSegments(c, false) == Split(c[1..], '/')
    ensures "/" + Join(Split(c[1..], '/'), "/") == c
  {
    var rest := c[1..];
    assert c == "/" + rest;
    RootedSegments(rest);
    var segs := Split(rest, '/');
    assert forall k :: 0 <= k < |segs| ==> PlainSegment(segs[k]) by {
      forall k | 0 <= k < |segs| ensures PlainSegment(segs[k]) {
        assert segs[k] in segs;
      }
    }
    NormFromAppend([], [""], segs, false);
    NormFromPlain([], segs, false);
    JoinSplit(rest, '/');
  }

  // ---------------------------------------------------------------------------------------
  // What the server relies on.

  /** From an absolute working directory (or for an absolute path) `path.resolve` gives a
      canonical path. */
  lemma ResolveIsCanonical(cwd: string, p: string)
    requires Absolute(cwd) || Absolute(p)
    ensures Canonical(Resolve(cwd, p))
  {
    var full := if Absolute(p) then p else if p == "" then cwd else cwd + "/" + p;
    assert Absolute(full);
    var segs := NormalSegments(full, false);
    SplitPiecesLackSeparator(full, '/');
    NormFromKeepsPlain([], Split(full, '/'));
    assert segs == NormFrom([], Split(full, '/'), false);
    var r := Resolve(cwd, p);
    assert r == "/" + Join(segs, "/");
    if |segs| > 0 {
      assert r[1..] == Join(segs, "/");
      forall k | 0 <= k < |segs| ensures '/' !in segs[k] {
        assert PlainSegment(segs[k]);
      }
      SplitJoin(segs, '/');
      forall s | s in Split(r[1..], '/') ensures PlainSegment(s) {
      }
    }
  }

  /** A canonical path resolves and normalises to itself, from any working directory. */
  lemma CanonicalIsFixed(cwd: string, c: string)
    requires Canonical(c)
    ensures Resolve(cwd, c) == c
    ensures Normalize(c) == c
  {
    if c == "/" {
      assert Split("/", '/') == [""] + Split("", '/') by {
        RootedSegments("");
      }
      assert Split("", '/') == [""];
      assert NormalSegments(c, false) == [];
    } else {
      CanonicalSegments(c);
      var segs := Split(c[1..], '/');
      assert segs[|segs| - 1] in segs;
      JoinSplit(c[1..], '/');
      assert Join(segs, "/") != "" by {
        assert PlainSegment(segs[|segs| - 1]);
        JoinEndsWithLast(segs, "/");
      }
      LastCharOfJoin(segs, "/");
      assert c[|c| - 1] != '/';
    }
  }

  /** The empty name and `.` both name the directory itself. */
  lemma JoinSelf(dir: string)
    requires Canonical(dir)
    ensures PathJoin(dir, "") == dir
    ensures PathJoin(dir, ".") == dir
  {
    CanonicalIsFixed("/", dir);
    var joined := dir + "/" + ".";
    assert joined == dir + ['/'] + ".";
    SplitConcat(dir, ".", '/');
    assert Split(".", '/') == ["."];
    NormFromAppend([], Split(dir, '/'), ["."], false);
    assert NormalSegments(joined, false) == NormalSegments(dir, false);
    if dir != "/" {
      CanonicalSegments(dir);
    }
  }

  /** Two paths with the same first and last character and the same segments normalise alike. */
  lemma NormalizeBySegments(p: string, q: string)
    requires p != "" && q != "" && p[0] == q[0] && p[|p| - 1] == q[|q| - 1]
    requires NormalSegments(p, p[0] != '/') == NormalSegments(q, q[0] != '/')
    ensures Normalize(p) == Normalize(q)
  {
  }

  /** A leading `./` on a name changes nothing. */
  lemma JoinDotSlash(dir: string, name: string)
    requires dir != "" && name != ""
    ensures PathJoin(dir, "./" + name) == PathJoin(dir, name)
  {
    var j1 := dir + "/" + ("./" + name);
    var j2 := dir + "/" + name;
    var aboveRoot := dir[0] != '/';
    assert Split(j1, '/') == Split(dir, '/') + (["."] + Split(name, '/')) by {
      assert j1 == dir + ['/'] + ("." + ['/'] + name);
      SplitConcat(dir, "." + ['/'] + name, '/');
      SplitConcat(".", name, '/');
      assert Split(".", '/') == ["."];
    }
    assert Split(j2, '/') == Split(dir, '/') + Split(name, '/') by {
      assert j2 == dir + ['/'] + name;
      SplitConcat(dir, name, '/');
    }
    var base := NormFrom([], Split(dir, '/'), aboveRoot);
    NormFromAppend([], Split(dir, '/'), ["."] + Split(name, '/'), aboveRoot);
    NormFromAppend([], Split(dir, '/'), Split(name, '/'), aboveRoot);
    assert NormFrom(base, ["."] + Split(name, '/'), aboveRoot) == NormFrom(base, Split(name, '/'), aboveRoot) by {
      assert (["."] + Split(name, '/'))[1..] == Split(name, '/');
    }
    assert j1[0] == dir[0] && j2[0] == dir[0];
    assert j1[|j1| - 1] == name[|name| - 1] && j2[|j2| - 1] == name[|name| - 1];
    NormalizeBySegments(j1, j2);
  }

  /** A trailing `/` resolves to the same path, and then only a directory is found there. */
  lemma TrailingSlash(fs: Fs, cwd: string, p: string)
    requires p != ""
    ensures Resolve(cwd, p + "/") == Resolve(cwd, p)
    ensures Stat(fs, cwd, p + "/") ==
              if Stat(fs, cwd, p).Some? && Stat(fs, cwd, p).value.body.DirBody? then Stat(fs, cwd, p) else None
  {
    ResolveTrailingSlash(cwd, p);
    TrailingSlashIsDirectoryForm(p);
  }

  lemma ResolveTrailingSlash(cwd: string, p: string)
    requires p != ""
    ensures Resolve(cwd, p + "/") == Resolve(cwd, p)
  {
    var full := if Absolute(p) then p else if cwd == "" then p else cwd + "/" + p;
    var full' := if Absolute(p + "/") then p + "/" else if cwd == "" then p + "/" else cwd + "/" + (p + "/");
    assert full' == full + ['/'] + "";
    SplitConcat(full, "", '/');
    assert Split("", '/') == [""];
    NormFromAppend([], Split(full, '/'), [""], !Absolute(full));
    assert Absolute(full') == Absolute(full);
  }

  lemma TrailingSlashIsDirectoryForm(p: string)
    ensures DirectoryForm(p + "/")
  {
    assert p + "/" == p + ['/'] + "";
    SplitConcat(p, "", '/');
    assert Split("", '/') == [""];
  }

  /** The absolute path made of `segs`. */
  function Rooted(segs: seq<string>): string {
    "/" + Join(segs, "/")
  }

  /** A name starting with `../` leaves the directory: it names an entry of the parent.
      Nothing in `path.join` keeps a joined name inside the directory it is joined to. */
  lemma ParentSegment(segs: seq<string>, name: string)
    requires |segs| > 0 && forall k :: 0 <= k < |segs| ==> PlainSegment(segs[k])
    requires PlainSegment(name)
    ensures PathJoin(Rooted(segs), "../" + name) == Rooted(segs[..|segs| - 1] + [name])
  {
    var joined := Rooted(segs) + "/" + ("../" + name);
    var up := segs[..|segs| - 1];
    ParentSegmentSplit(segs, name);
    ParentSegmentKept(segs, name);
    assert joined[0] == '/';
    assert joined[|joined| - 1] == name[|name| - 1];
    assert name[|name| - 1] != '/' by {
      assert name[|name| - 1] in name;
    }
    assert Join(up + [name], "/") != "" by {
      JoinEndsWithLast(up + [name], "/");
    }
  }

  lemma ParentSegmentSplit(segs: seq<string>, name: string)
    requires |segs| > 0 && forall k :: 0 <= k < |segs| ==> PlainSegment(segs[k])
    requires PlainSegment(name)
    ensures Split(Rooted(segs) + "/" + ("../" + name), '/') == ([""] + segs) + ([".."] + [name])
  {
    var d := Rooted(segs);
    var joined := d + "/" + ("../" + name);
    assert Split(d, '/') == [""] + segs by {
      RootedSegments(Join(segs, "/"));
      SplitJoin(segs, '/');
    }
    assert joined == d + ['/'] + (".." + ['/'] + name);
    SplitConcat(d, ".." + ['/'] + name, '/');
    SplitConcat("..", name, '/');
    assert Split("..", '/') == [".."];
    assert Split(name, '/') == [name];
  }

  lemma ParentSegmentKept(segs: seq<string>, name: string)
    requires |segs| > 0 && forall k :: 0 <= k < |segs| ==> PlainSegment(segs[k])
    requires PlainSegment(name)
    ensures NormFrom([], ([""] + segs) + ([".."] + [name]), false) == segs[..|segs| - 1] + [name]
  {
    var tail := [".."] + [name];
    LeadingEmptySegmentKept(segs);
    ParentDropsLast(segs, name);
    NormFromAppend([], [""] + segs, tail, false);
  }
  lemma LeadingEmptySegmentKept(segs: seq<string>)
    requires forall k :: 0 <= k < |segs| ==> PlainSegment(segs[k])
    ensures NormFrom([], [""] + segs, false) == segs
  {
    NormFromAppend([], [""], segs, false);
    assert NormFrom([], [""], false) == [];
    NormFromPlain([], segs, false);
  }
  lemma ParentDropsLast(segs: seq<string>, name: string)
    requires |segs| > 0 && forall k :: 0 <= k < |segs| ==> PlainSegment(segs[k])
    requires PlainSegment(name)
    ensures NormFrom(segs, [".."] + [name], false) == segs[..|segs| - 1] + [name]
  {
    var up := segs[..|segs| - 1];
    var tail := [".."] + [name];
    assert PlainSegment(segs[|segs| - 1]);
    assert NormStep(segs, "..", false) == up;
    assert tail[1..] == [name];
    assert NormFrom(segs, tail, false) == NormFrom(up, [name], false);
    assert NormFrom(up, [name], false) == up + [name];
  }

  lemma JoinEndsWithLast(parts: seq<string>, sep: string)
    requires |parts| > 0
    ensures EndsWith(Join(parts, sep), parts[|parts| - 1])
    decreases |parts|
  {
    if |parts| > 1 {
      JoinEndsWithLast(parts[1..], sep);
      var rest := Join(parts[1..], sep);
      assert Join(parts, sep) == parts[0] + sep + rest;
      SuffixOfSuffix(Join(parts, sep), rest, parts[|parts| - 1]);
    }
  }

  lemma LastCharOfJoin(parts: seq<string>, sep: string)
    requires |parts| > 0 && parts[|parts| - 1] != ""
    ensures var j := Join(parts, sep);
            |j| > 0 && j[|j| - 1] == parts[|parts| - 1][|parts[|parts| - 1]| - 1]
  {
    var j := Join(parts, sep);
    var last := parts[|parts| - 1];
    JoinEndsWithLast(parts, sep);
    assert |last| <= |j|;
    assert j[|j| - |last|..] == last;
    assert j[|j| - 1] == j[|j| - |last|..][|last| - 1];
  }
}
