/**
 `getLogFiles`: the entries of the log directory that carry a recognised
 extension, each described from its `statSync`, newest first.
 */
module Listing {
  import opened Optional
  import opened Text
  import opened FileSystem
  import opened Config
  import opened Sizes

  datatype LogFile = LogFile(name: string, size: nat, sizeHuman: HumanSize, modified: int, path: string)

  datatype LogFilesResult =
    | DirNotFound(message: string, logsDir: string)
    | Listed(files: seq<LogFile>, message: string, logsDir: string)
    | ListingFailed
  {
    /** The `files` field, present (possibly empty) on every outcome. */
    function Files(): seq<LogFile> {
      if Listed? then files else []
    }
  }

  const DirNotFoundMessage: string := "Logs directory not found. Server might be in development mode (console only)."

  /** The entries that end with one of the extensions, in directory order. */
  function WithLogExtension(entries: seq<string>, exts: seq<string>): (r: seq<string>)
    ensures |r| <= |entries|
  {
    if |entries| == 0 then []
    else (if HasLogExtension(entries[0], exts) then [entries[0]] else []) + WithLogExtension(entries[1..], exts)
  }

  /** The filter keeps exactly the entries with a recognised extension. */
  lemma {:induction false} WithLogExtensionSpec(entries: seq<string>, exts: seq<string>)
    ensures forall x :: x in WithLogExtension(entries, exts) <==> x in entries && HasLogExtension(x, exts)
  {
    if |entries| > 0 {
      WithLogExtensionSpec(entries[1..], exts);
      assert entries == [entries[0]] + entries[1..];
    }
  }

  /** The descriptor `statSync` yields for the entry `name` of `dir`, if the path exists. */
  function Describe(fs: Fs, cwd: string, dir: string, name: string): Option<LogFile> {
    var p := PathJoin(dir, name);
    match Stat(fs, cwd, p)
    case Some(n) => Some(LogFile(name, n.size, FormatBytes(n.size), n.mtime, p))
    case None => None
  }

  /** Whether `f` is what `statSync` says about the entry `name` of `dir`. */
  predicate Describes(fs: Fs, cwd: string, dir: string, name: string, f: LogFile) {
    var p := PathJoin(dir, name);
    && Exists(fs, cwd, p)
    && var n := Stat(fs, cwd, p).value;
       f == LogFile(name, n.size, FormatBytes(n.size), n.mtime, p)
  }

  /** The `.map(file => … statSync …)` step: fails as a whole when any entry cannot be stat'ed. */
  function DescribeAll(fs: Fs, cwd: string, dir: string, names: seq<string>): (r: Option<seq<LogFile>>)
    ensures r.Some? ==> |r.value| == |names|
  {
    if |names| == 0 then Some([])
    else
      match Describe(fs, cwd, dir, names[0])
      case None => None
      case Some(f) =>
        match DescribeAll(fs, cwd, dir, names[1..])
        case None => None
        case Some(rest) => Some([f] + rest)
  }

  /** Each entry is described by its own `statSync`, in order; the map fails only when some
      entry's path is missing. */
  lemma DescribeAllSpec(fs: Fs, cwd: string, dir: string, names: seq<string>)
    ensures var r := DescribeAll(fs, cwd, dir, names);
            && (r.Some? ==> forall k :: 0 <= k < |names| ==> Describes(fs, cwd, dir, names[k], r.value[k]))
            && (r.None? <==> exists k :: 0 <= k < |names| && !Exists(fs, cwd, PathJoin(dir, names[k])))
  {
    DescribeAllSound(fs, cwd, dir, names);
    DescribeAllFails(fs, cwd, dir, names);
  }

  lemma {:induction false} DescribeAllSound(fs: Fs, cwd: string, dir: string, names: seq<string>)
    ensures var r := DescribeAll(fs, cwd, dir, names);
            r.Some? ==> forall k :: 0 <= k < |names| ==> Describes(fs, cwd, dir, names[k], r.value[k])
  {
    if |names| > 0 {
      DescribeAllSound(fs, cwd, dir, names[1..]);
    }
  }

  lemma {:induction false} DescribeAllFails(fs: Fs, cwd: string, dir: string, names: seq<string>)
    ensures DescribeAll(fs, cwd, dir, names).None? <==> exists k :: 0 <= k < |names| && !Exists(fs, cwd, PathJoin(dir, names[k]))
  {
    if |names| > 0 {
      DescribeAllFails(fs, cwd, dir, names[1..]);
      if DescribeAll(fs, cwd, dir, names).None? && Exists(fs, cwd, PathJoin(dir, names[0])) {
        var k :| 0 <= k < |names| - 1 && !Exists(fs, cwd, PathJoin(dir, names[1..][k]));
        assert !Exists(fs, cwd, PathJoin(dir, names[k + 1]));
      }
      if exists k :: 0 <= k < |names| && !Exists(fs, cwd, PathJoin(dir, names[k])) {
        var k :| 0 <= k < |names| && !Exists(fs, cwd, PathJoin(dir, names[k]));
        if k > 0 {
          assert !Exists(fs, cwd, PathJoin(dir, names[1..][k - 1]));
        }
      }
    }
  }

  /** Most recently modified first. */
  predicate NewestFirst(s: seq<LogFile>) {
    forall i, j :: 0 <= i < j < |s| ==> s[i].modified >= s[j].modified
  }

  /** Places `f` ahead of the first element that is not strictly newer. */
  function InsertByMtime(f: LogFile, s: seq<LogFile>): (r: seq<LogFile>)
    ensures multiset(r) == multiset(s) + multiset{f}
    ensures |r| == |s| + 1
    ensures NewestFirst(s) ==> NewestFirst(r)
  {
    if |s| == 0 then [f]
    else if s[0].modified > f.modified then
      var rest := InsertByMtime(f, s[1..]);
      assert s == [s[0]] + s[1..];
      NewerThanAll(s, f, rest);
      [s[0]] + rest
    else
      [f] + s
  }

  /** The head of a newest-first list, strictly newer than `f`, may stay in front of the
      insertion of `f` into its tail. */
  lemma NewerThanAll(s: seq<LogFile>, f: LogFile, rest: seq<LogFile>)
    requires |s| > 0 && s[0].modified > f.modified
    requires multiset(rest) == multiset(s[1..]) + multiset{f}
    requires NewestFirst(s) ==> NewestFirst(rest)
    ensures NewestFirst(s) ==> NewestFirst([s[0]] + rest)
  {
    if NewestFirst(s) {
      forall x | x in rest ensures x.modified <= s[0].modified {
        assert x in multiset(rest);
        if x != f {
          assert x in multiset(s[1..]);
          var k :| 0 <= k < |s[1..]| && s[1..][k] == x;
          assert s[k + 1] == x;
        }
      }
      var r := [s[0]] + rest;
      forall i, j | 0 <= i < j < |r| ensures r[i].modified >= r[j].modified {
        if i == 0 {
          assert r[j] in rest;
        } else {
          assert r[i] == rest[i - 1] && r[j] == rest[j - 1];
        }
      }
    }
  }

  /** `.sort((a, b) => new Date(b.modified) - new Date(a.modified))`: a stable sort, newest first. */
  function SortByMtime(s: seq<LogFile>): (r: seq<LogFile>)
    ensures |r| == |s|
    ensures NewestFirst(r)
  {
    if |s| == 0 then []
    else
      assert s == [s[0]] + s[1..];
      InsertByMtime(s[0], SortByMtime(s[1..]))
  }

  /** The sort is a permutation of its input. */
  lemma {:induction false} SortByMtimePermutes(s: seq<LogFile>)
    ensures multiset(SortByMtime(s)) == multiset(s)
  {
    if |s| > 0 {
      SortByMtimePermutes(s[1..]);
      assert s == [s[0]] + s[1..];
    }
  }

  /** The elements modified at instant `t`, in order. */
  function WithMtime(s: seq<LogFile>, t: int): seq<LogFile> {
    if |s| == 0 then [] else (if s[0].modified == t then [s[0]] else []) + WithMtime(s[1..], t)
  }

  lemma WithMtimeCons(x: LogFile, s: seq<LogFile>, t: int)
    ensures WithMtime([x] + s, t) == (if x.modified == t then [x] else []) + WithMtime(s, t)
  {
    assert ([x] + s)[1..] == s;
  }

  lemma {:induction false} InsertByMtimeStable(f: LogFile, s: seq<LogFile>, t: int)
    ensures WithMtime(InsertByMtime(f, s), t) == (if f.modified == t then [f] else []) + WithMtime(s, t)
  {
    if |s| == 0 {
      WithMtimeCons(f, s, t);
    } else if s[0].modified > f.modified {
      var rest := InsertByMtime(f, s[1..]);
      var head := if s[0].modified == t then [s[0]] else [];
      var inserted := if f.modified == t then [f] else [];
      assert head == [] || inserted == [];
      assert s == [s[0]] + s[1..];
      calc {
        WithMtime(InsertByMtime(f, s), t);
        { assert InsertByMtime(f, s) == [s[0]] + rest; }
        WithMtime([s[0]] + rest, t);
        { WithMtimeCons(s[0], rest, t); }
        head + WithMtime(rest, t);
        { InsertByMtimeStable(f, s[1..], t); }
        head + (inserted + WithMtime(s[1..], t));
        inserted + (head + WithMtime(s[1..], t));
        { WithMtimeCons(s[0], s[1..], t); }
        inserted + WithMtime(s, t);
      }
    } else {
      WithMtimeCons(f, s, t);
    }
  }

  /** Files with equal modification times keep their directory order. */
  lemma {:induction false} SortByMtimeStable(s: seq<LogFile>, t: int)
    ensures WithMtime(SortByMtime(s), t) == WithMtime(s, t)
  {
    if |s| > 0 {
      SortByMtimeStable(s[1..], t);
      InsertByMtimeStable(s[0], SortByMtime(s[1..]), t);
    }
  }

  /** `getLogFiles` against the configured directory. */
  function GetLogFiles(fs: Fs, cfg: Config): (r: LogFilesResult)
    ensures r.DirNotFound? <==> !Exists(fs, cfg.cwd, cfg.logsDir)
    ensures r.Listed? ==> ReadDir(fs, cfg.cwd, cfg.logsDir).Some? && NewestFirst(r.files)
    ensures !r.ListingFailed? ==> r.logsDir == cfg.logsDir
  {
    if !Exists(fs, cfg.cwd, cfg.logsDir) then DirNotFound(DirNotFoundMessage, cfg.logsDir)
    else
      match ReadDir(fs, cfg.cwd, cfg.logsDir)
      case None => ListingFailed
      case Some(entries) =>
        match DescribeAll(fs, cfg.cwd, cfg.logsDir, WithLogExtension(entries, cfg.extensions))
        case None => ListingFailed
        case Some(described) =>
          var files := SortByMtime(described);
          Listed(files, "Found " + Decimal(|files|) + " log files", cfg.logsDir)
  }

  /** A missing directory is reported as such; every answer but a listing has no files. */
  lemma GetLogFilesContents(fs: Fs, cfg: Config)
    ensures GetLogFiles(fs, cfg).DirNotFound? <==> !Exists(fs, cfg.cwd, cfg.logsDir)
    ensures !GetLogFiles(fs, cfg).Listed? ==> GetLogFiles(fs, cfg).Files() == []
    ensures GetLogFiles(fs, cfg).Listed? ==> ReadDir(fs, cfg.cwd, cfg.logsDir).Some?
  {
  }

  /** Every listed file is an entry of the directory with a recognised extension, described by
      its own `statSync`. */
  lemma ListedFilesAreLogEntries(fs: Fs, cfg: Config)
    ensures GetLogFiles(fs, cfg).Listed? ==>
              forall f :: f in GetLogFiles(fs, cfg).files ==>
                && f.name in ReadDir(fs, cfg.cwd, cfg.logsDir).value
                && HasLogExtension(f.name, cfg.extensions)
                && Describes(fs, cfg.cwd, cfg.logsDir, f.name, f)
  {
    var r := GetLogFiles(fs, cfg);
    if r.Listed? {
      var entries := ReadDir(fs, cfg.cwd, cfg.logsDir).value;
      var names := WithLogExtension(entries, cfg.extensions);
      WithLogExtensionSpec(entries, cfg.extensions);
      var described := DescribeAll(fs, cfg.cwd, cfg.logsDir, names).value;
      DescribeAllSpec(fs, cfg.cwd, cfg.logsDir, names);
      assert r.files == SortByMtime(described);
      SortByMtimePermutes(described);
      forall f | f in r.files
        ensures f.name in entries && HasLogExtension(f.name, cfg.extensions) && Describes(fs, cfg.cwd, cfg.logsDir, f.name, f)
      {
        assert f in multiset(described);
        var k :| 0 <= k < |described| && described[k] == f;
        assert Describes(fs, cfg.cwd, cfg.logsDir, names[k], f);
        assert names[k] in names;
      }
    }
  }

  /** Every entry of the directory with a recognised extension is listed. */
  lemma ListedCoversLogEntries(fs: Fs, cfg: Config)
    ensures GetLogFiles(fs, cfg).Listed? ==>
              forall e :: e in ReadDir(fs, cfg.cwd, cfg.logsDir).value && HasLogExtension(e, cfg.extensions) ==>
                exists f :: f in GetLogFiles(fs, cfg).files && f.name == e
  {
    var r := GetLogFiles(fs, cfg);
    if r.Listed? {
      var entries := ReadDir(fs, cfg.cwd, cfg.logsDir).value;
      var names := WithLogExtension(entries, cfg.extensions);
      WithLogExtensionSpec(entries, cfg.extensions);
      var described := DescribeAll(fs, cfg.cwd, cfg.logsDir, names).value;
      DescribeAllSpec(fs, cfg.cwd, cfg.logsDir, names);
      assert r.files == SortByMtime(described);
      SortByMtimePermutes(described);
      forall e | e in entries && HasLogExtension(e, cfg.extensions)
        ensures exists f :: f in r.files && f.name == e
      {
        var k :| 0 <= k < |names| && names[k] == e;
        assert described[k] in multiset(r.files);
      }
    }
  }

  /** The listing is newest first. */
  lemma ListedNewestFirst(fs: Fs, cfg: Config)
    ensures GetLogFiles(fs, cfg).Listed? ==> NewestFirst(GetLogFiles(fs, cfg).files)
  {
  }

  /** Files with equal modification times are listed in the order `readdirSync` returned them. */
  lemma ListedKeepsDirectoryOrderOnTies(fs: Fs, cfg: Config, t: int)
    ensures GetLogFiles(fs, cfg).Listed? ==>
              var entries := ReadDir(fs, cfg.cwd, cfg.logsDir).value;
              var described := DescribeAll(fs, cfg.cwd, cfg.logsDir, WithLogExtension(entries, cfg.extensions)).value;
              WithMtime(GetLogFiles(fs, cfg).files, t) == WithMtime(described, t)
  {
    var r := GetLogFiles(fs, cfg);
    if r.Listed? {
      var entries := ReadDir(fs, cfg.cwd, cfg.logsDir).value;
      var described := DescribeAll(fs, cfg.cwd, cfg.logsDir, WithLogExtension(entries, cfg.extensions)).value;
      assert r.files == SortByMtime(described);
      SortByMtimeStable(described, t);
    }
  }
}
