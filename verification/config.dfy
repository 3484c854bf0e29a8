/**
 The configuration fixed when the server starts: the log directory, found by
 probing a priority list of candidates, and the list of recognised file
 extensions, read from `LOG_EXTENSIONS`.
 */
module Config {
  import opened Optional
  import opened Text
  import opened FileSystem

  /** The part of the process environment the server reads: `process.cwd()`,
      `LOGS_DIR` and `LOG_EXTENSIONS` (`None` when unset). */
  datatype Env = Env(cwd: string, logsDirVar: Option<string>, logExtensionsVar: Option<string>)

  /** What the server fixes at start-up: the working directory its relative paths are taken
      from, the resolved log directory and the recognised extensions. */
  datatype Config = Config(cwd: string, logsDir: string, extensions: seq<string>)

  const DefaultExtensions: string := ".log,.txt"

  /** The candidate directories in priority order; `.filter(Boolean)` drops an unset or empty
      `LOGS_DIR`. */
  function Candidates(env: Env): (c: seq<string>)
    ensures |c| == (if env.logsDirVar.Some? && env.logsDirVar.value != "" then 7 else 6)
    ensures env.logsDirVar.Some? && env.logsDirVar.value != "" ==> c[0] == env.logsDirVar.value
    ensures c[|c| - 6..] == [PathJoin(env.cwd, "logs"), PathJoin(env.cwd, "apps/backend/logs"),
                             PathJoin(env.cwd, "server/logs"), PathJoin(env.cwd, "backend/logs"),
                             "/var/log", "C:\\logs"]
  {
    var conventional := [
      PathJoin(env.cwd, "logs"),
      PathJoin(env.cwd, "apps/backend/logs"),
      PathJoin(env.cwd, "server/logs"),
      PathJoin(env.cwd, "backend/logs"),
      "/var/log",
      "C:\\logs"
    ];
    if env.logsDirVar.Some? && env.logsDirVar.value != "" then [env.logsDirVar.value] + conventional
    else conventional
  }

  /** The index of the first candidate, from `i` on, that `existsSync` finds. */
  function FirstExisting(fs: Fs, cwd: string, c: seq<string>, i: nat): (r: Option<nat>)
    requires i <= |c|
    ensures r.Some? ==> i <= r.value < |c| && Exists(fs, cwd, c[r.value])
    ensures r.Some? ==> forall j :: i <= j < r.value ==> !Exists(fs, cwd, c[j])
    ensures r.None? ==> forall j :: i <= j < |c| ==> !Exists(fs, cwd, c[j])
    decreases |c| - i
  {
    if i == |c| then None
    else if Exists(fs, cwd, c[i]) then Some(i)
    else FirstExisting(fs, cwd, c, i + 1)
  }

  /** `getLogsDirectory`: the first candidate `existsSync` finds, resolved; `<cwd>/logs` when
      none is found. */
  function LogsDirectory(env: Env, fs: Fs): (d: string)
    ensures (exists i :: 0 <= i < |Candidates(env)| && Exists(fs, env.cwd, Candidates(env)[i])) ==>
              exists i :: 0 <= i < |Candidates(env)| && d == Resolve(env.cwd, Candidates(env)[i])
                && Exists(fs, env.cwd, Candidates(env)[i])
                && forall j :: 0 <= j < i ==> !Exists(fs, env.cwd, Candidates(env)[j])
    ensures (forall i :: 0 <= i < |Candidates(env)| ==> !Exists(fs, env.cwd, Candidates(env)[i])) ==>
              d == Resolve(env.cwd, PathJoin(env.cwd, "logs"))
  {
    var c := Candidates(env);
    match FirstExisting(fs, env.cwd, c, 0)
    case Some(i) => Resolve(env.cwd, c[i])
    case None => Resolve(env.cwd, PathJoin(env.cwd, "logs"))
  }

  /** From an absolute working directory, as `process.cwd()` always is, the log directory is a
      canonical absolute path. */
  lemma LogsDirectoryIsCanonical(env: Env, fs: Fs)
    requires Absolute(env.cwd)
    ensures Canonical(LogsDirectory(env, fs))
  {
    var c := Candidates(env);
    match FirstExisting(fs, env.cwd, c, 0)
    case Some(i) => ResolveIsCanonical(env.cwd, c[i]);
    case None => ResolveIsCanonical(env.cwd, PathJoin(env.cwd, "logs"));
  }

  /** An existing `LOGS_DIR` always wins. */
  lemma OverrideWins(env: Env, fs: Fs)
    requires env.logsDirVar.Some? && env.logsDirVar.value != ""
    requires Exists(fs, env.cwd, env.logsDirVar.value)
    ensures LogsDirectory(env, fs) == Resolve(env.cwd, env.logsDirVar.value)
  {
  }

  /** A `LOGS_DIR` written with a trailing `/` selects the same directory as without it. */
  lemma OverrideTrailingSlash(env: Env, fs: Fs, dir: string)
    requires dir != "" && env.logsDirVar == Some(dir + "/")
    requires Exists(fs, env.cwd, dir) && Stat(fs, env.cwd, dir).value.body.DirBody?
    ensures LogsDirectory(env, fs) == Resolve(env.cwd, dir)
  {
    TrailingSlash(fs, env.cwd, dir);
    OverrideWins(env, fs);
  }

  /** An empty `LOGS_DIR` is the same as an unset one. */
  lemma EmptyOverrideIgnored(env: Env, fs: Fs)
    requires env.logsDirVar == Some("")
    ensures LogsDirectory(env, fs) == LogsDirectory(env.(logsDirVar := None), fs)
  {
  }

  /** `LOG_EXTENSIONS || '.log,.txt'`. */
  function ExtensionsSetting(env: Env): string {
    if env.logExtensionsVar.Some? && env.logExtensionsVar.value != "" then env.logExtensionsVar.value
    else DefaultExtensions
  }

  /** `raw.split(',').map(ext => ext.trim())`. */
  function ParseExtensions(raw: string): (exts: seq<string>)
    ensures |exts| == |Split(raw, ',')|
  {
    var pieces := Split(raw, ',');
    seq(|pieces|, k requires 0 <= k < |pieces| => Trim(pieces[k]))
  }

  /** The recognised extensions. */
  function Extensions(env: Env): (exts: seq<string>)
    ensures |exts| >= 1
  {
    ParseExtensions(ExtensionsSetting(env))
  }

  /** Without `LOG_EXTENSIONS` the server recognises `.log` and `.txt`. */
  lemma DefaultExtensionList(env: Env)
    requires env.logExtensionsVar.None?
    ensures Extensions(env) == [".log", ".txt"]
  {
    DefaultExtensionsParsed();
    DefaultExtensionsUnpadded();
  }

  lemma DefaultExtensionsParsed()
    ensures ParseExtensions(DefaultExtensions) == [Trim(".log"), Trim(".txt")]
  {
    DefaultSplit();
  }

  lemma DefaultExtensionsUnpadded()
    ensures Trim(".log") == ".log" && Trim(".txt") == ".txt"
  {
    TrimUnpadded(".log");
    TrimUnpadded(".txt");
  }

  /** An empty `LOG_EXTENSIONS` is the same as an unset one. */
  lemma EmptyExtensionsVarIgnored(env: Env)
    requires env.logExtensionsVar == Some("")
    ensures Extensions(env) == Extensions(env.(logExtensionsVar := None))
  {
  }

  /** One extension per comma-separated piece, none holding a comma or padded with white space. */
  lemma ExtensionsAreTrimmedPieces(raw: string)
    ensures forall k :: 0 <= k < |ParseExtensions(raw)| ==>
              var ext := ParseExtensions(raw)[k];
              && ',' !in ext
              && (ext == [] || (!IsSpace(ext[0]) && !IsSpace(ext[|ext| - 1])))
  {
    var pieces := Split(raw, ',');
    var exts := ParseExtensions(raw);
    SplitPiecesLackSeparator(raw, ',');
    forall k | 0 <= k < |exts|
      ensures ',' !in exts[k]
      ensures exts[k] == [] || (!IsSpace(exts[k][0]) && !IsSpace(exts[k][|exts[k]| - 1]))
    {
      assert exts[k] == Trim(pieces[k]);
      assert pieces[k] in pieces;
      TrimKeepsAbsent(pieces[k], ',');
    }
  }

  lemma DefaultSplit()
    ensures Split(DefaultExtensions, ',') == [".log", ".txt"]
  {
    var raw := DefaultExtensions;
    assert raw == ".log" + [','] + ".txt";
    SplitJoin([".log", ".txt"], ',');
  }

  /** The `some(ext => file.endsWith(ext))` test that admits a directory entry. */
  predicate HasLogExtension(name: string, exts: seq<string>) {
    exists k :: 0 <= k < |exts| && EndsWith(name, exts[k])
  }

  /** An empty extension (a stray comma in `LOG_EXTENSIONS`) admits every entry. */
  lemma EmptyExtensionAdmitsAll(name: string, exts: seq<string>)
    requires "" in exts
    ensures HasLogExtension(name, exts)
  {
    var k :| 0 <= k < |exts| && exts[k] == "";
    assert EndsWith(name, exts[k]);
  }

  /** The configuration captured once at start-up. */
  function Startup(env: Env, fs: Fs): Config {
    Config(env.cwd, LogsDirectory(env, fs), Extensions(env))
  }
}
