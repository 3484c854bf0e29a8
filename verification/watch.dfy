/**
 `watchLog`: a one-off look at a log file's `statSync`. Nothing is actually
 watched; the answer says whether the file exists and, if so, its size and
 modification time.
 */
module Watch {
  import opened Optional
  import opened Json
  import opened FileSystem
  import opened Config
  import opened Sizes
  import opened Listing
  import opened Tail

  const DefaultWatchFile: string := "combined.log"

  /** The outcomes of `watchLog`: the file's statistics; the missing-file answer; or the caught
      exception of `path.join` on a non-string name, which carries an `error` field. */
  datatype WatchResult =
    | Watching(file: string, size: nat, sizeHuman: HumanSize, lastModified: int, message: string)
    | NotWatching(message: string, filename: string)
    | WatchFailed(rawFilename: Json)
  {
    /** The `watching` field. */
    predicate IsWatching() {
      Watching?
    }
  }

  /** `watchLog(filename = 'combined.log')`. */
  function WatchLog(fs: Fs, cfg: Config, filename: Option<Json>): (r: WatchResult)
    ensures r.WatchFailed? <==> FileArgument(filename, DefaultWatchFile).BadName?
    ensures r.Watching? ==> Exists(fs, cfg.cwd, PathJoin(cfg.logsDir, r.file))
    ensures r.NotWatching? ==> !Exists(fs, cfg.cwd, PathJoin(cfg.logsDir, r.filename))
  {
    match FileArgument(filename, DefaultWatchFile)
    case BadName(v) => WatchFailed(v)
    case Name(name) =>
      var p := PathJoin(cfg.logsDir, name);
      match Stat(fs, cfg.cwd, p)
      case None => NotWatching("Log file " + name + " not found", name)
      case Some(n) => Watching(name, n.size, FormatBytes(n.size), n.mtime, "Monitoring " + name + " for changes")
  }

  /** The file is watched exactly when its path exists, a directory included; a non-string
      name is the only way to reach the `error` answer. */
  lemma WatchOutcome(fs: Fs, cfg: Config, filename: Option<Json>)
    ensures WatchLog(fs, cfg, filename).IsWatching() <==>
              FileArgument(filename, DefaultWatchFile).Name?
              && Exists(fs, cfg.cwd, PathJoin(cfg.logsDir, FileArgument(filename, DefaultWatchFile).name))
    ensures WatchLog(fs, cfg, filename).WatchFailed? <==> FileArgument(filename, DefaultWatchFile).BadName?
  {
  }

  /** The empty name and `.` watch the log directory itself, reporting its own size. */
  lemma WatchOfDirectory(fs: Fs, cfg: Config)
    requires Canonical(cfg.logsDir)
    requires Exists(fs, cfg.cwd, cfg.logsDir)
    ensures var n := Stat(fs, cfg.cwd, cfg.logsDir).value;
            && WatchLog(fs, cfg, Some(JStr(""))) == Watching("", n.size, FormatBytes(n.size), n.mtime, "Monitoring  for changes")
            && WatchLog(fs, cfg, Some(JStr("."))).Watching?
            && WatchLog(fs, cfg, Some(JStr("."))).size == n.size
  {
    JoinSelf(cfg.logsDir);
  }

  /** What `watchLog` reports about an existing file is what the listing's `statSync` says
      about the same entry: same name, size, human size and modification time. */
  lemma WatchAgreesWithListing(fs: Fs, cfg: Config, name: string)
    requires Exists(fs, cfg.cwd, PathJoin(cfg.logsDir, name))
    ensures var w := WatchLog(fs, cfg, Some(JStr(name)));
            && w.Watching?
            && Describes(fs, cfg.cwd, cfg.logsDir, name,
                         LogFile(w.file, w.size, w.sizeHuman, w.lastModified, PathJoin(cfg.logsDir, name)))
  {
  }

  /** `watchLog` and `tailLog` agree on which names are missing: one answers `watching: false`
      exactly when the other answers with the missing-file message. */
  lemma WatchAndTailAgreeOnMissing(fs: Fs, cfg: Config, filename: Option<Json>, lines: Option<Json>)
    ensures WatchLog(fs, cfg, filename).NotWatching? <==> TailLog(fs, cfg, filename, lines).TailNotFound?
    ensures WatchLog(fs, cfg, filename).WatchFailed? ==> TailLog(fs, cfg, filename, lines).TailFailed?
  {
  }

  /** The size reported for a watched file is the one `tailLog` reports for it (given a count
      the tail can convert). */
  lemma WatchAndTailAgreeOnSize(fs: Fs, cfg: Config, name: string, lines: Option<Json>)
    requires ReadFile(fs, cfg.cwd, PathJoin(cfg.logsDir, name)).Some?
    requires !Unconvertible(lines.GetOr(JNum(DefaultTailLines)))
    ensures var w := WatchLog(fs, cfg, Some(JStr(name)));
            var t := TailLog(fs, cfg, Some(JStr(name)), lines);
            && w.Watching? && t.TailOk?
            && w.size == t.fileSize && w.sizeHuman == t.fileSizeHuman
  {
    TailLogReadable(fs, cfg, name, lines);
  }
}
