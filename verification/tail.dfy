/**
 `tailLog` and `getErrors`: the last lines of a log file, read whole and cut
 with `split('\n').slice(-lines).join('\n')`, with a count of the non-blank
 lines kept.
 */
module Tail {
  import opened Optional
  import opened Text
  import opened Json
  import opened FileSystem
  import opened Config
  import opened Sizes
  import opened Listing

  const DefaultTailFile: string := "combined.log"
  const DefaultTailLines: int := 50
  const ErrorLogFile: string := "error.log"
  const DefaultErrorLines: int := 20

  /** The index `Array.prototype.slice(start)` begins at: negative starts count from the end,
      and both kinds are clamped to the array. */
  function SliceStart(len: nat, start: int): (k: nat)
    ensures k <= len
  {
    if start < 0 then (if len + start < 0 then 0 else len + start)
    else if start > len then len
    else start
  }

  /** The start `slice(-lines)` receives: the negated count, with NaN (and -0) acting as 0. */
  function NegatedCount(lines: Number): int {
    if lines.Num? then -lines.n else 0
  }

  /** The pieces of `content.split('\n')` that `slice(-lines)` keeps. */
  function KeptLines(full: string, lines: Number): seq<string> {
    var parts := Split(full, '\n');
    parts[SliceStart(|parts|, NegatedCount(lines))..]
  }

  /** The text the split/slice/join path returns. */
  function TailText(full: string, lines: Number): string {
    Join(KeptLines(full, lines), "\n")
  }

  /** A positive count keeps the last `lines` lines of the file, or all of them when it has fewer. */
  lemma TailKeepsLastLines(full: string, lines: int)
    requires lines > 0
    ensures var parts := Split(full, '\n');
            KeptLines(full, Num(lines)) == parts[if |parts| <= lines then 0 else |parts| - lines..]
  {
  }

  /** `slice(-0)` is `slice(0)`: a count of 0 returns the whole file, as does a count that is NaN. */
  lemma TailOfZeroIsWholeFile(full: string, lines: Number)
    requires lines == Num(0) || lines == NaN
    ensures TailText(full, lines) == full
  {
    JoinSplit(full, '\n');
  }

  /** A file with no more lines than asked for comes back unchanged. */
  lemma TailOfShortFileIsWholeFile(full: string, lines: int)
    requires |Split(full, '\n')| <= lines
    ensures TailText(full, Num(lines)) == full
  {
    JoinSplit(full, '\n');
  }

  /** Whatever the count, the tail is a suffix of the file. */
  lemma TailIsSuffix(full: string, lines: Number)
    ensures EndsWith(full, TailText(full, lines))
  {
    var parts := Split(full, '\n');
    JoinSuffixOfSplit(full, '\n', SliceStart(|parts|, NegatedCount(lines)));
  }

  /** Re-splitting the tail gives back the kept lines, so counting non-blank lines of the
      returned text counts the non-blank lines among those kept. */
  lemma TailLineCount(full: string, lines: Number)
    ensures |NonBlankLines(Split(TailText(full, lines), '\n'))| == |NonBlankLines(KeptLines(full, lines))|
  {
    var kept := KeptLines(full, lines);
    if |kept| == 0 {
      SplitEmpty();
    } else {
      SplitPiecesLackSeparator(full, '\n');
      SplitJoin(kept, '\n');
    }
  }

  lemma SplitEmpty()
    ensures Split("", '\n') == [""]
    ensures NonBlankLines(Split("", '\n')) == []
  {
    assert NonBlankLines([""]) == [] by {
      assert Trim("") == "";
    }
  }

  /** The `filename` argument after its default: a name, or a non-string `path.join` rejects. */
  datatype FileArg = Name(name: string) | BadName(value: Json)

  function FileArgument(filename: Option<Json>, default: string): FileArg {
    match filename
    case None => Name(default)
    case Some(JStr(s)) => Name(s)
    case Some(v) => BadName(v)
  }

  /** The outcomes of `tailLog`: a tail, the missing-file answer (empty content, 0 lines),
      or the caught exception (empty content and an `error` field). */
  datatype TailResult =
    | TailOk(content: string, message: string, filename: string, lines: nat, fileSize: nat, fileSizeHuman: HumanSize)
    | TailNotFound(message: string, filename: string)
    | TailFailed(rawFilename: Json)
  {
    function Content(): string {
      if TailOk? then content else ""
    }
  }

  /** The names of the listed log files, as the missing-file message enumerates them. */
  function AvailableNames(fs: Fs, cfg: Config): seq<string> {
    var files := GetLogFiles(fs, cfg).Files();
    seq(|files|, k requires 0 <= k < |files| => files[k].name)
  }

  function NotFoundMessage(fs: Fs, cfg: Config, name: string): string {
    "Log file " + name + " not found. Available files: " + Join(AvailableNames(fs, cfg), ", ")
  }

  /** `tailLog(filename = 'combined.log', lines = 50)`. */
  function TailLog(fs: Fs, cfg: Config, filename: Option<Json>, lines: Option<Json>): (r: TailResult)
    ensures r.TailOk? ==> ReadFile(fs, cfg.cwd, PathJoin(cfg.logsDir, r.filename)).Some?
    ensures r.TailOk? ==> r.lines <= |Split(r.content, '\n')|
    ensures r.TailNotFound? ==> !Exists(fs, cfg.cwd, PathJoin(cfg.logsDir, r.filename))
    ensures r.TailFailed? <==> || FileArgument(filename, DefaultTailFile).BadName?
                               || (&& ReadFile(fs, cfg.cwd, PathJoin(cfg.logsDir, FileArgument(filename, DefaultTailFile).name)).None?
                                   && Exists(fs, cfg.cwd, PathJoin(cfg.logsDir, FileArgument(filename, DefaultTailFile).name)))
                               || (&& ReadFile(fs, cfg.cwd, PathJoin(cfg.logsDir, FileArgument(filename, DefaultTailFile).name)).Some?
                                   && Unconvertible(lines.GetOr(JNum(DefaultTailLines))))
  {
    match FileArgument(filename, DefaultTailFile)
    case BadName(v) => TailFailed(v)
    case Name(name) => TailFile(fs, cfg, name, PathJoin(cfg.logsDir, name), lines)
  }

  /** The tail once the file name `name` is joined into the path `p`. */
  function TailFile(fs: Fs, cfg: Config, name: string, p: string, lines: Option<Json>): (r: TailResult)
    ensures r.TailOk? ==> r.filename == name && ReadFile(fs, cfg.cwd, p).Some?
    ensures r.TailOk? ==> r.lines <= |Split(r.content, '\n')|
    ensures r.TailNotFound? ==> r.filename == name && !Exists(fs, cfg.cwd, p)
    ensures r.TailFailed? <==> || (ReadFile(fs, cfg.cwd, p).None? && Exists(fs, cfg.cwd, p))
                               || (ReadFile(fs, cfg.cwd, p).Some? && Unconvertible(lines.GetOr(JNum(DefaultTailLines))))
  {
    if !Exists(fs, cfg.cwd, p) then TailNotFound(NotFoundMessage(fs, cfg, name), name)
    else
      match ReadFile(fs, cfg.cwd, p)
      case None => TailFailed(JStr(name))
      case Some(full) =>
        // `-lines` (and `${lines}` in the `tail` command before it) throws on an unconvertible count.
        if Unconvertible(lines.GetOr(JNum(DefaultTailLines))) then TailFailed(JStr(name))
        else
          var content := TailText(full, ToNumber(lines.GetOr(JNum(DefaultTailLines))));
          var count := |NonBlankLines(Split(content, '\n'))|;
          TailOk(content, "Last " + Decimal(count) + " lines from " + name, name, count,
                 Stat(fs, cfg.cwd, p).value.size, FormatBytes(Stat(fs, cfg.cwd, p).value.size))
  }

  /** The file name enters the tail only through its path; it is echoed back, nothing more. */
  lemma TailFileByPath(fs: Fs, cfg: Config, a: string, b: string, p: string, lines: Option<Json>)
    ensures var ra := TailFile(fs, cfg, a, p, lines);
            var rb := TailFile(fs, cfg, b, p, lines);
            && ra.TailOk? == rb.TailOk?
            && ra.TailNotFound? == rb.TailNotFound?
            && ra.Content() == rb.Content()
            && (ra.TailOk? ==> ra.lines == rb.lines && ra.fileSize == rb.fileSize)
  {
  }

  /** A missing file gives empty content and a message listing the available files. */
  lemma TailLogMissingFile(fs: Fs, cfg: Config, name: string, lines: Option<Json>)
    requires !Exists(fs, cfg.cwd, PathJoin(cfg.logsDir, name))
    ensures TailLog(fs, cfg, Some(JStr(name)), lines) == TailNotFound(NotFoundMessage(fs, cfg, name), name)
    ensures TailLog(fs, cfg, Some(JStr(name)), lines).Content() == ""
  {
  }

  /** A readable file gives the split/slice tail of its text, and `lines` counts the
      non-blank lines among those kept. */
  lemma TailLogReadable(fs: Fs, cfg: Config, name: string, lines: Option<Json>)
    requires ReadFile(fs, cfg.cwd, PathJoin(cfg.logsDir, name)).Some?
    requires !Unconvertible(lines.GetOr(JNum(DefaultTailLines)))
    ensures var r := TailLog(fs, cfg, Some(JStr(name)), lines);
            var p := PathJoin(cfg.logsDir, name);
            var full := ReadFile(fs, cfg.cwd, p).value;
            var n := ToNumber(lines.GetOr(JNum(DefaultTailLines)));
            && r.TailOk?
            && r.content == TailText(full, n)
            && r.lines == |NonBlankLines(KeptLines(full, n))|
            && r.filename == name
            && r.fileSize == Stat(fs, cfg.cwd, p).value.size
  {
    var p := PathJoin(cfg.logsDir, name);
    var full := ReadFile(fs, cfg.cwd, p).value;
    var n := ToNumber(lines.GetOr(JNum(DefaultTailLines)));
    var content := TailText(full, n);
    var count := |NonBlankLines(Split(content, '\n'))|;
    assert FileArgument(Some(JStr(name)), DefaultTailFile) == Name(name);
    assert Exists(fs, cfg.cwd, p);
    assert TailLog(fs, cfg, Some(JStr(name)), lines)
        == TailOk(content, "Last " + Decimal(count) + " lines from " + name, name, count, Stat(fs, cfg.cwd, p).value.size, FormatBytes(Stat(fs, cfg.cwd, p).value.size));
    TailLineCount(full, n);
  }

  /** A readable file with a count JavaScript cannot convert gives the `error` answer, not a tail. */
  lemma TailOfUnconvertibleCountFails(fs: Fs, cfg: Config, name: string, lines: Json)
    requires ReadFile(fs, cfg.cwd, PathJoin(cfg.logsDir, name)).Some?
    requires Unconvertible(lines)
    ensures TailLog(fs, cfg, Some(JStr(name)), Some(lines)) == TailFailed(JStr(name))
  {
    assert FileArgument(Some(JStr(name)), DefaultTailFile) == Name(name);
    assert Exists(fs, cfg.cwd, PathJoin(cfg.logsDir, name));
  }

  /** Every outcome other than a tail carries empty content. */
  lemma TailLogFailureIsEmpty(fs: Fs, cfg: Config, filename: Option<Json>, lines: Option<Json>)
    ensures !TailLog(fs, cfg, filename, lines).TailOk? ==> TailLog(fs, cfg, filename, lines).Content() == ""
    ensures TailLog(fs, cfg, filename, lines).TailFailed? <==>
              match FileArgument(filename, DefaultTailFile)
              case BadName(_) => true
              case Name(name) =>
                || (Exists(fs, cfg.cwd, PathJoin(cfg.logsDir, name)) && ReadFile(fs, cfg.cwd, PathJoin(cfg.logsDir, name)).None?)
                || (ReadFile(fs, cfg.cwd, PathJoin(cfg.logsDir, name)).Some? && Unconvertible(lines.GetOr(JNum(DefaultTailLines))))
  {
  }

  /** A leading `./` names the same file: the tail is the same, only the name echoed back differs. */
  lemma TailIgnoresDotSlash(fs: Fs, cfg: Config, name: string, lines: Option<Json>)
    requires cfg.logsDir != "" && name != ""
    ensures var dotted := TailLog(fs, cfg, Some(JStr("./" + name)), lines);
            var plain := TailLog(fs, cfg, Some(JStr(name)), lines);
            && dotted.TailOk? == plain.TailOk?
            && dotted.TailNotFound? == plain.TailNotFound?
            && dotted.Content() == plain.Content()
            && (plain.TailOk? ==> dotted.lines == plain.lines && dotted.fileSize == plain.fileSize)
  {
    var p := PathJoin(cfg.logsDir, name);
    JoinDotSlash(cfg.logsDir, name);
    assert FileArgument(Some(JStr("./" + name)), DefaultTailFile) == Name("./" + name);
    assert FileArgument(Some(JStr(name)), DefaultTailFile) == Name(name);
    assert TailLog(fs, cfg, Some(JStr("./" + name)), lines) == TailFile(fs, cfg, "./" + name, p, lines);
    assert TailLog(fs, cfg, Some(JStr(name)), lines) == TailFile(fs, cfg, name, p, lines);
    TailFileByPath(fs, cfg, "./" + name, name, p, lines);
  }

  /** The empty name and `.` both name the log directory itself, which exists but cannot be read
      as a file: the answer is the caught exception, not the missing-file message. */
  lemma TailOfDirectoryFails(fs: Fs, cfg: Config, lines: Option<Json>)
    requires Canonical(cfg.logsDir)
    requires ReadDir(fs, cfg.cwd, cfg.logsDir).Some?
    ensures TailLog(fs, cfg, Some(JStr("")), lines).TailFailed?
    ensures TailLog(fs, cfg, Some(JStr(".")), lines).TailFailed?
  {
    JoinSelf(cfg.logsDir);
  }

  /** A name starting with `../` reads the sibling entry of the log directory's parent. */
  lemma TailLeavesLogDirectory(fs: Fs, cfg: Config, segs: seq<string>, name: string, lines: Option<Json>)
    requires |segs| > 0 && forall k :: 0 <= k < |segs| ==> PlainSegment(segs[k])
    requires cfg.logsDir == Rooted(segs) && PlainSegment(name)
    requires ReadFile(fs, cfg.cwd, Rooted(segs[..|segs| - 1] + [name])).Some?
    requires !Unconvertible(lines.GetOr(JNum(DefaultTailLines)))
    ensures var r := TailLog(fs, cfg, Some(JStr("../" + name)), lines);
            && r.TailOk?
            && r.content == TailText(ReadFile(fs, cfg.cwd, Rooted(segs[..|segs| - 1] + [name])).value,
                                     ToNumber(lines.GetOr(JNum(DefaultTailLines))))
  {
    ParentSegment(segs, name);
    TailLogReadable(fs, cfg, "../" + name, lines);
  }

  /** `getErrors`: the `error.log` tail with its message replaced. */
  datatype ErrorsResult = ErrorsResult(tail: TailResult, message: string)

  function GetErrors(fs: Fs, cfg: Config, lines: Option<Json>): (r: ErrorsResult)
    ensures r.tail == TailLog(fs, cfg, Some(JStr(ErrorLogFile)), Some(lines.GetOr(JNum(DefaultErrorLines))))
    ensures r.message == "No errors found" <==> r.tail.Content() == ""
  {
    var t := TailLog(fs, cfg, Some(JStr(ErrorLogFile)), Some(lines.GetOr(JNum(DefaultErrorLines))));
    if t.TailOk? && t.content != "" then
      ErrorsResult(t, "Found " + Decimal(t.lines) + " error entries")
    else
      ErrorsResult(t, "No errors found")
  }
}
