/**
 `getServerStatus`: a 10-line tail of `combined.log` and a 5-line tail of
 `error.log`, summarised by a fixed-priority heuristic over the last five
 non-blank lines of the former.
 */
module Status {
  import opened Optional
  import opened Text
  import opened Json
  import opened FileSystem
  import opened Config
  import opened Tail

  const CombinedLogFile: string := "combined.log"
  const StatusTailLines: int := 10
  const StatusErrorLines: int := 5
  const RecentLogCount: nat := 5

  /** The `status` field. */
  datatype Health = Running | Errored | Active | Unknown

  datatype ServerStatus = ServerStatus(
    status: Health,
    recentLogs: seq<string>,
    recentErrors: seq<string>,
    errorCount: nat,
    logsAvailable: bool,
    lastActivity: string,
    message: string)

  /** `log.includes('Worker') && log.includes('ready')`. */
  predicate ReadyLine(log: string) {
    Contains(log, "Worker") && Contains(log, "ready")
  }

  /** `log.includes('error') || log.includes('Error')`. */
  predicate ErrorLine(log: string) {
    Contains(log, "error") || Contains(log, "Error")
  }

  /** `arr.slice(-n)` for a positive `n`: the last `n` elements, or all of them. */
  function LastN(s: seq<string>, n: nat): (r: seq<string>)
    ensures |r| == if |s| <= n then |s| else n
    ensures r == s[|s| - |r|..]
  {
    if |s| <= n then s else s[|s| - n..]
  }

  /** The non-blank lines of a tail's content, or none when the content is empty. */
  function ContentLines(content: string): seq<string> {
    if content != "" then NonBlankLines(Split(content, '\n')) else []
  }

  /** The status heuristic, first rule that applies wins. */
  function Classify(recent: seq<string>): (h: Health)
    ensures h == Unknown <==> recent == []
    ensures h == Active ==> forall i :: 0 <= i < |recent| ==> !ReadyLine(recent[i]) && !ErrorLine(recent[i])
  {
    if exists i :: 0 <= i < |recent| && ReadyLine(recent[i]) then Running
    else if exists i :: 0 <= i < |recent| && ErrorLine(recent[i]) then Errored
    else if |recent| > 0 then Active
    else Unknown
  }

  /** The summary built from the two tails. */
  function Summarize(combined: TailResult, errors: TailResult): ServerStatus {
    var recentLogs := LastN(ContentLines(combined.Content()), RecentLogCount);
    var recentErrors := ContentLines(errors.Content());
    ServerStatus(
      Classify(recentLogs),
      recentLogs,
      recentErrors,
      |recentErrors|,
      combined.Content() != "",
      if |recentLogs| > 0 then "recently active" else "no recent activity",
      if combined.TailFailed? then "No logs available" else combined.message)
  }

  /** `getServerStatus`. Its `catch` is unreachable: `tailLog` catches its own failures. */
  function GetServerStatus(fs: Fs, cfg: Config): (st: ServerStatus)
    ensures st.errorCount == |st.recentErrors| && |st.recentLogs| <= RecentLogCount
    ensures st.status == Unknown <==> st.recentLogs == []
  {
    Summarize(TailLog(fs, cfg, Some(JStr(CombinedLogFile)), Some(JNum(StatusTailLines))),
              TailLog(fs, cfg, Some(JStr(ErrorLogFile)), Some(JNum(StatusErrorLines))))
  }

  /** At most five recent logs, the last non-blank lines of the combined tail in order; the recent
      errors are all the non-blank lines of the error tail and `errorCount` counts them; logs are
      available exactly when the combined tail has content. */
  lemma SummaryContents(combined: TailResult, errors: TailResult)
    ensures var st := Summarize(combined, errors);
            var lines := ContentLines(combined.Content());
            && |st.recentLogs| <= RecentLogCount
            && |st.recentLogs| == (if |lines| <= RecentLogCount then |lines| else RecentLogCount)
            && st.recentLogs == lines[|lines| - |st.recentLogs|..]
            && st.recentErrors == ContentLines(errors.Content())
            && st.errorCount == |st.recentErrors|
            && (st.logsAvailable <==> combined.Content() != "")
            && (st.lastActivity == "recently active" <==> |st.recentLogs| > 0)
  {
  }

  /** Every recent log and every recent error is a non-blank line of its tail. */
  lemma SummaryLinesAreTailLines(combined: TailResult, errors: TailResult)
    ensures forall l :: l in Summarize(combined, errors).recentLogs ==>
              !Blank(l) && l in Split(combined.Content(), '\n')
    ensures forall l :: l in Summarize(combined, errors).recentErrors ==>
              !Blank(l) && l in Split(errors.Content(), '\n')
  {
    var lines := ContentLines(combined.Content());
    var recent := LastN(lines, RecentLogCount);
    NonBlankLinesMembers(Split(combined.Content(), '\n'));
    NonBlankLinesMembers(Split(errors.Content(), '\n'));
    forall l | l in recent ensures l in lines {
      var k :| 0 <= k < |recent| && recent[k] == l;
      assert l == lines[|lines| - |recent| + k];
    }
  }

  /** The heuristic's rules, in their priority order. */
  lemma ClassifyRules(recent: seq<string>)
    ensures var ready := exists l :: l in recent && ReadyLine(l);
            var failing := exists l :: l in recent && ErrorLine(l);
            && (Classify(recent) == Running <==> ready)
            && (Classify(recent) == Errored <==> !ready && failing)
            && (Classify(recent) == Active <==> !ready && !failing && |recent| > 0)
            && (Classify(recent) == Unknown <==> |recent| == 0)
  {
    if exists l :: l in recent && ReadyLine(l) {
      var l :| l in recent && ReadyLine(l);
      var i :| 0 <= i < |recent| && recent[i] == l;
      assert ReadyLine(recent[i]);
    }
    if exists l :: l in recent && ErrorLine(l) {
      var l :| l in recent && ErrorLine(l);
      var i :| 0 <= i < |recent| && recent[i] == l;
      assert ErrorLine(recent[i]);
    }
    if exists i :: 0 <= i < |recent| && ReadyLine(recent[i]) {
      var i :| 0 <= i < |recent| && ReadyLine(recent[i]);
      assert recent[i] in recent;
    }
    if exists i :: 0 <= i < |recent| && ErrorLine(recent[i]) {
      var i :| 0 <= i < |recent| && ErrorLine(recent[i]);
      assert recent[i] in recent;
    }
  }

  /** The reported status classifies the recent logs. */
  lemma SummaryClassification(combined: TailResult, errors: TailResult)
    ensures var st := Summarize(combined, errors);
            var ready := exists l :: l in st.recentLogs && ReadyLine(l);
            var failing := exists l :: l in st.recentLogs && ErrorLine(l);
            && (st.status == Running <==> ready)
            && (st.status == Errored <==> !ready && failing)
            && (st.status == Active <==> !ready && !failing && |st.recentLogs| > 0)
            && (st.status == Unknown <==> |st.recentLogs| == 0)
  {
    ClassifyRules(Summarize(combined, errors).recentLogs);
  }

  /** The status read from the server's own files: the 10-line tail of `combined.log` and the
      5-line tail of `error.log`. */
  lemma ServerStatusSources(fs: Fs, cfg: Config)
    ensures GetServerStatus(fs, cfg) ==
              Summarize(TailLog(fs, cfg, Some(JStr("combined.log")), Some(JNum(10))),
                        TailLog(fs, cfg, Some(JStr("error.log")), Some(JNum(5))))
  {
  }

  /** Without `combined.log` the status is unknown and no logs are available, while the message
      is the tail's missing-file message, not "No logs available". */
  lemma StatusWithoutCombinedLog(fs: Fs, cfg: Config)
    requires !Exists(fs, cfg.cwd, PathJoin(cfg.logsDir, CombinedLogFile))
    ensures var st := GetServerStatus(fs, cfg);
            && st.status == Unknown
            && !st.logsAvailable
            && st.recentLogs == []
            && st.lastActivity == "no recent activity"
            && st.message == NotFoundMessage(fs, cfg, CombinedLogFile)
  {
    var combined := TailLog(fs, cfg, Some(JStr(CombinedLogFile)), Some(JNum(StatusTailLines)));
    var errors := TailLog(fs, cfg, Some(JStr(ErrorLogFile)), Some(JNum(StatusErrorLines)));
    TailLogMissingFile(fs, cfg, CombinedLogFile, Some(JNum(StatusTailLines)));
    assert GetServerStatus(fs, cfg) == Summarize(combined, errors);
    SummaryOfMissingLog(combined, errors);
  }

  lemma SummaryOfMissingLog(combined: TailResult, errors: TailResult)
    requires combined.TailNotFound?
    ensures var st := Summarize(combined, errors);
            && st.status == Unknown
            && !st.logsAvailable
            && st.recentLogs == []
            && st.lastActivity == "no recent activity"
            && st.message == combined.message
  {
    assert combined.Content() == "";
    assert ContentLines(combined.Content()) == [];
    assert LastN([], RecentLogCount) == [];
    ClassifyRules([]);
  }

  /** A combined tail made only of blank lines makes logs available with an unknown status. */
  lemma BlankTailIsAvailableButUnknown(combined: TailResult, errors: TailResult)
    requires combined.Content() != ""
    requires forall l :: l in Split(combined.Content(), '\n') ==> Blank(l)
    ensures Summarize(combined, errors).logsAvailable
    ensures Summarize(combined, errors).status == Unknown
  {
    BlankLinesFilterToNothing(Split(combined.Content(), '\n'));
    assert ContentLines(combined.Content()) == [];
    assert Summarize(combined, errors).recentLogs == [];
    ClassifyRules([]);
  }
}
