/**
 The six tools: the schemas `tools/list` advertises and the routing of a
 `tools/call` by tool name to the operation it runs, with the arguments read
 off the call's `arguments` object.
 */
module Tools {
  import opened Optional
  import opened Json
  import opened FileSystem
  import opened Config
  import opened Listing
  import opened Tail
  import opened Status
  import opened Watch
  import opened Search

  /** One advertised argument: its name, JSON type, description and schema default. */
  datatype Param = Param(name: string, typ: string, description: string, default: Option<Json>)

  /** One entry of the `tools/list` answer. */
  datatype ToolSpec = ToolSpec(name: string, description: string, params: seq<Param>, required: seq<string>)

  const GetLogFilesTool: ToolSpec :=
    ToolSpec("get_log_files", "Get list of available log files with metadata", [], [])

  const TailLogTool: ToolSpec :=
    ToolSpec("tail_log", "Get the last N lines from a log file", [
      Param("filename", "string", "Name of the log file (default: combined.log)", Some(JStr("combined.log"))),
      Param("lines", "number", "Number of lines to return (default: 50)", Some(JNum(50)))], [])

  const GetErrorsTool: ToolSpec :=
    ToolSpec("get_errors", "Get recent error log entries", [
      Param("lines", "number", "Number of error lines to return (default: 20)", Some(JNum(20)))], [])

  const GetServerStatusTool: ToolSpec :=
    ToolSpec("get_server_status", "Get server status summary from logs", [], [])

  const WatchLogTool: ToolSpec :=
    ToolSpec("watch_log", "Monitor a log file for changes", [
      Param("filename", "string", "Name of the log file to monitor (default: combined.log)", Some(JStr("combined.log")))], [])

  const SearchLogsTool: ToolSpec :=
    ToolSpec("search_logs", "Search for specific text in log files", [
      Param("query", "string", "Text to search for in logs", None),
      Param("filename", "string", "Log file to search (default: combined.log)", Some(JStr("combined.log"))),
      Param("lines", "number", "Number of matching lines to return (default: 10)", Some(JNum(10)))], ["query"])

  /** The tool list, in the order it is advertised. */
  const ToolList: seq<ToolSpec> :=
    [GetLogFilesTool, TailLogTool, GetErrorsTool, GetServerStatusTool, WatchLogTool, SearchLogsTool]

  /** What an operation returned, before `JSON.stringify` turns it into the reply's text. */
  datatype ToolResult =
    | FilesOut(files: LogFilesResult)
    | TailOut(tail: TailResult)
    | ErrorsOut(errors: ErrorsResult)
    | StatusOut(status: ServerStatus)
    | WatchOut(watch: WatchResult)
    | SearchOut(search: SearchResult)

  /** The `switch (name)` of `handleToolCall`: an operation's result, or the `Unknown tool` throw. */
  datatype Call = Ran(result: ToolResult) | UnknownTool(name: Option<Json>)

  /** Routes a call by its `name`; each argument is `args?.<key>`. */
  function RunTool(fs: Fs, cfg: Config, name: Option<Json>, args: Option<Json>): (c: Call)
    ensures c.UnknownTool? ==> c.name == name
    ensures c.Ran? ==> name.Some? && name.value.JStr?
  {
    if name == Some(JStr("get_log_files")) then Ran(FilesOut(GetLogFiles(fs, cfg)))
    else if name == Some(JStr("tail_log")) then
      Ran(TailOut(TailLog(fs, cfg, OptProp(args, "filename"), OptProp(args, "lines"))))
    else if name == Some(JStr("get_errors")) then Ran(ErrorsOut(GetErrors(fs, cfg, OptProp(args, "lines"))))
    else if name == Some(JStr("get_server_status")) then Ran(StatusOut(GetServerStatus(fs, cfg)))
    else if name == Some(JStr("watch_log")) then Ran(WatchOut(WatchLog(fs, cfg, OptProp(args, "filename"))))
    else if name == Some(JStr("search_logs")) then
      Ran(SearchOut(SearchLogs(fs, cfg, OptProp(args, "query"), OptProp(args, "filename"), OptProp(args, "lines"))))
    else UnknownTool(name)
  }

  /** Whether `name` is the name of an advertised tool. */
  predicate Advertised(name: Option<Json>) {
    exists k :: 0 <= k < |ToolList| && name == Some(JStr(ToolList[k].name))
  }

  /** A call runs an operation exactly when it names an advertised tool; otherwise it fails
      naming what it was given. */
  lemma RoutesExactlyAdvertisedTools(fs: Fs, cfg: Config, name: Option<Json>, args: Option<Json>)
    ensures RunTool(fs, cfg, name, args).Ran? <==> Advertised(name)
    ensures RunTool(fs, cfg, name, args).UnknownTool? ==> RunTool(fs, cfg, name, args).name == name
  {
    if Advertised(name) {
      var k :| 0 <= k < |ToolList| && name == Some(JStr(ToolList[k].name));
      assert k < 6;
    } else {
      assert name != Some(JStr(ToolList[0].name));
      assert name != Some(JStr(ToolList[1].name));
      assert name != Some(JStr(ToolList[2].name));
      assert name != Some(JStr(ToolList[3].name));
      assert name != Some(JStr(ToolList[4].name));
      assert name != Some(JStr(ToolList[5].name));
    }
  }

  /** The advertised names are distinct, so a name selects one schema. */
  lemma ToolNamesDistinct()
    ensures forall i, j :: 0 <= i < j < |ToolList| ==> ToolList[i].name != ToolList[j].name
  {
  }

  /** The `arguments` object holding each schema default, keyed by parameter name. */
  function Defaults(params: seq<Param>): map<string, Json> {
    if |params| == 0 then map[]
    else
      var rest := Defaults(params[1..]);
      if params[0].default.Some? then rest[params[0].name := params[0].default.value] else rest
  }

  /** A call without arguments, with `arguments: null`, with an empty object and with every
      default of `t` spelled out all run the same operation on the same inputs. */
  predicate DefaultsApplied(fs: Fs, cfg: Config, t: ToolSpec) {
    var name := Some(JStr(t.name));
    var spelled := RunTool(fs, cfg, name, Some(JObj(Defaults(t.params))));
    && RunTool(fs, cfg, name, None) == spelled
    && RunTool(fs, cfg, name, Some(JNull)) == spelled
    && RunTool(fs, cfg, name, Some(JObj(map[]))) == spelled
  }

  /** The schema defaults of `tail_log` (`combined.log`, 50 lines) are the ones `tailLog` applies. */
  lemma TailLogDefaults(fs: Fs, cfg: Config)
    ensures DefaultsApplied(fs, cfg, TailLogTool)
  {
    var ps := TailLogTool.params;
    assert Defaults(ps[1..]) == map["lines" := JNum(50)];
    assert Defaults(ps) == map["filename" := JStr("combined.log"), "lines" := JNum(50)];
    var spelled := Some(JObj(Defaults(ps)));
    assert OptProp(spelled, "filename") == Some(JStr("combined.log"));
    assert OptProp(spelled, "lines") == Some(JNum(50));
    TailArgumentsDefaulted(fs, cfg);
    TailRoute(fs, cfg, spelled);
    TailRoute(fs, cfg, None);
    TailRoute(fs, cfg, Some(JNull));
    TailRoute(fs, cfg, Some(JObj(map[])));
  }

  lemma TailRoute(fs: Fs, cfg: Config, args: Option<Json>)
    ensures RunTool(fs, cfg, Some(JStr("tail_log")), args)
         == Ran(TailOut(TailLog(fs, cfg, OptProp(args, "filename"), OptProp(args, "lines"))))
  {
  }

  lemma TailArgumentsDefaulted(fs: Fs, cfg: Config)
    ensures TailLog(fs, cfg, None, None) == TailLog(fs, cfg, Some(JStr("combined.log")), Some(JNum(50)))
  {
  }

  /** The schema default of `get_errors` (20 lines) is the one `getErrors` applies. */
  lemma GetErrorsDefaults(fs: Fs, cfg: Config)
    ensures DefaultsApplied(fs, cfg, GetErrorsTool)
  {
    assert Defaults(GetErrorsTool.params) == map["lines" := JNum(20)];
  }

  /** The schema default of `watch_log` (`combined.log`) is the one `watchLog` applies. */
  lemma WatchLogDefaults(fs: Fs, cfg: Config)
    ensures DefaultsApplied(fs, cfg, WatchLogTool)
  {
    assert Defaults(WatchLogTool.params) == map["filename" := JStr("combined.log")];
  }

  /** The schema defaults of `search_logs` (`combined.log`, 10 matches) are the ones
      `searchLogs` applies; the query has none. */
  lemma SearchLogsDefaults(fs: Fs, cfg: Config)
    ensures DefaultsApplied(fs, cfg, SearchLogsTool)
  {
    var ps := SearchLogsTool.params;
    assert Defaults(ps[2..]) == map["lines" := JNum(10)];
    assert Defaults(ps) == map["filename" := JStr("combined.log"), "lines" := JNum(10)];
    var spelled := Some(JObj(Defaults(ps)));
    assert OptProp(spelled, "query") == None;
    assert OptProp(spelled, "filename") == Some(JStr("combined.log"));
    assert OptProp(spelled, "lines") == Some(JNum(10));
    SearchArgumentsDefaulted(fs, cfg);
    SearchRoute(fs, cfg, spelled);
    SearchRoute(fs, cfg, None);
    SearchRoute(fs, cfg, Some(JNull));
    SearchRoute(fs, cfg, Some(JObj(map[])));
  }

  lemma SearchRoute(fs: Fs, cfg: Config, args: Option<Json>)
    ensures RunTool(fs, cfg, Some(JStr("search_logs")), args)
         == Ran(SearchOut(SearchLogs(fs, cfg, OptProp(args, "query"), OptProp(args, "filename"), OptProp(args, "lines"))))
  {
  }

  lemma SearchArgumentsDefaulted(fs: Fs, cfg: Config)
    ensures SearchLogs(fs, cfg, None, None, None) == SearchLogs(fs, cfg, None, Some(JStr("combined.log")), Some(JNum(10)))
  {
    assert FileArgument(None, DefaultSearchFile) == FileArgument(Some(JStr("combined.log")), DefaultSearchFile);
    var none: Option<Json> := None;
    assert none.GetOr(JNum(DefaultSearchLines)) == Some(JNum(10)).GetOr(JNum(DefaultSearchLines));
  }

  /** `search_logs` is the only tool with a required argument, and that argument has no default. */
  lemma OnlySearchRequiresQuery()
    ensures forall k :: 0 <= k < |ToolList| && |ToolList[k].required| > 0 ==>
              ToolList[k].name == "search_logs" && ToolList[k].required == ["query"]
    ensures ToolList[5].params[0].name == "query" && ToolList[5].params[0].default.None?
  {
  }
}
