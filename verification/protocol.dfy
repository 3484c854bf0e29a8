/**
 `handleMessage`, `handleToolCall` and the two reply envelopes. A request is
 a parsed JSON value; its `id`, `method` and `params` are read by
 destructuring, which throws on `null`. The dispatcher is given the tool
 router, so that the same handler serves any filesystem snapshot.

 Timing matters for one path: `tools/call` awaits `handleToolCall`, which
 runs synchronously to its reply except when destructuring its `params`
 throws; that rejection reaches the `catch` of `handleMessage` only after the
 current chunk's synchronous work, so its reply is deferred.
 */
module Protocol {
  import opened Optional
  import opened Json
  import opened FileSystem
  import opened Config
  import opened Tools
  import opened Search

  const JsonRpcVersion: string := "2.0"
  const ProtocolVersion: string := "2024-11-05"
  const ServerName: string := "local-logs-mcp-server"
  const ServerVersion: string := "1.0.0"

  const ParseError: int := -32700
  const MethodNotFound: int := -32601
  const InternalError: int := -32603

  /** The `result` of a successful reply. The `initialize` answer also carries
      `capabilities: { tools: {} }`, the same for every request. */
  datatype Payload =
    | Initialized(protocolVersion: string, serverName: string, serverVersion: string)
    | ToolListing(tools: seq<ToolSpec>)
    | ToolOutput(result: ToolResult)

  /** The `data` of an error: a text the server composes, or the message of an exception the
      JavaScript engine raises, whose wording is not modelled. */
  datatype ErrorData = Detail(text: string) | EngineMessage

  datatype Body = Success(result: Payload) | Failure(code: int, message: string, data: ErrorData)

  /** One line written to stdout: `{ jsonrpc: '2.0', id, result }` or `{ jsonrpc: '2.0', id, error }`.
      An undefined `id` (`None`) is dropped by `JSON.stringify`. */
  datatype Reply = Reply(id: Option<Json>, body: Body)

  /** `sendResponse`. */
  function SendResponse(id: Option<Json>, result: Payload): (r: Reply)
    ensures r.id == id && r.body.Success? && r.body.result == result
  {
    Reply(id, Success(result))
  }

  /** `sendError`. */
  function SendError(id: Option<Json>, code: int, message: string, data: ErrorData): (r: Reply)
    ensures r.id == id && r.body.Failure? && r.body.code == code && r.body.message == message && r.body.data == data
  {
    Reply(id, Failure(code, message, data))
  }

  /** A tool router: the tool `name` and `arguments` of a call to what the call does. */
  type Router = (Option<Json>, Option<Json>) -> Call

  /** The router of the server reading the snapshot `fs` with configuration `cfg`. */
  function ServerRouter(fs: Fs, cfg: Config): Router {
    (name, args) => RunTool(fs, cfg, name, args)
  }

  /** `handleToolCall`: no reply when destructuring `params` throws (undefined or null),
      otherwise the reply to the routed call. */
  function HandleToolCall(route: Router, id: Option<Json>, params: Option<Json>): (r: Option<Reply>)
    ensures r.None? <==> params.None? || params.value == JNull
    ensures r.Some? ==> r.value.id == id
    ensures r.Some? && r.value.body.Failure? ==> r.value.body.code == InternalError
  {
    if params.None? || params.value == JNull then None
    else
      var name := Prop(params.value, "name");
      match route(name, Prop(params.value, "arguments"))
      case Ran(result) => Some(SendResponse(id, ToolOutput(result)))
      case UnknownTool(_) =>
        // `${name}` in the thrown message can itself throw; the catch then reports that error.
        if TemplateThrows(name) then Some(SendError(id, InternalError, "Tool execution failed", EngineMessage))
        else Some(SendError(id, InternalError, "Tool execution failed", Detail("Unknown tool: " + Template(name))))
  }

  /** What handling one message does: write a reply now, write one after the chunk's
      synchronous work, write nothing, or reject the returned promise with no reply at all. */
  datatype Outcome = Now(reply: Reply) | Later(reply: Reply) | Silent | Rejected

  /** The fields `const { id, method, params } = message` reads. */
  datatype Request = Request(id: Option<Json>, methodName: Option<Json>, params: Option<Json>)

  /** Destructuring succeeds on every parsed value except `null`. */
  function Destructure(message: Json): Option<Request> {
    if message == JNull then None
    else Some(Request(Prop(message, "id"), Prop(message, "method"), Prop(message, "params")))
  }

  const KnownMethods: seq<string> := ["initialize", "notifications/initialized", "tools/list", "tools/call"]

  /** The `switch (method)` and its `catch`. */
  function Dispatch(route: Router, req: Request): Outcome {
    var id := req.id;
    if req.methodName == Some(JStr("initialize")) then
      Now(SendResponse(id, Initialized(ProtocolVersion, ServerName, ServerVersion)))
    else if req.methodName == Some(JStr("notifications/initialized")) then Silent
    else if req.methodName == Some(JStr("tools/list")) then Now(SendResponse(id, ToolListing(ToolList)))
    else if req.methodName == Some(JStr("tools/call")) then
      match HandleToolCall(route, id, req.params)
      case Some(r) => Now(r)
      case None => Later(SendError(id, InternalError, "Internal error", EngineMessage))
    else if TemplateThrows(req.methodName) then Now(SendError(id, InternalError, "Internal error", EngineMessage))
    else Now(SendError(id, MethodNotFound, "Method not found", Detail("Unknown method: " + Template(req.methodName))))
  }

  /** `handleMessage` as written: destructuring sits before the `try`, so a `null` message
      rejects the promise nobody awaits. */
  function HandleMessageAsWritten(route: Router, message: Json): (o: Outcome)
    ensures o.Rejected? <==> message == JNull
  {
    match Destructure(message)
    case None => Rejected
    case Some(req) => Dispatch(route, req)
  }

  /** `handleMessage` with destructuring inside the `try`: a `null` message is answered with
      an internal error, with a null `id` as no id could be read. */
  function HandleMessage(route: Router, message: Json): (o: Outcome)
    ensures !o.Rejected?
    ensures message == JNull ==> o.Now? && o.reply.id == Some(JNull) && o.reply.body.Failure?
  {
    match Destructure(message)
    case None => Now(SendError(Some(JNull), InternalError, "Internal error", EngineMessage))
    case Some(req) => Dispatch(route, req)
  }

  /** The handler of the server reading the snapshot `fs` with configuration `cfg`. */
  function Serve(fs: Fs, cfg: Config, message: Json): Outcome {
    HandleMessage(ServerRouter(fs, cfg), message)
  }

  /** The reply an outcome writes, if any. */
  function Written(o: Outcome): Option<Reply> {
    match o
    case Now(r) => Some(r)
    case Later(r) => Some(r)
    case Silent => None
    case Rejected => None
  }

  /** Every reply to a message other than `null` carries the message's own `id`, and an
      undefined `id` stays undefined. */
  lemma RepliesEchoId(route: Router, message: Json)
    requires message != JNull
    ensures Written(HandleMessage(route, message)).Some? ==>
              Written(HandleMessage(route, message)).value.id == Prop(message, "id")
  {
  }

  /** The handler never leaves a message unanswered except the `notifications/initialized`
      notification, and it never rejects. */
  lemma OnlyTheNotificationIsSilent(route: Router, message: Json)
    ensures HandleMessage(route, message) != Rejected
    ensures HandleMessage(route, message).Silent? <==>
              Prop(message, "method") == Some(JStr("notifications/initialized"))
  {
  }

  /** Only a `tools/call` whose `params` are missing or null is answered late, and it is
      answered with an internal error. */
  lemma DeferredOnlyWithoutParams(route: Router, message: Json)
    ensures HandleMessage(route, message).Later? <==>
              && Prop(message, "method") == Some(JStr("tools/call"))
              && (Prop(message, "params").None? || Prop(message, "params") == Some(JNull))
    ensures HandleMessage(route, message).Later? ==>
              HandleMessage(route, message).reply.body == Failure(InternalError, "Internal error", EngineMessage)
  {
  }

  /** A method outside the four known ones is answered with `Method not found`, naming the
      method as a template string renders it; the known ones never get that code. A method the
      template cannot render throws there, and the `catch` answers `Internal error` instead. */
  lemma UnknownMethodRule(route: Router, message: Json)
    requires message != JNull
    ensures var methodName := Prop(message, "method");
            var o := HandleMessage(route, message);
            && (Written(o).Some? && Written(o).value.body.Failure? && Written(o).value.body.code == MethodNotFound
                <==> !(exists k :: 0 <= k < |KnownMethods| && methodName == Some(JStr(KnownMethods[k]))) && !TemplateThrows(methodName))
            && (!(exists k :: 0 <= k < |KnownMethods| && methodName == Some(JStr(KnownMethods[k]))) && !TemplateThrows(methodName) ==>
                  o == Now(Reply(Prop(message, "id"),
                                 Failure(MethodNotFound, "Method not found", Detail("Unknown method: " + Template(methodName))))))
            && (TemplateThrows(methodName) ==>
                  o == Now(Reply(Prop(message, "id"), Failure(InternalError, "Internal error", EngineMessage))))
  {
    var methodName := Prop(message, "method");
    if exists k :: 0 <= k < |KnownMethods| && methodName == Some(JStr(KnownMethods[k])) {
      var k :| 0 <= k < |KnownMethods| && methodName == Some(JStr(KnownMethods[k]));
      assert k < 4;
    } else {
      assert methodName != Some(JStr(KnownMethods[0]));
      assert methodName != Some(JStr(KnownMethods[1]));
      assert methodName != Some(JStr(KnownMethods[2]));
      assert methodName != Some(JStr(KnownMethods[3]));
    }
  }

  /** The error codes the handler uses, each with its own message. */
  lemma ErrorCodes(route: Router, message: Json)
    ensures var w := Written(HandleMessage(route, message));
            w.Some? && w.value.body.Failure? ==>
              || (w.value.body.code == MethodNotFound && w.value.body.message == "Method not found")
              || (w.value.body.code == InternalError && w.value.body.message == "Internal error")
              || (w.value.body.code == InternalError && w.value.body.message == "Tool execution failed")
  {
  }

  /** A `tools/call` with `params` is answered at once: with the operation's result when the
      router runs it, with `Tool execution failed` naming the tool otherwise, or carrying the
      engine's message when the name cannot be rendered. */
  lemma ToolCallAnswer(route: Router, message: Json)
    requires Prop(message, "method") == Some(JStr("tools/call"))
    requires Prop(message, "params").Some? && Prop(message, "params") != Some(JNull)
    ensures var params := Prop(message, "params").value;
            var name := Prop(params, "name");
            var call := route(name, Prop(params, "arguments"));
            var id := Prop(message, "id");
            && HandleMessage(route, message).Now?
            && (call.Ran? ==> HandleMessage(route, message).reply == Reply(id, Success(ToolOutput(call.result))))
            && (call.UnknownTool? && !TemplateThrows(name) ==>
                  (HandleMessage(route, message).reply ==
                   Reply(id, Failure(InternalError, "Tool execution failed", Detail("Unknown tool: " + Template(name))))))
            && (call.UnknownTool? && TemplateThrows(name) ==>
                  (HandleMessage(route, message).reply ==
                   Reply(id, Failure(InternalError, "Tool execution failed", EngineMessage))))
  {
  }

  /** For the server itself, a call succeeds exactly when it names an advertised tool. */
  lemma ServerToolCall(fs: Fs, cfg: Config, message: Json)
    requires Prop(message, "method") == Some(JStr("tools/call"))
    requires Prop(message, "params").Some? && Prop(message, "params") != Some(JNull)
    ensures var name := Prop(Prop(message, "params").value, "name");
            && Serve(fs, cfg, message).Now?
            && (Serve(fs, cfg, message).reply.body.Success? <==> Advertised(name))
  {
    var params := Prop(message, "params").value;
    var name := Prop(params, "name");
    ToolCallAnswer(ServerRouter(fs, cfg), message);
    RoutesExactlyAdvertisedTools(fs, cfg, name, Prop(params, "arguments"));
  }

  /** A `search_logs` call is always answered with the search's own result: a missing query,
      a missing file or a bad file name is reported inside that result, never as a protocol
      error. */
  lemma SearchFailuresStayInResult(fs: Fs, cfg: Config, message: Json)
    requires Prop(message, "method") == Some(JStr("tools/call"))
    requires Prop(message, "params").Some? && Prop(message, "params") != Some(JNull)
    requires Prop(Prop(message, "params").value, "name") == Some(JStr("search_logs"))
    ensures var args := Prop(Prop(message, "params").value, "arguments");
            Serve(fs, cfg, message) ==
              Now(Reply(Prop(message, "id"), Success(ToolOutput(SearchOut(
                SearchLogs(fs, cfg, OptProp(args, "query"), OptProp(args, "filename"), OptProp(args, "lines")))))))
  {
    ToolCallAnswer(ServerRouter(fs, cfg), message);
    SearchRoute(fs, cfg, Prop(Prop(message, "params").value, "arguments"));
  }

  /** `initialize` and `tools/list` answer with fixed payloads: the protocol version and
      server identity, and the six advertised tools. */
  lemma FixedAnswers(route: Router, message: Json)
    ensures Prop(message, "method") == Some(JStr("initialize")) ==>
              HandleMessage(route, message) ==
                Now(Reply(Prop(message, "id"), Success(Initialized("2024-11-05", "local-logs-mcp-server", "1.0.0"))))
    ensures Prop(message, "method") == Some(JStr("tools/list")) ==>
              HandleMessage(route, message) == Now(Reply(Prop(message, "id"), Success(ToolListing(ToolList))))
  {
  }

  /** The handler as written and the corrected one differ only on a `null` message. */
  lemma AsWrittenDiffersOnlyOnNull(route: Router, message: Json)
    ensures HandleMessageAsWritten(route, message) != HandleMessage(route, message) <==> message == JNull
  {
  }

  /** A `null` line, valid JSON, leaves the handler as written without any reply: the
      destructuring throws outside its `try`. */
  lemma NullMessageUnanswered(route: Router)
    ensures HandleMessageAsWritten(route, JNull) == Rejected
    ensures Written(HandleMessageAsWritten(route, JNull)).None?
    ensures HandleMessage(route, JNull) == Now(Reply(Some(JNull), Failure(InternalError, "Internal error", EngineMessage)))
  {
  }
}
