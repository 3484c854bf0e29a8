# Local logs MCP server, modelled in Dafny

`local-logs-mcp-server.js` is a Model Context Protocol server. It speaks
JSON-RPC 2.0 over stdio, one message per line, and offers six read-only tools
over a directory of log files:

- `get_log_files`: list the log files, newest first, with size and modification time.
- `tail_log`: the last N lines of a file.
- `get_errors`: the tail of `error.log`.
- `get_server_status`: a heuristic health summary built from the tails of `combined.log` and `error.log`.
- `watch_log`: a one-off look at a file's size and modification time.
- `search_logs`: case-insensitive substring search with line numbers and timestamps.

The model keeps the server's own shapes:

- The filesystem is a map from path to node: a file with its content, or a
  directory with its entries in `readdirSync` order. Each node has a size and
  an integer mtime.
- JSON values form a datatype. A property read on a non-object is `undefined`.
  A numeric argument goes through JavaScript's `ToNumber`, restricted to
  integer values: an optionally signed run of decimal digits, or an unsigned
  `0x`, `0o` or `0b` literal.
- Paths follow Node's POSIX `path` module. `path.join` and `path.resolve`
  drop empty and `.` segments, fold `..` into the segment before it, and
  resolve a relative path from the working directory. `statSync` looks the
  resolved path up in the snapshot.
- Every operation is a pure function of the filesystem snapshot, the
  configuration and its arguments.
- The wire side is modelled separately:
  - `start` splits each stdin chunk into lines.
  - `handleMessage` and `handleToolCall` dispatch a message, with the async
    timing of their replies.
  - `sendResponse` and `sendError` build the two reply envelopes.

Modules, in dependency order:

- `Text`: JavaScript `trim`, `split`, `join`, `includes`, `endsWith` and ASCII `toLowerCase` on strings.
- `Optional` and `Json`: JSON values, `undefined`, template-string rendering and `ToNumber`.
- `FileSystem`: `existsSync`, `statSync`, `readFileSync`, `readdirSync`, and the segment normalisation of `path.join` and `path.resolve`.
- `Config`: `getLogsDirectory` and the `LOG_EXTENSIONS` list.
- `Sizes`: `formatBytes`.
- `Listing`: `getLogFiles`.
- `Tail`: `tailLog` and `getErrors`.
- `Search`: `searchLogs` and `extractTimestamp`.
- `Status`: `getServerStatus`.
- `Watch`: `watchLog`.
- `Tools`: the advertised tool schemas and the `switch (name)` of `handleToolCall`.
- `Protocol`: `handleMessage`, `handleToolCall`, `sendResponse` and `sendError`.
- `Framing`: the `readable` handler of `start`, and a session of successive chunks that ends when a handler promise is rejected.

A reply's `Body` is either `Success` or `Failure`, so no reply carries both a
result and an error.

Some behaviours of the code are easy to miss. The model keeps them:

- A logs-directory candidate is accepted when its path exists (`existsSync`), even when it is a file, not only when it is a directory.
- A missing or non-string search `query` is not a caller error at the protocol level. `query.toLowerCase()` throws inside `searchLogs`, which answers with an `error` field.
- Input is not buffered across reads (see "Left out").
- Replies are not always in request order. A `tools/call` without `params` is answered after the synchronous replies to the rest of its chunk.
- A count, bound, method or tool name that `JSON.parse` made into an object with its own `toString` key (or an array holding one) cannot be converted to a primitive: `-lines`, `matches.length < maxLines` and the template strings throw a `TypeError` (`Json.Unconvertible`). `tail_log` and `search_logs` then give their `error` answer, an unknown method gets -32603 "Internal error" instead of -32601, and an unknown tool's error carries the engine's message.
- A file name is not confined to the logs directory. `tail_log` with `../x` reads `x` in the directory's parent (`Tail.TailLeavesLogDirectory`), and the empty name or `.` names the directory itself.

## Model

| member | source | states |
|---|---|---|
| Config.Candidates | local-logs-mcp-server.js:25-33 | The candidates are `LOGS_DIR` first, when it is set and non-empty (`filter(Boolean)` drops an empty one), then `<cwd>/logs`, `<cwd>/apps/backend/logs`, `<cwd>/server/logs`, `<cwd>/backend/logs`, `/var/log` and `C:\logs`, in that order. |
| Config.FirstExisting | local-logs-mcp-server.js:35-39 | Finds the first candidate whose resolved path exists: every earlier candidate is missing, and "none" means none exists. |
| Config.LogsDirectory | local-logs-mcp-server.js:23-44 | The logs directory is the resolved first existing candidate, all earlier ones being missing. When no candidate exists it is `./logs`, resolved, whether or not that exists. |
| Config.OverrideWins | local-logs-mcp-server.js:26 | An existing, non-empty `LOGS_DIR` takes priority over every other location. |
| Config.OverrideTrailingSlash | local-logs-mcp-server.js:26-37 | A `LOGS_DIR` written with a trailing `/` selects the same directory as without it, when that path is an existing directory. |
| Config.LogsDirectoryIsCanonical | local-logs-mcp-server.js:35-43 | From an absolute working directory, as `process.cwd()` always is, the chosen directory is absolute, with no empty, `.` or `..` segment and no trailing `/`. |
| Config.EmptyOverrideIgnored | local-logs-mcp-server.js:26-33 | An empty `LOGS_DIR` is ignored, just as an unset one is. |
| Config.Extensions | local-logs-mcp-server.js:15 | The extension list is never empty: splitting always yields at least one (trimmed) piece. |
| Config.ParseExtensions | local-logs-mcp-server.js:15 | One extension per comma-separated piece of the setting. |
| Config.ExtensionsAreTrimmedPieces | local-logs-mcp-server.js:15 | No extension holds a comma or starts or ends with white space. |
| Config.EmptyExtensionsVarIgnored | local-logs-mcp-server.js:15 | An empty `LOG_EXTENSIONS` is treated like an unset one (`||` falls back on the empty string). |
| Config.DefaultExtensionList | local-logs-mcp-server.js:15 | Without `LOG_EXTENSIONS` the extensions are exactly `.log` and `.txt`. |
| Config.DefaultSplit | local-logs-mcp-server.js:15 | `'.log,.txt'.split(',')` is `['.log', '.txt']`. |
| Config.EmptyExtensionAdmitsAll | local-logs-mcp-server.js:263 | An empty piece in the list, as from a trailing comma, makes every directory entry count as a log file, because every name ends with `''`. |
| FileSystem.ReadFile | local-logs-mcp-server.js:412 | `readFileSync` succeeds exactly on an existing file and returns its content. |
| FileSystem.ReadDir | local-logs-mcp-server.js:262 | `readdirSync` succeeds exactly on an existing directory and returns its entries. |
| FileSystem.Stat | local-logs-mcp-server.js:266 | `statSync` finds nothing for the empty path. Otherwise it finds the node at the path resolved from the working directory; a path ending in `/`, `.` or `..` must name a directory. |
| FileSystem.NormFromAppend | local-logs-mcp-server.js:265 | Normalising two runs of segments is normalising the first and continuing over the second. |
| FileSystem.NormFromPlain | local-logs-mcp-server.js:265 | Segments other than empty, `.` and `..` are kept as they are. |
| FileSystem.NormFromKeepsPlain | local-logs-mcp-server.js:37 | Normalising without climbing above the start keeps only such plain segments. |
| FileSystem.ResolveIsCanonical | local-logs-mcp-server.js:37 | `path.resolve` of an absolute path, or from an absolute working directory, is absolute with only plain segments and no trailing `/`. |
| FileSystem.CanonicalIsFixed | local-logs-mcp-server.js:37 | Such a path resolves and normalises to itself, whatever the working directory. |
| FileSystem.JoinSelf | local-logs-mcp-server.js:289 | Joining the empty name or `.` to such a directory gives the directory itself. |
| FileSystem.JoinDotSlash | local-logs-mcp-server.js:289 | A leading `./` on a name does not change the joined path. |
| FileSystem.TrailingSlash | local-logs-mcp-server.js:36-37 | A trailing `/` resolves to the same path, and `statSync` then finds only a directory there. |
| FileSystem.ParentSegment | local-logs-mcp-server.js:289 | Joining `../name` to a directory names `name` in that directory's parent. |
| Sizes.PowMonotonic | local-logs-mcp-server.js:447 | Powers of 1024 grow with the exponent. |
| Sizes.UnitIndex | local-logs-mcp-server.js:447 | `Math.floor(Math.log(bytes) / Math.log(1024))` is the exponent i with 1024^i <= bytes < 1024^(i+1). |
| Sizes.UnitIndexIsLargest | local-logs-mcp-server.js:447 | That exponent is the largest whose power does not exceed the size. |
| Sizes.TebibyteUnitUndefined | local-logs-mcp-server.js:446-448 | As written, 1 TiB formats with unit `undefined` (Finding 1). |
| Sizes.FormatBytesAsWritten | local-logs-mcp-server.js:443-449 | As written, zero and only zero is `0 Bytes`, and the unit is `undefined` exactly from 1024^4 bytes up. |
| Sizes.FormatBytes | local-logs-mcp-server.js:443-449 | Zero, and only zero, is `0 Bytes`. Otherwise the unit is one of Bytes/KB/MB/GB: the one whose power bracket holds the size, with GB for everything from 1 GiB up. |
| Sizes.FormatBytesMatchesBelowTebibyte | local-logs-mcp-server.js:443-449 | Below 1 TiB the corrected formatter agrees with the one as written. |
| Listing.WithLogExtensionSpec | local-logs-mcp-server.js:263 | The filter keeps exactly the entries that end with some configured extension. |
| Listing.WithLogExtension | local-logs-mcp-server.js:262-263 | The filter never adds entries. |
| Listing.DescribeAll | local-logs-mcp-server.js:264-274 | A successful map describes every kept entry, one record each. |
| Listing.DescribeAllSpec | local-logs-mcp-server.js:264-274 | The map describes every kept entry, in order, by its `statSync` (name, size, human size, mtime, joined path). It fails exactly when some entry's path is missing. |
| Listing.InsertByMtime | local-logs-mcp-server.js:275 | Inserting one file yields the old files plus that one, as a multiset, and keeps newest-first order. |
| Listing.NewerThanAll | local-logs-mcp-server.js:275 | Putting a strictly newer file in front of a newest-first permutation keeps the order. |
| Listing.SortByMtime | local-logs-mcp-server.js:275 | The sort yields as many files as it is given, newest first. |
| Listing.SortByMtimePermutes | local-logs-mcp-server.js:275 | The sort is a permutation of its input. |
| Listing.WithMtimeCons | local-logs-mcp-server.js:275 | Selecting the files with a given mtime distributes over a leading element. |
| Listing.InsertByMtimeStable | local-logs-mcp-server.js:275 | Insertion places the file ahead of the files that share its mtime, whose order it keeps. |
| Listing.SortByMtimeStable | local-logs-mcp-server.js:275 | The sort is stable: files with equal mtime keep their `readdirSync` order, as `Array.prototype.sort` guarantees. |
| Listing.GetLogFiles | local-logs-mcp-server.js:252-285 | The answer says "not found" exactly when the directory is missing. A listing comes from a readable directory, newest first, and every answer but a failure echoes the logs directory. |
| Listing.GetLogFilesContents | local-logs-mcp-server.js:254-260 | The answer says "not found" exactly when the directory is missing. Every answer but a listing has no files. |
| Listing.ListedFilesAreLogEntries | local-logs-mcp-server.js:262-274 | Every listed file is an entry of the directory with a recognised extension, described by its own `statSync`. |
| Listing.ListedCoversLogEntries | local-logs-mcp-server.js:262-274 | Every entry of the directory with a recognised extension is listed. |
| Listing.ListedNewestFirst | local-logs-mcp-server.js:275 | The listing is newest first. |
| Listing.ListedKeepsDirectoryOrderOnTies | local-logs-mcp-server.js:262-275 | Files with equal modification times are listed in `readdirSync` order. |
| Tail.SliceStart | local-logs-mcp-server.js:312 | `slice`'s start index is clamped to the array. |
| Tail.TailKeepsLastLines | local-logs-mcp-server.js:311-312 | A positive count keeps the last `lines` pieces of `split('\n')`, or all of them. |
| Tail.TailOfZeroIsWholeFile | local-logs-mcp-server.js:312 | A count of 0, or one that is NaN, returns the whole file (`slice(-0)` and `slice(NaN)` are `slice(0)`). |
| Tail.TailOfShortFileIsWholeFile | local-logs-mcp-server.js:310-312 | A file with no more lines than requested comes back unchanged. |
| Tail.TailIsSuffix | local-logs-mcp-server.js:310-312 | Whatever the count, the returned content is a suffix of the file. |
| Tail.TailLineCount | local-logs-mcp-server.js:310-315 | The reported `lines` counts the non-blank lines among those kept, so re-splitting the joined text loses nothing. |
| Tail.SplitEmpty | local-logs-mcp-server.js:315 | An empty content has no non-blank line. |
| Tail.TailLog | local-logs-mcp-server.js:287-328 | A tail names a readable file and counts at most as many lines as its content splits into. The not-found answer names a missing path. The `error` answer arises exactly for a non-string name, for an existing path that cannot be read as a file, or for a readable file with a count `-lines` cannot convert. |
| Tail.TailFile | local-logs-mcp-server.js:289-324 | The same, once the name is joined into a path: `error` exactly for an existing unreadable path or a readable file with an unconvertible count. |
| Tail.TailLogMissingFile | local-logs-mcp-server.js:291-298 | A missing file gives empty content, zero lines, and a message listing the available files. |
| Tail.TailLogReadable | local-logs-mcp-server.js:300-322 | A readable file with a count `-lines` can convert gives the split/slice/join tail, the count of its non-blank lines, the file name and the file's size. |
| Tail.TailLogFailureIsEmpty | local-logs-mcp-server.js:287-328 | Every answer other than success has empty content. The `error` answer arises exactly when the name is not a string, when the path exists but cannot be read, or when the file is readable and the count cannot be converted. |
| Tail.TailOfUnconvertibleCountFails | local-logs-mcp-server.js:300-327 | A readable file with an unconvertible count gives the `error` answer, not a tail. |
| Tail.TailIgnoresDotSlash | local-logs-mcp-server.js:289-324 | `./name` gives the same tail, line count and size as `name`. |
| Tail.TailOfDirectoryFails | local-logs-mcp-server.js:289-328 | The empty name and `.` name the logs directory itself. It exists, so the answer is the caught `readFileSync` failure, not the missing-file message. |
| Tail.TailLeavesLogDirectory | local-logs-mcp-server.js:289-324 | A name `../x` reads `x` in the parent of the logs directory. |
| Tail.GetErrors | local-logs-mcp-server.js:330-336 | `get_errors` is the tail of `error.log` (default 20 lines). Its message is "No errors found" exactly when that tail is empty. |
| Search.FindTimestampSpec | local-logs-mcp-server.js:439 | The scan finds the leftmost position matching `\d{4}-\d{2}-\d{2} \d{2}:\d{2}:\d{2}`, or reports that none exists. |
| Search.ExtractTimestampSpec | local-logs-mcp-server.js:438-441 | The result is null exactly when the line holds no timestamp. Otherwise it is the leftmost match. |
| Search.ExtractTimestamp | local-logs-mcp-server.js:438-441 | The result is null exactly when the line holds no timestamp. A timestamp is 19 characters long. |
| Search.HitIndices | local-logs-mcp-server.js:416-417 | The hit indices are increasing, below the bound, and each one is a hit. |
| Search.HitIndicesComplete | local-logs-mcp-server.js:416-417 | Every hit below the bound is among the hit indices. |
| Search.HitIndicesPrefix | local-logs-mcp-server.js:416-417 | The hits of a shorter prefix are a prefix of the hits of a longer one. |
| Search.MatchesAt | local-logs-mcp-server.js:418-422 | One match record per selected line. |
| Search.ScanLines | local-logs-mcp-server.js:412-425 | The early-exit loop returns exactly the first `maxLines` hits of the whole file, in file order. |
| Search.MatchesAtAppend | local-logs-mcp-server.js:418-422 | Pushing one more hit appends its record. |
| Search.ScanStopsAtSelection | local-logs-mcp-server.js:416 | Where the loop stops, with the cap reached or the file ended, the hits found so far are the selection. |
| Search.SelectedIndices | local-logs-mcp-server.js:416-425 | The selection is a prefix of all hits, of length min(hits, cap), increasing. |
| Search.MatchesAtLineNumber | local-logs-mcp-server.js:419 | `lineNumber` is the 1-based index. |
| Search.MatchesAtFields | local-logs-mcp-server.js:418-422 | Each record holds the 1-based line number, the trimmed line and its extracted timestamp. |
| Search.MatchesAtSound | local-logs-mcp-server.js:416-425 | Records of increasing hits have increasing in-range line numbers, each one a hit, with trimmed content and timestamp. |
| Search.SelectMatchesSound | local-logs-mcp-server.js:416-425 | At most `maxLines` matches, in increasing line order. Each is a case-insensitive hit, with its trimmed content and timestamp. |
| Search.SelectMatchesComplete | local-logs-mcp-server.js:416-425 | No hit is skipped: a hit line is reported whenever the cap was not reached or a later line was reported. |
| Search.HitPosition | local-logs-mcp-server.js:416-417 | Every hit line has a position among all hits. |
| Search.KeptHitPosition | local-logs-mcp-server.js:416-425 | A hit before the last reported one, or any hit when the cap was not reached, is in the selection at its position. |
| Search.HitIgnoresQueryCase | local-logs-mcp-server.js:417 | Matching ignores the query's case. |
| Search.SearchLogs | local-logs-mcp-server.js:399-435 | A search result comes from a readable file and has at most the capped number of matches, with `matchCount` counting them. The not-found answer names a missing path. The query is echoed in every answer. |
| Search.SearchFile | local-logs-mcp-server.js:401-431 | The same, once the name is joined into a path. |
| Search.SearchMissingFile | local-logs-mcp-server.js:403-410 | A missing file gives the not-found answer with no matches. |
| Search.SearchReadable | local-logs-mcp-server.js:399-431 | A readable file with a string query and a convertible bound gives the selection over its lines, with `matchCount` equal to the number of matches. |
| Search.SearchOfUnconvertibleBoundFails | local-logs-mcp-server.js:412-433 | A readable file with an unconvertible bound gives the `error` answer whatever the query: `matches.length < maxLines` throws before the first line. |
| Search.SearchWithoutQuery | local-logs-mcp-server.js:416-435 | Without a string query there are no matches. The `error` answer arises exactly when the bound cannot be converted, when the loop reaches `query.toLowerCase()` (`0 < maxLines`), or when `${query}` in the message cannot be rendered. |
| Search.SearchIgnoresDotSlash | local-logs-mcp-server.js:401-417 | `./name` finds the same matches as `name`, and is missing exactly when `name` is. |
| Status.LastN | local-logs-mcp-server.js:344 | `slice(-5)` keeps the last five elements, or all of them. |
| Status.SummaryContents | local-logs-mcp-server.js:343-366 | At most five recent logs: the last non-blank combined lines, in order. The recent errors are all non-blank error lines, and `errorCount` counts them. Logs are available exactly when the combined tail has content. |
| Status.SummaryLinesAreTailLines | local-logs-mcp-server.js:343-347 | Every reported line is a non-blank line of its tail. |
| Status.ClassifyRules | local-logs-mcp-server.js:350-357 | The status is running iff some line has "Worker" and "ready". Otherwise it is error iff some line has "error"/"Error". Otherwise it is active iff any line is left, else unknown. |
| Status.Classify | local-logs-mcp-server.js:349-359 | The status is unknown exactly when no recent line is left. It is active only when no recent line is a ready line or an error line. |
| Status.SummaryClassification | local-logs-mcp-server.js:349-359 | The reported status follows those rules on the recent logs. |
| Status.ServerStatusSources | local-logs-mcp-server.js:340-341 | The status reads a 10-line tail of `combined.log` and a 5-line tail of `error.log`. |
| Status.StatusWithoutCombinedLog | local-logs-mcp-server.js:340-366 | Without `combined.log` the status is unknown, with no logs available. The message is the tail's not-found message. |
| Status.SummaryOfMissingLog | local-logs-mcp-server.js:343-366 | A not-found combined tail summarises to unknown with no logs. |
| Status.BlankTailIsAvailableButUnknown | local-logs-mcp-server.js:343-363 | A non-empty tail of blank lines counts as "logs available" yet leaves the status unknown. |
| Status.GetServerStatus | local-logs-mcp-server.js:338-366 | `errorCount` counts the recent errors, at most five recent logs are kept, and the status is unknown exactly when none is. |
| Watch.WatchOutcome | local-logs-mcp-server.js:373-397 | `watching` is true exactly when the name is a string and its path exists, a directory included. Only a non-string name reaches the `error` answer. |
| Watch.WatchLog | local-logs-mcp-server.js:373-397 | The `error` answer arises exactly for a non-string name. A watched path exists, and the not-found answer names a missing one. |
| Watch.WatchOfDirectory | local-logs-mcp-server.js:373-392 | The empty name watches the logs directory itself, reporting the directory's own size. |
| Watch.WatchAgreesWithListing | local-logs-mcp-server.js:385-392 | The statistics reported for a watched file are those the listing reports for it. |
| Watch.WatchAndTailAgreeOnMissing | local-logs-mcp-server.js:377-383 | `watch_log` and `tail_log` agree on which names are missing. |
| Watch.WatchAndTailAgreeOnSize | local-logs-mcp-server.js:385-389 | Both report the same size for a readable file, whenever the tail's count converts. |
| Tools.RoutesExactlyAdvertisedTools | local-logs-mcp-server.js:210-237 | A call runs an operation exactly when its name is one of the six advertised tools. Otherwise it fails with the name given. |
| Tools.RunTool | local-logs-mcp-server.js:210-237 | An unknown tool echoes the name it was given. An operation runs only for a string name. |
| Tools.ToolNamesDistinct | local-logs-mcp-server.js:96-188 | The advertised tool names are distinct. |
| Tools.TailLogDefaults | local-logs-mcp-server.js:110-121 | The `tail_log` schema defaults (`combined.log`, 50) are what the operation applies when arguments are absent, null or empty. |
| Tools.GetErrorsDefaults | local-logs-mcp-server.js:130-136 | The same holds for `get_errors` (20). |
| Tools.WatchLogDefaults | local-logs-mcp-server.js:154-160 | The same holds for `watch_log` (`combined.log`). |
| Tools.SearchLogsDefaults | local-logs-mcp-server.js:168-185 | The same holds for `search_logs` (`combined.log`, 10). |
| Tools.OnlySearchRequiresQuery | local-logs-mcp-server.js:168-186 | `search_logs` alone has a required argument, `query`, which has no default. |
| Protocol.RepliesEchoId | local-logs-mcp-server.js:451-471 | Every reply to a non-null message carries that message's `id`. |
| Protocol.SendResponse | local-logs-mcp-server.js:451-458 | A response carries the given `id` and a `result`, and no `error`. |
| Protocol.SendError | local-logs-mcp-server.js:460-471 | An error reply carries the given `id` and an `error` with the given code, message and data, and no `result`. |
| Protocol.HandleToolCall | local-logs-mcp-server.js:204-250 | No reply is produced exactly when `params` is undefined or null. A reply echoes the `id`, and a failing one has code -32603. |
| Protocol.HandleMessageAsWritten | local-logs-mcp-server.js:71-72 | As written, the returned promise is rejected exactly for the `null` message. |
| Protocol.HandleMessage | local-logs-mcp-server.js:71-202 | Corrected, no promise is rejected, and `null` is answered at once with an error whose `id` is null. |
| Protocol.OnlyTheNotificationIsSilent | local-logs-mcp-server.js:71-202 | The corrected handler never rejects. It stays silent exactly for `notifications/initialized`. |
| Protocol.DeferredOnlyWithoutParams | local-logs-mcp-server.js:192-205 | A reply comes after the chunk's synchronous replies exactly for `tools/call` with missing or null `params`. That reply is -32603 "Internal error". |
| Protocol.UnknownMethodRule | local-logs-mcp-server.js:196-197 | -32601 is answered exactly for a method outside the four known ones that the template can render, with data `Unknown method: <method>`. A method it cannot render gets -32603 "Internal error" from the `catch`. |
| Protocol.ErrorCodes | local-logs-mcp-server.js:196-248 | Every error reply is one of -32601 "Method not found", -32603 "Internal error", -32603 "Tool execution failed". |
| Protocol.ToolCallAnswer | local-logs-mcp-server.js:204-250 | A tool call with params is answered at once: a success holding the tool's result, or -32603 "Tool execution failed" with `Unknown tool: <name>`, or with the engine's message when the name cannot be rendered. |
| Protocol.ServerToolCall | local-logs-mcp-server.js:204-250 | With the server's router, the answer is a success exactly when the tool is advertised. |
| Protocol.SearchFailuresStayInResult | local-logs-mcp-server.js:231-246 | A `search_logs` call always succeeds at the protocol level. A missing query or file is reported inside its result. |
| Protocol.FixedAnswers | local-logs-mcp-server.js:75-190 | `initialize` answers protocol version 2024-11-05 and server `local-logs-mcp-server` 1.0.0. `tools/list` answers the six schemas. |
| Protocol.AsWrittenDiffersOnlyOnNull | local-logs-mcp-server.js:71-72 | The handler as written and the corrected one differ on the `null` message only. |
| Protocol.NullMessageUnanswered | local-logs-mcp-server.js:71-72 | As written, `null` is a rejected promise with no reply (Finding 2). Corrected, it gets -32603 with `id` null. |
| Framing.HandleChunk | local-logs-mcp-server.js:49-64 | The loop writes, in order, the synchronous replies of the chunk's non-blank lines, then the deferred ones, and counts the rejected promises. |
| Framing.KeptLinesStep | local-logs-mcp-server.js:53-54 | Skipping blank lines extends by one line at a time. |
| Framing.FrameSnoc | local-logs-mcp-server.js:53-62 | Framing one more line is one more loop step. |
| Framing.NonBlankLinesSnoc | local-logs-mcp-server.js:54 | The blank-line filter distributes over appending a line. |
| Framing.FrameAnswersEachLine | local-logs-mcp-server.js:53-62 | One reply per answered line and none for the others. Replies plus rejections never exceed the line count. |
| Framing.ParseErrorAnswersUnparsableLine | local-logs-mcp-server.js:58-59 | An unparsable line is answered at once with -32700 "Parse error", `id` null and the parser's message. |
| Framing.BlankChunkWritesNothing | local-logs-mcp-server.js:52-54 | A chunk of white space writes nothing. |
| Framing.FrameLinesShape | local-logs-mcp-server.js:52-54 | Lines handed to `JSON.parse` are non-blank pieces of the trimmed chunk without a line break. |
| Framing.CorrectedHandlerNeverRejects | local-logs-mcp-server.js:53-62 | With the corrected handler no promise is left rejected. |
| Framing.NoRejections | local-logs-mcp-server.js:57 | No line of a chunk leaves a rejection under the corrected handler. |
| Framing.AsWrittenRejectsNullLines | local-logs-mcp-server.js:56-72 | As written, the rejections are exactly the lines that parse to `null`. |
| Framing.Frame | local-logs-mcp-server.js:52-62 | A chunk writes at most one reply or one rejection per line. |
| Framing.RunSession | local-logs-mcp-server.js:48-63 | Successive chunks write the session's replies. The process ends exactly when some chunk leaves a rejected promise. |
| Framing.SessionStopsAfterRejection | local-logs-mcp-server.js:48-63 | After a chunk that leaves a rejected promise, no later chunk is answered. |
| Framing.NullLineEndsSession | local-logs-mcp-server.js:56-72 | As written, a `null` line ends the session after its own chunk (Finding 2). |
| Framing.CorrectedSessionAnswersEveryChunk | local-logs-mcp-server.js:48-63 | With the corrected handler every chunk is answered. |
| Text.TrimStartSpec | local-logs-mcp-server.js:52 | Trimming the start drops exactly the leading white space. |
| Text.TrimEndSpec | local-logs-mcp-server.js:52 | Trimming the end drops exactly the trailing white space. |
| Text.Trim | local-logs-mcp-server.js:52-54 | The trimmed string neither starts nor ends with white space. It is empty exactly when the input is blank. |
| Text.TrimIsInfix | local-logs-mcp-server.js:52 | The trimmed string is the input minus white-space padding on both sides. |
| Text.TrimKeepsAbsent | local-logs-mcp-server.js:15 | Trimming introduces no character: one absent from the input is absent from the result. |
| Text.TrimUnpadded | local-logs-mcp-server.js:54 | A string with no white space at either end trims to itself. |
| Text.Contains | local-logs-mcp-server.js:417 | A string contains only needles no longer than itself, and always contains the empty one. |
| Text.EndsWith | local-logs-mcp-server.js:263 | A string that ends with a suffix is some prefix followed by that suffix. Every string ends with the empty one. |
| Text.Lower | local-logs-mcp-server.js:417 | Lower-casing keeps the length. |
| Text.ContainsFromSpec | local-logs-mcp-server.js:417 | The substring search from a position finds an occurrence exactly when one exists there or later. |
| Text.ContainsSpec | local-logs-mcp-server.js:417 | `includes` holds exactly when the needle occurs somewhere. |
| Text.IndexOf | local-logs-mcp-server.js:52 | The index found is the first occurrence of the separator. |
| Text.Split | local-logs-mcp-server.js:413 | `split` always yields at least one piece. |
| Text.SplitPiecesLackSeparator | local-logs-mcp-server.js:52 | No piece of a split contains the separator. |
| Text.JoinSplit | local-logs-mcp-server.js:312 | Joining the pieces of a split gives back the original string. |
| Text.SplitJoin | local-logs-mcp-server.js:315 | Splitting the join of pieces that lack the separator gives back the pieces. |
| Text.Join | local-logs-mcp-server.js:312 | A join of at least one part starts with the first part. |
| Text.SplitConcat | local-logs-mcp-server.js:265 | Splitting two strings joined by the separator splits each of them. |
| Text.JoinSuffixOfSplit | local-logs-mcp-server.js:312 | Joining a suffix of the pieces gives a suffix of the string. |
| Text.Decimal | local-logs-mcp-server.js:316 | The decimal rendering of a number is non-empty and made of digits. |
| Text.NonBlankLines | local-logs-mcp-server.js:315 | Filtering blank lines never adds any. |
| Text.NonBlankLinesMembers | local-logs-mcp-server.js:344-347 | The filter keeps exactly the non-blank lines. |
| Text.BlankLinesFilterToNothing | local-logs-mcp-server.js:344 | The filter leaves nothing exactly when every line is blank. |
| Json.Prop | local-logs-mcp-server.js:72 | A property is defined exactly when the value is an object holding that key. |
| Json.ToNumber | local-logs-mcp-server.js:312 | Defined on values ToPrimitive accepts (`Json.Unconvertible` marks the rest, on which JavaScript throws). Only strings, arrays and plain objects can convert to NaN. A blank string converts to 0. |
| Json.OwnToStringThrows | local-logs-mcp-server.js:197 | An object with its own `toString` key is unconvertible, also inside an array. An object with only its own `valueOf` still converts, to NaN. |
| Json.DigitsValueOfDecimal | local-logs-mcp-server.js:315-316 | Reading back a rendered number gives that number. |
| Json.StringToNumberOfInt | local-logs-mcp-server.js:312 | `ToNumber` of an integer's decimal string gives that integer, so a count passed as a string acts like the number. |
| Json.IntegerLiteralOfInt | local-logs-mcp-server.js:312 | Parsing an integer's rendering gives that integer. |
| Json.LiteralOfDigits | local-logs-mcp-server.js:312 | A digit string parses to its value. |
| Json.LiteralOfNegative | local-logs-mcp-server.js:312 | A minus sign followed by digits parses to the negated value. |
| Json.DecimalIsRadixTen | local-logs-mcp-server.js:312 | Decimal digits are the radix-10 case of reading digits in a radix. |
| Json.PrefixedLiteral | local-logs-mcp-server.js:312 | An unsigned `0x`, `0o` or `0b` literal converts to its value in radix 16, 8 or 2. |
| Json.SignedPrefixedIsNaN | local-logs-mcp-server.js:312 | A sign in front of such a literal makes it NaN. |

## Left out

- The `execSync('tail -n …')` path of `tailLog` is left out: it runs an external program. Only the split/slice/join path, used on Windows and when `tail` fails, is modelled.
- `stats.mtime.toISOString()` is left out. Modification times are integers (milliseconds), and `new Date(b.modified) - new Date(a.modified)` compares them exactly.
- Sizes.UnitIndex: is the exact exponent of the largest power of 1024 not above the size. The source's floating-point quotient `Math.log(bytes) / Math.log(1024)` floors to the same exponent across the four units (below 1 TiB), where the relative gap to the next power is far above double rounding. Only for sizes just below 1 PiB and beyond could it round up; those sizes already print `undefined` as written, and that rounding is not modelled.
- Sizes.FormatBytes: states the unit only, not the decimal figure `parseFloat((bytes / 1024^i).toFixed(2))`, which is floating point.
- `JSON.stringify(result, null, 2)` and the stdout text of `sendResponse`/`sendError` are left out. Replies are modelled as values, and tool results as datatypes mirroring the returned objects.
- Reading stdin, `setEncoding`, `process.exit` on `end` and `process.stdout.write` are left out as I/O. The parser is a parameter of `Framing`. The end of the process after an unhandled rejection is modelled as the end of `Framing.Session`.
- Chunks are framed one at a time, as the code does. `start` keeps no buffer between reads, so a message split across two reads reaches `JSON.parse` as two separate lines. No buffering is modelled.
- `toLowerCase` is modelled on ASCII letters only; Unicode case mapping is left out.
- Json.ToNumber: JSON numbers are integers. Strings such as `1.5`, `1e3`, `1.` and `Infinity` convert to NaN in the model, where JavaScript gives a number (an integer for `1e3` and `1.`). Integers are exact: the rounding of numbers above 2^53 to doubles is not modelled.
- Exception texts raised by the engine (a `TypeError` from destructuring, from `path.join` on a non-string, or from converting an unconvertible value) are modelled as `EngineMessage` without their wording.
- The `catch` of `getServerStatus` is unreachable, because `tailLog` catches its own failures. It is noted, not modelled.
- The `capabilities: { tools: {} }` object of the `initialize` answer is a constant and is not carried in the model.
- The schema fields `type: 'object'` and `inputSchema` wrapping are kept only as the parameter list, its types, descriptions, defaults and `required`.
- The installer scripts (`install.js`, `install-new.js`, `setup-cursor.js`) and `test-server.js` are not part of this model.
- Concurrency between chunks is left out. Each chunk's deferred replies are modelled as written before the next chunk is read.
- FileSystem.Stat: `..` is resolved on the path text, as `path.resolve` does. The kernel also requires every directory on the way to exist and follows symbolic links; the snapshot has no links and does not check ancestors.
- FileSystem.PathJoin: only Node's POSIX `path` is modelled. On Windows `path` is `path.win32`, with `\` separators and drive letters.
- Listing.DescribeAllSpec: the `sizeHuman` it states is the corrected `formatBytes` (Sizes.FormatBytes), which gives `GB` where the source prints `undefined` from 1 TiB up (Finding 1). Below 1 TiB the two agree (Sizes.FormatBytesMatchesBelowTebibyte).
- Tail.TailLogReadable: the `fileSizeHuman` of a tail uses the corrected `formatBytes` as well.
- Watch.WatchLog: the `sizeHuman` of a watched file uses the corrected `formatBytes`.
- Protocol.HandleMessage: the server's handler `Protocol.Serve` is built on the corrected `handleMessage`, which answers `null` (Finding 2). The handler as written is kept beside it as Protocol.HandleMessageAsWritten, and `Framing` takes either one as a parameter.

## Findings

| source | as written | input that shows it | evidently intended | confidence | as-written member | corrected member |
|---|---|---|---|---|---|---|
| local-logs-mcp-server.js:446-448 | `sizes` has four units, so `sizes[i]` is `undefined` for i >= 4 | a 1 TiB (1099511627776-byte) log file gives `"1 undefined"` | a defined unit for every size | not executed | Sizes.TebibyteUnitUndefined | Sizes.FormatBytes |
| local-logs-mcp-server.js:71-72 | `const { id, method, params } = message` runs before the `try`, inside an `async` function | the line `null` makes the destructuring throw. The returned promise rejects unhandled, so no reply is written, and Node's default `--unhandled-rejections=throw` ends the process (exit code 1) once the chunk's work is done. Every later request goes unanswered (Framing.NullLineEndsSession) | answer with -32603 "Internal error" like any other failure and keep serving | not executed | Protocol.NullMessageUnanswered | Protocol.OnlyTheNotificationIsSilent |
