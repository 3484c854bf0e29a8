/**
 `searchLogs` and `extractTimestamp`: a case-insensitive substring scan of a
 log file from its first line, keeping at most `lines` matches in file order,
 each with its 1-based line number, trimmed text and leftmost timestamp.
 */
module Search {
  import opened Optional
  import opened Text
  import opened Json
  import opened FileSystem
  import opened Config
  import opened Tail

  const DefaultSearchFile: string := "combined.log"
  const DefaultSearchLines: int := 10

  /** The regular expression `\d{4}-\d{2}-\d{2} \d{2}:\d{2}:\d{2}`, one character per position;
      `D` stands for an ASCII digit. */
  const TimestampShape: string := "DDDD-DD-DD DD:DD:DD"

  predicate ShapeChar(shape: char, c: char) {
    if shape == 'D' then '0' <= c <= '9' else c == shape
  }

  /** A timestamp starts at offset `i` of `line`. */
  predicate TimestampAt(line: string, i: int) {
    && 0 <= i && i + |TimestampShape| <= |line|
    && forall k :: 0 <= k < |TimestampShape| ==> ShapeChar(TimestampShape[k], line[i + k])
  }

  /** The leftmost timestamp offset at or after `i` (`FindTimestampSpec`). */
  function FindTimestamp(line: string, i: nat): Option<nat>
    decreases |line| - i
  {
    if i + |TimestampShape| > |line| then None
    else if TimestampAt(line, i) then Some(i)
    else FindTimestamp(line, i + 1)
  }

  lemma {:induction false} FindTimestampSpec(line: string, i: nat)
    ensures var r := FindTimestamp(line, i);
            && (r.Some? ==> i <= r.value && TimestampAt(line, r.value))
            && (r.Some? ==> forall j :: i <= j < r.value ==> !TimestampAt(line, j))
            && (r.None? ==> forall j :: i <= j ==> !TimestampAt(line, j))
    decreases |line| - i
  {
    if i + |TimestampShape| <= |line| && !TimestampAt(line, i) {
      FindTimestampSpec(line, i + 1);
    }
  }

  /** `extractTimestamp`: the text of the leftmost match, or null. */
  function ExtractTimestamp(line: string): (r: Option<string>)
    ensures r.None? <==> forall i :: !TimestampAt(line, i)
    ensures r.Some? ==> |r.value| == |TimestampShape|
  {
    FindTimestampSpec(line, 0);
    match FindTimestamp(line, 0)
    case None => None
    case Some(i) => Some(line[i..i + |TimestampShape|])
  }

  /** `extractTimestamp` returns null exactly when no timestamp occurs, and otherwise the text of
      the leftmost one. */
  lemma ExtractTimestampSpec(line: string)
    ensures var r := ExtractTimestamp(line);
            && (r.None? <==> forall i :: !TimestampAt(line, i))
            && (r.Some? ==> exists i :: && TimestampAt(line, i)
                                        && r.value == line[i..i + |TimestampShape|]
                                        && forall j :: 0 <= j < i ==> !TimestampAt(line, j))
  {
    FindTimestampSpec(line, 0);
  }

  /** `lines[i].toLowerCase().includes(query.toLowerCase())`. */
  predicate Hit(line: string, query: string) {
    Contains(Lower(line), Lower(query))
  }

  datatype Match = Match(lineNumber: nat, content: string, timestamp: Option<string>)

  /** The match recorded for line index `i`. */
  function MatchOf(lines: seq<string>, i: nat): Match
    requires i < |lines|
  {
    Match(i + 1, Trim(lines[i]), ExtractTimestamp(lines[i]))
  }

  /** Strictly increasing line indices. */
  predicate Increasing(idx: seq<nat>) {
    forall a, b :: 0 <= a < b < |idx| ==> idx[a] < idx[b]
  }

  /** The indices of the hit lines among the first `n`, in file order, and no others. */
  function HitIndices(lines: seq<string>, query: string, n: nat): (r: seq<nat>)
    requires n <= |lines|
    ensures forall k :: 0 <= k < |r| ==> r[k] < n && Hit(lines[r[k]], query)
    ensures Increasing(r)
  {
    if n == 0 then []
    else
      var prev := HitIndices(lines, query, n - 1);
      if Hit(lines[n - 1], query) then
        var r := prev + [n - 1];
        assert forall k :: 0 <= k < |prev| ==> r[k] == prev[k];
        r
      else prev
  }

  /** No hit line among the first `n` is missing from the index list. */
  lemma {:induction false} HitIndicesComplete(lines: seq<string>, query: string, n: nat, j: nat)
    requires j < n <= |lines| && Hit(lines[j], query)
    ensures j in HitIndices(lines, query, n)
    decreases n
  {
    if j < n - 1 {
      HitIndicesComplete(lines, query, n - 1, j);
    }
  }

  lemma {:induction false} HitIndicesPrefix(lines: seq<string>, query: string, m: nat, n: nat)
    requires m <= n <= |lines|
    ensures HitIndices(lines, query, m) <= HitIndices(lines, query, n)
    decreases n
  {
    if m < n {
      HitIndicesPrefix(lines, query, m, n - 1);
    }
  }

  /** The matches recorded for a list of line indices. */
  function MatchesAt(lines: seq<string>, idx: seq<nat>): (r: seq<Match>)
    requires forall k :: 0 <= k < |idx| ==> idx[k] < |lines|
    ensures |r| == |idx|
  {
    seq(|idx|, k requires 0 <= k < |idx| => MatchOf(lines, idx[k]))
  }

  /** How many matches `matches.length < maxLines` admits: none when the bound is NaN or not positive. */
  function Cap(maxLines: Number): nat {
    if maxLines.Num? && maxLines.n > 0 then maxLines.n else 0
  }

  /** The reference selection: the first `Cap(maxLines)` hit lines of the whole file. */
  function SelectMatches(lines: seq<string>, query: string, maxLines: Number): seq<Match> {
    var all := HitIndices(lines, query, |lines|);
    MatchesAt(lines, all[..if |all| <= Cap(maxLines) then |all| else Cap(maxLines)])
  }

  /** The scanning loop of `searchLogs`: stops at the end of the file or once `maxLines`
      matches are collected, and returns exactly the reference selection. */
  method ScanLines(lines: seq<string>, query: string, maxLines: Number) returns (matches: seq<Match>)
    ensures matches == SelectMatches(lines, query, maxLines)
  {
    matches := [];
    var i := 0;
    while i < |lines| && Below(|matches|, maxLines)
      invariant 0 <= i <= |lines|
      invariant matches == MatchesAt(lines, HitIndices(lines, query, i))
      invariant |matches| <= Cap(maxLines)
    {
      if Hit(lines[i], query) {
        MatchesAtAppend(lines, HitIndices(lines, query, i), i);
        matches := matches + [MatchOf(lines, i)];
      }
      i := i + 1;
    }
    ScanStopsAtSelection(lines, query, maxLines, i);
  }

  lemma MatchesAtAppend(lines: seq<string>, idx: seq<nat>, i: nat)
    requires forall k :: 0 <= k < |idx| ==> idx[k] < |lines|
    requires i < |lines|
    ensures MatchesAt(lines, idx + [i]) == MatchesAt(lines, idx) + [MatchOf(lines, i)]
  {
  }

  /** Stopping at `i`, either at the end or with `Cap` matches, leaves the reference selection. */
  lemma ScanStopsAtSelection(lines: seq<string>, query: string, maxLines: Number, i: nat)
    requires i <= |lines|
    requires |HitIndices(lines, query, i)| <= Cap(maxLines)
    requires i == |lines| || !Below(|HitIndices(lines, query, i)|, maxLines)
    ensures MatchesAt(lines, HitIndices(lines, query, i)) == SelectMatches(lines, query, maxLines)
  {
    HitIndicesPrefix(lines, query, i, |lines|);
    var all := HitIndices(lines, query, |lines|);
    var mine := HitIndices(lines, query, i);
    assert mine == all[..|mine|];
    if i < |lines| {
      assert |mine| == Cap(maxLines);
    }
  }

  /** The indices the reference selection keeps: a prefix of all hit indices. */
  lemma SelectedIndices(lines: seq<string>, query: string, maxLines: Number) returns (idx: seq<nat>)
    ensures idx <= HitIndices(lines, query, |lines|)
    ensures |idx| == if |HitIndices(lines, query, |lines|)| <= Cap(maxLines) then |HitIndices(lines, query, |lines|)| else Cap(maxLines)
    ensures forall k :: 0 <= k < |idx| ==> idx[k] < |lines| && Hit(lines[idx[k]], query)
    ensures Increasing(idx)
    ensures SelectMatches(lines, query, maxLines) == MatchesAt(lines, idx)
  {
    var all := HitIndices(lines, query, |lines|);
    idx := all[..if |all| <= Cap(maxLines) then |all| else Cap(maxLines)];
  }

  /** The fields of the `k`-th match recorded for a list of line indices. */
  lemma MatchesAtLineNumber(lines: seq<string>, idx: seq<nat>, k: nat)
    requires forall i :: 0 <= i < |idx| ==> idx[i] < |lines|
    requires k < |idx|
    ensures MatchesAt(lines, idx)[k].lineNumber == idx[k] + 1
  {
  }

  lemma MatchesAtFields(lines: seq<string>, idx: seq<nat>, k: nat)
    requires forall i :: 0 <= i < |idx| ==> idx[i] < |lines|
    requires k < |idx|
    ensures var m := MatchesAt(lines, idx)[k];
            && m.lineNumber == idx[k] + 1
            && m.content == Trim(lines[m.lineNumber - 1])
            && m.timestamp == ExtractTimestamp(lines[m.lineNumber - 1])
  {
  }

  /** The matches for increasing hit indices are in ascending line order, each recording the
      1-based number, trimmed text and timestamp of a hit line. */
  lemma MatchesAtSound(lines: seq<string>, query: string, idx: seq<nat>)
    requires forall i :: 0 <= i < |idx| ==> idx[i] < |lines| && Hit(lines[idx[i]], query)
    requires Increasing(idx)
    ensures var r := MatchesAt(lines, idx);
            forall k :: 0 <= k < |r| ==>
              && 1 <= r[k].lineNumber <= |lines|
              && Hit(lines[r[k].lineNumber - 1], query)
              && r[k].content == Trim(lines[r[k].lineNumber - 1])
              && r[k].timestamp == ExtractTimestamp(lines[r[k].lineNumber - 1])
    ensures var r := MatchesAt(lines, idx);
            forall a, b :: 0 <= a < b < |r| ==> r[a].lineNumber < r[b].lineNumber
  {
    var r := MatchesAt(lines, idx);
    forall k | 0 <= k < |r|
      ensures && 1 <= r[k].lineNumber <= |lines|
              && Hit(lines[r[k].lineNumber - 1], query)
              && r[k].content == Trim(lines[r[k].lineNumber - 1])
              && r[k].timestamp == ExtractTimestamp(lines[r[k].lineNumber - 1])
    {
      MatchesAtFields(lines, idx, k);
    }
    forall a, b | 0 <= a < b < |r| ensures r[a].lineNumber < r[b].lineNumber {
      MatchesAtLineNumber(lines, idx, a);
      MatchesAtLineNumber(lines, idx, b);
    }
  }

  /** At most `Cap` matches, in ascending line order, each the 1-based number, trimmed text and
      timestamp of a line containing the query regardless of case. */
  lemma SelectMatchesSound(lines: seq<string>, query: string, maxLines: Number)
    ensures var r := SelectMatches(lines, query, maxLines);
            && |r| <= Cap(maxLines)
            && (forall a, b :: 0 <= a < b < |r| ==> r[a].lineNumber < r[b].lineNumber)
            && (forall k :: 0 <= k < |r| ==>
                  && 1 <= r[k].lineNumber <= |lines|
                  && Hit(lines[r[k].lineNumber - 1], query)
                  && r[k].content == Trim(lines[r[k].lineNumber - 1])
                  && r[k].timestamp == ExtractTimestamp(lines[r[k].lineNumber - 1]))
  {
    var idx := SelectedIndices(lines, query, maxLines);
    MatchesAtSound(lines, query, idx);
  }

  /** No hit line is skipped: every hit before the last match is among the matches, and every
      hit of the file is when fewer than `Cap` were found. */
  lemma SelectMatchesComplete(lines: seq<string>, query: string, maxLines: Number, j: nat)
    requires j < |lines| && Hit(lines[j], query)
    ensures var r := SelectMatches(lines, query, maxLines);
            (|r| < Cap(maxLines) || (|r| > 0 && j < r[|r| - 1].lineNumber)) ==>
              exists k :: 0 <= k < |r| && r[k].lineNumber == j + 1
  {
    var idx := SelectedIndices(lines, query, maxLines);
    var r := SelectMatches(lines, query, maxLines);
    var k := HitPosition(lines, query, j);
    if |r| < Cap(maxLines) || (|r| > 0 && j < r[|r| - 1].lineNumber) {
      if |r| > 0 {
        MatchesAtLineNumber(lines, idx, |r| - 1);
      }
      KeptHitPosition(lines, query, maxLines, idx, j, k);
      MatchesAtLineNumber(lines, idx, k);
    }
  }

  /** Where hit line `j` sits among all hit indices. */
  lemma HitPosition(lines: seq<string>, query: string, j: nat) returns (k: nat)
    requires j < |lines| && Hit(lines[j], query)
    ensures k < |HitIndices(lines, query, |lines|)| && HitIndices(lines, query, |lines|)[k] == j
  {
    var all := HitIndices(lines, query, |lines|);
    HitIndicesComplete(lines, query, |lines|, j);
    k :| 0 <= k < |all| && all[k] == j;
  }

  lemma KeptHitPosition(lines: seq<string>, query: string, maxLines: Number, idx: seq<nat>, j: nat, k: nat)
    requires idx <= HitIndices(lines, query, |lines|)
    requires |idx| == if |HitIndices(lines, query, |lines|)| <= Cap(maxLines) then |HitIndices(lines, query, |lines|)| else Cap(maxLines)
    requires forall i :: 0 <= i < |idx| ==> idx[i] < |lines|
    requires k < |HitIndices(lines, query, |lines|)| && HitIndices(lines, query, |lines|)[k] == j
    requires |idx| < Cap(maxLines) || (|idx| > 0 && j <= idx[|idx| - 1])
    ensures k < |idx| && idx[k] == j
  {
    var all := HitIndices(lines, query, |lines|);
    if |idx| < Cap(maxLines) {
      assert |idx| == |all|;
    }
  }

  /** Searching is insensitive to the case of the query. */
  lemma HitIgnoresQueryCase(line: string, query: string)
    ensures Hit(line, query) <==> Hit(line, Lower(query))
  {
    assert Lower(Lower(query)) == Lower(query);
  }

  /** The outcomes of `searchLogs`: a search; the missing-file answer; or the caught exception
      (a non-string file name, an unreadable file, or a query `toLowerCase` cannot be called on),
      which carries an `error` field and no matches. */
  datatype SearchResult =
    | SearchOk(matches: seq<Match>, query: Option<Json>, filename: string, matchCount: nat, message: string)
    | SearchNotFound(query: Option<Json>, filename: string, message: string)
    | SearchFailed(query: Option<Json>, rawFilename: Json)
  {
    function Matches(): seq<Match> {
      if SearchOk? then matches else []
    }
  }

  function FoundMessage(count: nat, query: Option<Json>, name: string): string
    requires !TemplateThrows(query)
  {
    "Found " + Decimal(count) + " matches for \"" + Template(query) + "\" in " + name
  }

  /** `searchLogs(query, filename = 'combined.log', maxLines = 10)`. The query is only read
      inside the loop, so a missing query fails only when the loop runs at all; the bound is
      compared before the first line, so an unconvertible bound always fails. */
  function SearchLogs(fs: Fs, cfg: Config, query: Option<Json>, filename: Option<Json>, lines: Option<Json>): (r: SearchResult)
    ensures r.SearchOk? ==> r.matchCount == |r.matches| && ReadFile(fs, cfg.cwd, PathJoin(cfg.logsDir, r.filename)).Some?
    ensures r.SearchOk? ==> !Unconvertible(lines.GetOr(JNum(DefaultSearchLines)))
                            && |r.matches| <= Cap(ToNumber(lines.GetOr(JNum(DefaultSearchLines))))
    ensures r.SearchNotFound? ==> !Exists(fs, cfg.cwd, PathJoin(cfg.logsDir, r.filename))
    ensures r.query == query
  {
    match FileArgument(filename, DefaultSearchFile)
    case BadName(v) => SearchFailed(query, v)
    case Name(name) => SearchFile(fs, cfg, query, name, PathJoin(cfg.logsDir, name), lines)
  }

  /** The search once the file name `name` is joined into the path `p`. */
  function SearchFile(fs: Fs, cfg: Config, query: Option<Json>, name: string, p: string, lines: Option<Json>): (r: SearchResult)
    ensures r.SearchOk? ==> r.matchCount == |r.matches| && r.filename == name && ReadFile(fs, cfg.cwd, p).Some?
    ensures r.SearchOk? ==> !Unconvertible(lines.GetOr(JNum(DefaultSearchLines)))
                            && |r.matches| <= Cap(ToNumber(lines.GetOr(JNum(DefaultSearchLines))))
    ensures r.SearchNotFound? ==> r.filename == name && !Exists(fs, cfg.cwd, p)
    ensures r.query == query
  {
    if !Exists(fs, cfg.cwd, p) then SearchNotFound(query, name, "Log file " + name + " not found")
    else
      match ReadFile(fs, cfg.cwd, p)
      case None => SearchFailed(query, JStr(name))
      case Some(content) =>
        if Unconvertible(lines.GetOr(JNum(DefaultSearchLines))) then SearchFailed(query, JStr(name))
        else
          var maxLines := ToNumber(lines.GetOr(JNum(DefaultSearchLines)));
          if query.Some? && query.value.JStr? then
            var ms := SelectMatches(Split(content, '\n'), query.value.s, maxLines);
            SearchOk(ms, query, name, |ms|, FoundMessage(|ms|, query, name))
          // `query.toLowerCase()` in the first iteration, or `${query}` in the message, throws.
          else if Below(0, maxLines) || TemplateThrows(query) then SearchFailed(query, JStr(name))
          else SearchOk([], query, name, 0, FoundMessage(0, query, name))
  }

  /** The file name enters the answer only through its path and its text. */
  lemma SearchFileByPath(fs: Fs, cfg: Config, query: Option<Json>, a: string, b: string, p: string, lines: Option<Json>)
    ensures SearchFile(fs, cfg, query, a, p, lines).SearchNotFound? == SearchFile(fs, cfg, query, b, p, lines).SearchNotFound?
    ensures SearchFile(fs, cfg, query, a, p, lines).Matches() == SearchFile(fs, cfg, query, b, p, lines).Matches()
  {
  }

  /** A missing file gives no matches, whatever the query. */
  lemma SearchMissingFile(fs: Fs, cfg: Config, query: Option<Json>, name: string, lines: Option<Json>)
    requires !Exists(fs, cfg.cwd, PathJoin(cfg.logsDir, name))
    ensures SearchLogs(fs, cfg, query, Some(JStr(name)), lines).SearchNotFound?
    ensures SearchLogs(fs, cfg, query, Some(JStr(name)), lines).Matches() == []
  {
  }

  /** A leading `./` names the same file: the same matches are found. */
  lemma SearchIgnoresDotSlash(fs: Fs, cfg: Config, query: Option<Json>, name: string, lines: Option<Json>)
    requires cfg.logsDir != "" && name != ""
    ensures var dotted := SearchLogs(fs, cfg, query, Some(JStr("./" + name)), lines);
            var plain := SearchLogs(fs, cfg, query, Some(JStr(name)), lines);
            && dotted.SearchNotFound? == plain.SearchNotFound?
            && dotted.Matches() == plain.Matches()
  {
    JoinDotSlash(cfg.logsDir, name);
    SearchFileByPath(fs, cfg, query, "./" + name, name, PathJoin(cfg.logsDir, name), lines);
  }

  /** A search of a readable file with a string query returns the reference selection of its
      lines, and `matchCount` is the number of matches. */
  lemma SearchReadable(fs: Fs, cfg: Config, query: string, name: string, lines: Option<Json>)
    requires ReadFile(fs, cfg.cwd, PathJoin(cfg.logsDir, name)).Some?
    requires !Unconvertible(lines.GetOr(JNum(DefaultSearchLines)))
    ensures var r := SearchLogs(fs, cfg, Some(JStr(query)), Some(JStr(name)), lines);
            var content := ReadFile(fs, cfg.cwd, PathJoin(cfg.logsDir, name)).value;
            && r.SearchOk?
            && r.matches == SelectMatches(Split(content, '\n'), query, ToNumber(lines.GetOr(JNum(DefaultSearchLines))))
            && r.matchCount == |r.matches|
  {
    assert Exists(fs, cfg.cwd, PathJoin(cfg.logsDir, name));
  }

  /** A readable file with a bound JavaScript cannot convert gives the `error` answer, whatever
      the query. */
  lemma SearchOfUnconvertibleBoundFails(fs: Fs, cfg: Config, query: Option<Json>, name: string, lines: Json)
    requires ReadFile(fs, cfg.cwd, PathJoin(cfg.logsDir, name)).Some?
    requires Unconvertible(lines)
    ensures SearchLogs(fs, cfg, query, Some(JStr(name)), Some(lines)) == SearchFailed(query, JStr(name))
  {
    assert Exists(fs, cfg.cwd, PathJoin(cfg.logsDir, name));
  }

  /** A missing (or non-string) query against a readable file is reported in the result's
      `error` field with no matches, unless the bound stops the loop before its first line and
      the query renders in the message. */
  lemma SearchWithoutQuery(fs: Fs, cfg: Config, query: Option<Json>, name: string, lines: Option<Json>)
    requires ReadFile(fs, cfg.cwd, PathJoin(cfg.logsDir, name)).Some?
    requires query.None? || !query.value.JStr?
    ensures var r := SearchLogs(fs, cfg, query, Some(JStr(name)), lines);
            var bound := lines.GetOr(JNum(DefaultSearchLines));
            && r.Matches() == []
            && (r.SearchFailed? <==> Unconvertible(bound) || Below(0, ToNumber(bound)) || TemplateThrows(query))
  {
    var p := PathJoin(cfg.logsDir, name);
    assert Exists(fs, cfg.cwd, p);
    assert FileArgument(Some(JStr(name)), DefaultSearchFile) == Name(name);
    assert SearchLogs(fs, cfg, query, Some(JStr(name)), lines) == SearchFile(fs, cfg, query, name, p, lines);
  }


}
