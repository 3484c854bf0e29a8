/**
 The `readable` handler of `start`: each chunk read from stdin is trimmed and
 split at `'\n'`, blank lines are skipped, and every other line is parsed and
 handed to `handleMessage`; a line `JSON.parse` rejects is answered with a
 parse error. A chunk is framed on its own: a request split across two chunks
 reaches the parser as two separate lines.

 Replies written synchronously come out in line order; replies produced after
 an `await` (see `Protocol`) follow them, in line order too. A rejected handler
 promise writes nothing, and since nothing handles it, Node's default
 `--unhandled-rejections=throw` ends the process once the chunk's work is
 done: no later chunk is read (`Session`).
 */
module Framing {
  import opened Optional
  import opened Text
  import opened Json
  import opened Protocol

  /** What `JSON.parse` does with one line: a value, or the message of its `SyntaxError`. */
  datatype Parsed = Parsed(value: Json) | Unparsable(message: string)

  type Parser = string -> Parsed

  /** `handleMessage` applied to one parsed value. */
  type Handler = Json -> Outcome

  /** The lines of a chunk the loop acts on: `chunk.trim().split('\n')` without the blank ones. */
  function FrameLines(chunk: string): seq<string> {
    NonBlankLines(Split(Trim(chunk), '\n'))
  }

  /** The replies a chunk produced so far, by when they are written, and the number of
      handler promises that were rejected. */
  datatype ChunkOutput = ChunkOutput(immediate: seq<Reply>, deferred: seq<Reply>, rejections: nat)

  /** One iteration of the loop. */
  function Step(out: ChunkOutput, parse: Parser, handle: Handler, line: string): ChunkOutput {
    match parse(line)
    case Unparsable(msg) =>
      out.(immediate := out.immediate + [SendError(Some(JNull), ParseError, "Parse error", Detail(msg))])
    case Parsed(m) =>
      match handle(m)
      case Now(r) => out.(immediate := out.immediate + [r])
      case Later(r) => out.(deferred := out.deferred + [r])
      case Silent => out
      case Rejected => out.(rejections := out.rejections + 1)
  }

  /** The loop over `lines`, as a reference definition. */
  function Frame(parse: Parser, handle: Handler, lines: seq<string>): (out: ChunkOutput)
    ensures |Stdout(out)| + out.rejections <= |lines|
    decreases |lines|
  {
    if |lines| == 0 then ChunkOutput([], [], 0)
    else Step(Frame(parse, handle, lines[..|lines| - 1]), parse, handle, lines[|lines| - 1])
  }

  /** Everything a chunk writes to stdout, in order. */
  function Stdout(out: ChunkOutput): seq<Reply> {
    out.immediate + out.deferred
  }

  /** Whether a line gets a reply: every unparsable line does, a parsed one when its
      handler writes one. */
  predicate Answered(parse: Parser, handle: Handler, line: string) {
    parse(line).Unparsable? || Written(handle(parse(line).value)).Some?
  }

  function CountAnswered(parse: Parser, handle: Handler, lines: seq<string>): nat {
    if |lines| == 0 then 0
    else CountAnswered(parse, handle, lines[..|lines| - 1]) + (if Answered(parse, handle, lines[|lines| - 1]) then 1 else 0)
  }

  function CountRejected(parse: Parser, handle: Handler, lines: seq<string>): nat {
    if |lines| == 0 then 0
    else
      var last := lines[|lines| - 1];
      CountRejected(parse, handle, lines[..|lines| - 1])
        + (if parse(last).Parsed? && handle(parse(last).value).Rejected? then 1 else 0)
  }

  /** The `readable` handler on one chunk: the replies it writes and the number of rejected
      handler promises. */
  method HandleChunk(parse: Parser, handle: Handler, chunk: string) returns (written: seq<Reply>, unhandled: nat)
    ensures written == Stdout(Frame(parse, handle, FrameLines(chunk)))
    ensures unhandled == Frame(parse, handle, FrameLines(chunk)).rejections
  {
    var lines := Split(Trim(chunk), '\n');
    var immediate: seq<Reply> := [];
    var deferred: seq<Reply> := [];
    var rejected: nat := 0;
    ghost var kept: seq<string> := [];
    var i := 0;
    while i < |lines|
      invariant 0 <= i <= |lines|
      invariant kept == NonBlankLines(lines[..i])
      invariant Frame(parse, handle, kept) == ChunkOutput(immediate, deferred, rejected)
    {
      var line := lines[i];
      KeptLinesStep(lines, i);
      if Trim(line) != "" {
        ghost var next := kept + [line];
        FrameSnoc(parse, handle, kept, line);
        match parse(line) {
          case Unparsable(msg) =>
            immediate := immediate + [SendError(Some(JNull), ParseError, "Parse error", Detail(msg))];
          case Parsed(m) =>
            match handle(m) {
              case Now(r) => immediate := immediate + [r];
              case Later(r) => deferred := deferred + [r];
              case Silent =>
              case Rejected => rejected := rejected + 1;
            }
        }
        kept := next;
      }
      i := i + 1;
    }
    assert lines[..i] == lines;
    written := immediate + deferred;
    unhandled := rejected;
  }

  lemma KeptLinesStep(lines: seq<string>, i: nat)
    requires i < |lines|
    ensures NonBlankLines(lines[..i + 1]) == NonBlankLines(lines[..i]) + (if Trim(lines[i]) != "" then [lines[i]] else [])
  {
    assert lines[..i + 1] == lines[..i] + [lines[i]];
    NonBlankLinesSnoc(lines[..i], lines[i]);
  }

  lemma FrameSnoc(parse: Parser, handle: Handler, lines: seq<string>, line: string)
    ensures Frame(parse, handle, lines + [line]) == Step(Frame(parse, handle, lines), parse, handle, line)
  {
    assert (lines + [line])[..|lines|] == lines;
  }

  /** Filtering distributes over appending one line. */
  lemma {:induction false} NonBlankLinesSnoc(lines: seq<string>, line: string)
    ensures NonBlankLines(lines + [line]) == NonBlankLines(lines) + (if Trim(line) != "" then [line] else [])
  {
    if |lines| > 0 {
      assert (lines + [line])[1..] == lines[1..] + [line];
      NonBlankLinesSnoc(lines[1..], line);
    }
  }

  /** One reply for every answered line and none for the others; immediate replies precede
      the deferred ones. */
  lemma {:induction false} FrameAnswersEachLine(parse: Parser, handle: Handler, lines: seq<string>)
    ensures |Stdout(Frame(parse, handle, lines))| == CountAnswered(parse, handle, lines)
    ensures Frame(parse, handle, lines).rejections == CountRejected(parse, handle, lines)
    ensures |Stdout(Frame(parse, handle, lines))| + Frame(parse, handle, lines).rejections <= |lines|
  {
    if |lines| > 0 {
      FrameAnswersEachLine(parse, handle, lines[..|lines| - 1]);
    }
  }

  /** Every unparsable line is answered at once with a parse error whose `id` is null,
      in the position of that line among the immediate replies. */
  lemma {:induction false} ParseErrorAnswersUnparsableLine(parse: Parser, handle: Handler, lines: seq<string>)
    requires |lines| > 0 && parse(lines[|lines| - 1]).Unparsable?
    ensures var out := Frame(parse, handle, lines);
            var before := Frame(parse, handle, lines[..|lines| - 1]);
            && out.immediate == before.immediate
                 + [Reply(Some(JNull), Failure(ParseError, "Parse error", Detail(parse(lines[|lines| - 1]).message)))]
            && out.deferred == before.deferred
  {
  }

  /** A chunk holding only white space writes nothing. */
  lemma BlankChunkWritesNothing(parse: Parser, handle: Handler, chunk: string)
    requires Blank(chunk)
    ensures FrameLines(chunk) == []
    ensures Stdout(Frame(parse, handle, FrameLines(chunk))) == []
  {
    assert Trim(chunk) == "";
    assert Split("", '\n') == [""] by {
      SplitJoin([""], '\n');
    }
    assert Trim("") == "";
  }

  /** The lines handed to the parser are non-blank and hold no line break. */
  lemma FrameLinesShape(chunk: string)
    ensures forall l :: l in FrameLines(chunk) ==> !Blank(l) && '\n' !in l && l in Split(Trim(chunk), '\n')
  {
    var parts := Split(Trim(chunk), '\n');
    NonBlankLinesMembers(parts);
    SplitPiecesLackSeparator(Trim(chunk), '\n');
    forall l | l in FrameLines(chunk) ensures '\n' !in l {
      var k :| 0 <= k < |parts| && parts[k] == l;
    }
  }

  /** A handler that never rejects, as `HandleMessage` does not, leaves no promise unhandled. */
  lemma CorrectedHandlerNeverRejects(parse: Parser, route: Router, lines: seq<string>)
    ensures Frame(parse, m => HandleMessage(route, m), lines).rejections == 0
  {
    var handle: Handler := m => HandleMessage(route, m);
    FrameAnswersEachLine(parse, handle, lines);
    NoRejections(parse, route, lines);
  }

  lemma {:induction false} NoRejections(parse: Parser, route: Router, lines: seq<string>)
    ensures CountRejected(parse, m => HandleMessage(route, m), lines) == 0
  {
    if |lines| > 0 {
      NoRejections(parse, route, lines[..|lines| - 1]);
      var last := lines[|lines| - 1];
      if parse(last).Parsed? {
        OnlyTheNotificationIsSilent(route, parse(last).value);
      }
    }
  }

  /** With the handler as written, every line that parses to `null` leaves a rejected
      promise, and no other line does. */
  lemma {:induction false} AsWrittenRejectsNullLines(parse: Parser, route: Router, lines: seq<string>)
    ensures CountRejected(parse, m => HandleMessageAsWritten(route, m), lines) ==
              |NullLines(parse, lines)|
  {
    if |lines| > 0 {
      AsWrittenRejectsNullLines(parse, route, lines[..|lines| - 1]);
      var last := lines[|lines| - 1];
      if parse(last).Parsed? {
        AsWrittenDiffersOnlyOnNull(route, parse(last).value);
        OnlyTheNotificationIsSilent(route, parse(last).value);
      }
    }
  }

  /** The lines that parse to `null`. */
  function NullLines(parse: Parser, lines: seq<string>): seq<string> {
    if |lines| == 0 then []
    else NullLines(parse, lines[..|lines| - 1]) + (if parse(lines[|lines| - 1]) == Parsed(JNull) then [lines[|lines| - 1]] else [])
  }

  /** Whether handling `chunk` leaves a rejected handler promise. */
  predicate Rejects(parse: Parser, handle: Handler, chunk: string) {
    Frame(parse, handle, FrameLines(chunk)).rejections > 0
  }

  /** What the server writes over successive `readable` events: each chunk's replies, until a
      chunk leaves a rejected handler promise. The process then exits with that chunk's
      replies, deferred ones included, written and every later chunk unread. */
  function Session(parse: Parser, handle: Handler, chunks: seq<string>): seq<Reply>
    decreases |chunks|
  {
    if |chunks| == 0 then []
    else
      Stdout(Frame(parse, handle, FrameLines(chunks[0])))
        + (if Rejects(parse, handle, chunks[0]) then [] else Session(parse, handle, chunks[1..]))
  }

  /** The replies of every chunk, in order, for a server that keeps running. */
  function AllReplies(parse: Parser, handle: Handler, chunks: seq<string>): seq<Reply>
    decreases |chunks|
  {
    if |chunks| == 0 then []
    else Stdout(Frame(parse, handle, FrameLines(chunks[0]))) + AllReplies(parse, handle, chunks[1..])
  }

  /** The stdin loop: one `readable` handler call per chunk, stopping at the first chunk that
      leaves a rejection; `exited` tells whether the process ended that way. */
  method RunSession(parse: Parser, handle: Handler, chunks: seq<string>) returns (written: seq<Reply>, exited: bool)
    ensures written == Session(parse, handle, chunks)
    ensures exited <==> exists k :: 0 <= k < |chunks| && Rejects(parse, handle, chunks[k])
  {
    written := [];
    var i := 0;
    while i < |chunks|
      invariant 0 <= i <= |chunks|
      invariant written + Session(parse, handle, chunks[i..]) == Session(parse, handle, chunks)
      invariant forall k :: 0 <= k < i ==> !Rejects(parse, handle, chunks[k])
    {
      var replies, unhandled := HandleChunk(parse, handle, chunks[i]);
      SessionAdvance(parse, handle, chunks, i, written, replies, unhandled);
      written := written + replies;
      if unhandled > 0 {
        exited := true;
        return;
      }
      i := i + 1;
    }
    assert chunks[i..] == [];
    exited := false;
  }

  /** One turn of the stdin loop keeps the replies written so far a prefix of the session. */
  lemma SessionAdvance(parse: Parser, handle: Handler, chunks: seq<string>, i: nat,
                       written: seq<Reply>, replies: seq<Reply>, unhandled: nat)
    requires i < |chunks|
    requires written + Session(parse, handle, chunks[i..]) == Session(parse, handle, chunks)
    requires replies == Stdout(Frame(parse, handle, FrameLines(chunks[i])))
    requires unhandled == Frame(parse, handle, FrameLines(chunks[i])).rejections
    ensures unhandled > 0 ==> Rejects(parse, handle, chunks[i]) && written + replies == Session(parse, handle, chunks)
    ensures unhandled == 0 ==> !Rejects(parse, handle, chunks[i])
                               && (written + replies) + Session(parse, handle, chunks[i + 1..]) == Session(parse, handle, chunks)
  {
    SessionStep(parse, handle, chunks, i);
    var here := Session(parse, handle, chunks[i..]);
    var rest := Session(parse, handle, chunks[i + 1..]);
    if unhandled > 0 {
      assert here == replies + [];
      assert replies + [] == replies;
    } else {
      assert here == replies + rest;
      SeqAssoc(written, replies, rest);
    }
  }

  lemma SessionStep(parse: Parser, handle: Handler, chunks: seq<string>, i: nat)
    requires i < |chunks|
    ensures Session(parse, handle, chunks[i..]) ==
              Stdout(Frame(parse, handle, FrameLines(chunks[i])))
                + (if Rejects(parse, handle, chunks[i]) then [] else Session(parse, handle, chunks[i + 1..]))
  {
    assert chunks[i..][0] == chunks[i];
    assert chunks[i..][1..] == chunks[i + 1..];
  }

  /** After a chunk that leaves a rejection, nothing from any later chunk is written. */
  lemma {:induction false} SessionStopsAfterRejection(parse: Parser, handle: Handler, chunks: seq<string>, k: nat)
    requires k < |chunks| && Rejects(parse, handle, chunks[k])
    ensures Session(parse, handle, chunks) == Session(parse, handle, chunks[..k + 1])
  {
    if k > 0 && !Rejects(parse, handle, chunks[0]) {
      assert chunks[1..][k - 1] == chunks[k];
      SessionStopsAfterRejection(parse, handle, chunks[1..], k - 1);
      assert chunks[..k + 1][1..] == chunks[1..][..k];
    }
    assert chunks[..k + 1][0] == chunks[0];
  }

  /** With a handler that never rejects, every chunk is answered. */
  lemma {:induction false} CorrectedSessionAnswersEveryChunk(parse: Parser, route: Router, chunks: seq<string>)
    ensures Session(parse, m => HandleMessage(route, m), chunks) == AllReplies(parse, m => HandleMessage(route, m), chunks)
  {
    if |chunks| > 0 {
      CorrectedHandlerNeverRejects(parse, route, FrameLines(chunks[0]));
      CorrectedSessionAnswersEveryChunk(parse, route, chunks[1..]);
    }
  }

  /** With the handler as written, a `null` line ends the session after its chunk. */
  lemma NullLineEndsSession(parse: Parser, route: Router, chunks: seq<string>, k: nat, line: string)
    requires k < |chunks| && line in FrameLines(chunks[k]) && parse(line) == Parsed(JNull)
    ensures Session(parse, m => HandleMessageAsWritten(route, m), chunks)
         == Session(parse, m => HandleMessageAsWritten(route, m), chunks[..k + 1])
  {
    var handle: Handler := m => HandleMessageAsWritten(route, m);
    var lines := FrameLines(chunks[k]);
    FrameAnswersEachLine(parse, handle, lines);
    AsWrittenRejectsNullLines(parse, route, lines);
    NullLineListed(parse, lines, line);
    SessionStopsAfterRejection(parse, handle, chunks, k);
  }

  lemma {:induction false} NullLineListed(parse: Parser, lines: seq<string>, line: string)
    requires line in lines && parse(line) == Parsed(JNull)
    ensures |NullLines(parse, lines)| > 0
  {
    var last := lines[|lines| - 1];
    if last != line {
      assert lines == lines[..|lines| - 1] + [last];
      NullLineListed(parse, lines[..|lines| - 1], line);
    }
  }
}
