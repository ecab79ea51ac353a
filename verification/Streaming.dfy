/** The incremental parser of Server-Sent Events (lib/network/streaming.c). A char stands for a byte. */
module Streaming {
  import opened Wrappers

  datatype State = Idle | ReadingEvent | ReadingData | Complete

  /** What the parser hands on: a data payload under the event type then in force, or the end of the stream. */
  datatype Event = Payload(kind: Option<string>, text: string) | Completed

  datatype Parser = Parser(line: string, kind: Option<string>, state: State, events: seq<Event>)

  const START := Parser("", None, Idle, [])

  const SIZE_MAX: nat := 0xFFFF_FFFF_FFFF_FFFF
  /** The largest capacity that doubling reaches without passing SIZE_MAX. */
  const MAX_CAPACITY: nat := 0x8000_0000_0000_0000
  const MAX_LINE: nat := MAX_CAPACITY - 1

  // ----- One line -----

  function TrimBlanks(s: string): string {
    if s != "" && (s[|s| - 1] == ' ' || s[|s| - 1] == '\t') then TrimBlanks(s[..|s| - 1]) else s
  }

  /** strndup stops at a NUL. */
  function UpToNul(s: string): string {
    if s == "" || s[0] == '\0' then "" else [s[0]] + UpToNul(s[1..])
  }

  /** streaming_process_sse_line; listening says that a payload callback is set. */
  function HandleLine(p: Parser, line: string, listening: bool): Parser {
    if "data: " <= line then
      if line[6..] == "[DONE]" then p.(state := Complete, events := p.events + [Completed])
      else
        p.(state := ReadingData,
           events := if listening && |line| > 6 then p.events + [Payload(p.kind, line[6..])] else p.events)
    else if "event: " <= line then
      p.(state := ReadingEvent, kind := Some(UpToNul(TrimBlanks(line[7..]))))
    else p
  }

  predicate Blanks(s: string) {
    forall k :: 0 <= k < |s| ==> s[k] == ' ' || s[k] == '\t'
  }

  lemma {:induction false} BlanksTrimmed(s: string, blanks: string)
    requires Blanks(blanks) && (s == "" || (s[|s| - 1] != ' ' && s[|s| - 1] != '\t'))
    ensures TrimBlanks(s + blanks) == s
    decreases |blanks|
  {
    if blanks == "" {
      assert s + blanks == s;
    } else {
      assert (s + blanks)[..|s + blanks| - 1] == s + blanks[..|blanks| - 1];
      BlanksTrimmed(s, blanks[..|blanks| - 1]);
    }
  }

  lemma {:induction false} NulCuts(s: string, tail: string)
    requires '\0' !in s && (tail == "" || tail[0] == '\0')
    ensures UpToNul(s + tail) == s
  {
    if s == "" {
      assert s + tail == tail;
    } else {
      assert (s + tail)[1..] == s[1..] + tail;
      NulCuts(s[1..], tail);
    }
  }

  /** What a line does. The end mark completes the stream; other data is a payload under the type in force, unless it is
      empty or nobody listens; an event line sets the type, without the blanks at its end or what follows a NUL; and any
      other line does nothing. */
  lemma DataLineMeans(p: Parser, text: string, listening: bool)
    ensures var q := HandleLine(p, "data: " + text, listening);
            if text == "[DONE]" then q == p.(state := Complete, events := p.events + [Completed])
            else
              && q.(events := p.events) == p.(state := ReadingData)
              && q.events == p.events + if listening && text != "" then [Payload(p.kind, text)] else []
  {
    assert ("data: " + text)[6..] == text;
  }

  lemma TypeLineMeans(p: Parser, kind: string, hidden: string, blanks: string, listening: bool)
    requires '\0' !in kind && Blanks(blanks) && (hidden == "" || hidden[0] == '\0')
    requires var s := kind + hidden; s == "" || (s[|s| - 1] != ' ' && s[|s| - 1] != '\t')
    ensures HandleLine(p, "event: " + (kind + hidden + blanks), listening)
            == p.(state := ReadingEvent, kind := Some(kind))
  {
    var line := "event: " + (kind + hidden + blanks);
    assert line[0] == 'e' && line[7..] == kind + hidden + blanks;
    BlanksTrimmed(kind + hidden, blanks);
    NulCuts(kind, hidden);
  }

  lemma OtherLineIgnored(p: Parser, line: string, listening: bool)
    requires !("data: " <= line) && !("event: " <= line)
    ensures HandleLine(p, line, listening) == p
  {
  }

  // ----- Byte by byte -----

  datatype Outcome = Running(p: Parser) | Stopped(p: Parser)

  function EndLine(p: Parser, listening: bool): Parser {
    (if p.line != "" then HandleLine(p, p.line, listening) else p).(line := "")
  }

  function Step(p: Parser, c: char, listening: bool): Outcome {
    if c == '\n' then Running(EndLine(p, listening))
    else if c == '\r' then Running(p)
    else if |p.line| < MAX_LINE then Running(p.(line := p.line + [c]))
    else Stopped(p)
  }

  function Feed(p: Parser, data: string, listening: bool): Outcome
    decreases |data|
  {
    if data == "" then Running(p)
    else
      match Step(p, data[0], listening)
      case Running(q) => Feed(q, data[1..], listening)
      case Stopped(q) => Stopped(q)
  }

  function FeedMore(o: Outcome, data: string, listening: bool): Outcome {
    if o.Running? then Feed(o.p, data, listening) else o
  }

  function FeedChunks(p: Parser, chunks: seq<string>, listening: bool): Outcome
    decreases |chunks|
  {
    if chunks == [] then Running(p)
    else
      match Feed(p, chunks[0], listening)
      case Running(q) => FeedChunks(q, chunks[1..], listening)
      case Stopped(q) => Stopped(q)
  }

  function Joined(chunks: seq<string>): string {
    if chunks == [] then "" else chunks[0] + Joined(chunks[1..])
  }

  lemma {:induction false} FeedConcat(p: Parser, a: string, b: string, listening: bool)
    ensures Feed(p, a + b, listening) == FeedMore(Feed(p, a, listening), b, listening)
    decreases |a|
  {
    if a == "" {
      assert a + b == b;
    } else {
      assert (a + b)[1..] == a[1..] + b;
      match Step(p, a[0], listening)
      case Running(q) => FeedConcat(q, a[1..], b, listening);
      case Stopped(_) =>
    }
  }

  /** However the network cuts the stream, the outcome is that of one call on the whole. */
  lemma {:induction false} AnyCutting(p: Parser, chunks: seq<string>, listening: bool)
    ensures FeedChunks(p, chunks, listening) == Feed(p, Joined(chunks), listening)
    decreases |chunks|
  {
    if chunks != [] {
      FeedConcat(p, chunks[0], Joined(chunks[1..]), listening);
      match Feed(p, chunks[0], listening)
      case Running(q) => AnyCutting(q, chunks[1..], listening);
      case Stopped(_) =>
    }
  }

  // ----- Line by line: what the stream means -----

  /** The parts between line feeds; the last one is the unfinished line. */
  function Split(s: string): (parts: seq<string>)
    ensures |parts| > 0
  {
    if s == "" then [""]
    else if s[0] == '\n' then [""] + Split(s[1..])
    else
      var parts := Split(s[1..]);
      parts[0 := [s[0]] + parts[0]]
  }

  function DropCr(s: string): string {
    if s == "" then "" else (if s[0] == '\r' then "" else [s[0]]) + DropCr(s[1..])
  }

  /** The lines of a stream that goes on from an unfinished line. */
  function LinesOf(line: string, s: string): (lines: seq<string>)
    ensures |lines| > 0
  {
    var parts := Split(s);
    seq(|parts|, k requires 0 <= k < |parts| => (if k == 0 then line else "") + DropCr(parts[k]))
  }

  predicate AllFit(lines: seq<string>) {
    forall k :: 0 <= k < |lines| ==> |lines[k]| <= MAX_LINE
  }

  function HandleAll(p: Parser, lines: seq<string>, listening: bool): Parser
    decreases |lines|
  {
    if lines == [] then p
    else HandleAll(if lines[0] == "" then p else HandleLine(p, lines[0], listening), lines[1..], listening)
  }

  /** Every finished line handled in order, and the unfinished one left in the buffer. */
  function Meaning(p: Parser, s: string, listening: bool): Parser {
    var lines := LinesOf(p.line, s);
    HandleAll(p, lines[..|lines| - 1], listening).(line := lines[|lines| - 1])
  }

  lemma NewlineSplits(line: string, s: string)
    ensures LinesOf(line, "\n" + s) == [line] + LinesOf("", s)
  {
    assert ("\n" + s)[1..] == s;
    assert Split("\n" + s) == [""] + Split(s);
    var a, b := LinesOf(line, "\n" + s), [line] + LinesOf("", s);
    forall k | 0 <= k < |a|
      ensures a[k] == b[k]
    {
      assert k > 0 ==> Split("\n" + s)[k] == Split(s)[k - 1];
    }
  }

  lemma CharJoins(line: string, c: char, s: string)
    requires c != '\n'
    ensures LinesOf(line, [c] + s) == LinesOf(if c == '\r' then line else line + [c], s)
  {
    assert ([c] + s)[1..] == s;
    var first := Split(s)[0];
    var a, b := LinesOf(line, [c] + s), LinesOf(if c == '\r' then line else line + [c], s);
    assert ([c] + first)[1..] == first;
    assert a[0] == b[0];
    assert a[1..] == b[1..];
  }

  lemma {:induction false} LineFieldIgnored(p: Parser, line: string, lines: seq<string>, listening: bool)
    ensures HandleAll(p.(line := line), lines, listening) == HandleAll(p, lines, listening).(line := line)
    decreases |lines|
  {
    if lines != [] {
      LineFieldIgnored(if lines[0] == "" then p else HandleLine(p, lines[0], listening), line, lines[1..], listening);
    }
  }

  lemma NewlineMeans(p: Parser, s: string, listening: bool)
    ensures Meaning(p, "\n" + s, listening) == Meaning(EndLine(p, listening), s, listening)
  {
    NewlineSplits(p.line, s);
    var more := LinesOf("", s);
    var all := [p.line] + more;
    assert all[..|all| - 1][1..] == more[..|more| - 1];
    var q := if p.line == "" then p else HandleLine(p, p.line, listening);
    LineFieldIgnored(q, "", more[..|more| - 1], listening);
  }

  lemma FirstLineGrows(line: string, s: string)
    ensures |LinesOf(line, s)[0]| >= |line|
  {
  }

  /** The byte loop gives exactly the line-by-line meaning, and stops short only where some line, carriage returns
      dropped, is longer than a buffer can grow. */
  lemma {:induction false} FeedIsMeaning(p: Parser, s: string, listening: bool)
    requires |p.line| <= MAX_LINE
    ensures Feed(p, s, listening).Running? <==> AllFit(LinesOf(p.line, s))
    ensures AllFit(LinesOf(p.line, s)) ==> Feed(p, s, listening) == Running(Meaning(p, s, listening))
    decreases |s|
  {
    if s == "" {
      var lines := LinesOf(p.line, s);
      assert p.line + "" == p.line;
      assert lines == [p.line];
      assert lines[..0] == [];
    } else if s[0] == '\n' {
      assert s == "\n" + s[1..];
      NewlineSplits(p.line, s[1..]);
      NewlineMeans(p, s[1..], listening);
      FeedIsMeaning(EndLine(p, listening), s[1..], listening);
      FitsCons(p.line, LinesOf("", s[1..]));
    } else {
      assert s == [s[0]] + s[1..];
      CharJoins(p.line, s[0], s[1..]);
      if s[0] == '\r' {
        FeedIsMeaning(p, s[1..], listening);
      } else if |p.line| < MAX_LINE {
        var q := p.(line := p.line + [s[0]]);
        FeedIsMeaning(q, s[1..], listening);
        var lines := LinesOf(q.line, s[1..]);
        LineFieldIgnored(p, q.line, lines[..|lines| - 1], listening);
      } else {
        FirstLineGrows(p.line + [s[0]], s[1..]);
      }
    }
  }

  lemma FitsCons(line: string, lines: seq<string>)
    requires |line| <= MAX_LINE
    ensures AllFit([line] + lines) <==> AllFit(lines)
  {
    var all := [line] + lines;
    if AllFit(all) {
      forall k | 0 <= k < |lines|
        ensures |lines[k]| <= MAX_LINE
      {
        assert lines[k] == all[k + 1];
      }
    }
  }

  // ----- What a server sends comes back -----

  /** What a server sends: an event, a comment to keep the connection alive, or the mark of the end. */
  datatype Message = Message(kind: string, text: string) | Ping(comment: string) | Done

  /** A message as it is written, ended by a blank line; eol is a line feed, with or without a carriage return. */
  function Encode(m: Message, eol: string): string {
    match m
    case Message(kind, text) => ("event: " + kind + eol) + (("data: " + text + eol) + eol)
    case Ping(comment) => (":" + comment + eol) + eol
    case Done => ("data: [DONE]" + eol) + eol
  }

  function EncodeAll(messages: seq<Message>, eol: string): string {
    if messages == [] then "" else Encode(messages[0], eol) + EncodeAll(messages[1..], eol)
  }

  predicate OneLine(s: string) {
    '\n' !in s && '\r' !in s
  }

  predicate Sendable(m: Message) {
    match m
    case Message(kind, text) =>
      && OneLine(kind) && '\0' !in kind && TrimBlanks(kind) == kind && |kind| + 7 <= MAX_LINE
      && OneLine(text) && text != "" && text != "[DONE]" && |text| + 6 <= MAX_LINE
    case Ping(comment) => OneLine(comment) && |comment| < MAX_LINE
    case Done => true
  }

  /** What the consumer is to get. */
  function Delivered(messages: seq<Message>): seq<Event> {
    if messages == [] then []
    else
      (match messages[0]
       case Message(kind, text) => [Payload(Some(kind), text)]
       case Ping(_) => []
       case Done => [Completed])
      + Delivered(messages[1..])
  }

  lemma {:induction false} FeedPlain(p: Parser, s: string, listening: bool)
    requires OneLine(s) && |p.line| + |s| <= MAX_LINE
    ensures Feed(p, s, listening) == Running(p.(line := p.line + s))
    decreases |s|
  {
    if s == "" {
      assert p.line + s == p.line;
    } else {
      var q := p.(line := p.line + [s[0]]);
      assert OneLine(s[1..]);
      FeedPlain(q, s[1..], listening);
      assert q.line + s[1..] == p.line + s;
    }
  }

  predicate EndOfLine(eol: string) {
    eol == "\n" || eol == "\r\n"
  }

  lemma FeedEol(p: Parser, eol: string, listening: bool)
    requires EndOfLine(eol)
    ensures Feed(p, eol, listening) == Running(EndLine(p, listening))
  {
    if eol == "\r\n" {
      assert eol[1..] == "\n";
      assert eol[1..][1..] == "";
    } else {
      assert eol[1..] == "";
    }
  }

  lemma FeedLine(p: Parser, s: string, eol: string, listening: bool)
    requires p.line == "" && OneLine(s) && |s| <= MAX_LINE && EndOfLine(eol)
    ensures Feed(p, s + eol, listening)
            == Running(if s == "" then p else HandleLine(p, s, listening).(line := ""))
  {
    FeedConcat(p, s, eol, listening);
    FeedPlain(p, s, listening);
    assert "" + s == s;
    FeedEol(p.(line := s), eol, listening);
    LineFieldIgnored(p, s, [s], listening);
    assert [s][1..] == [];
  }

  lemma {:induction false} NoNul(s: string)
    requires '\0' !in s
    ensures UpToNul(s) == s
  {
    if s != "" {
      NoNul(s[1..]);
      assert s == [s[0]] + s[1..];
    }
  }

  lemma EventLine(p: Parser, kind: string, eol: string)
    requires p.line == "" && Sendable(Message(kind, "x")) && EndOfLine(eol)
    ensures Feed(p, "event: " + kind + eol, true) == Running(p.(kind := Some(kind), state := ReadingEvent))
  {
    var line := "event: " + kind;
    assert OneLine(line);
    assert line[7..] == kind && line[0] == 'e';
    NoNul(kind);
    FeedLine(p, line, eol, true);
  }

  lemma DataLine(p: Parser, text: string, eol: string)
    requires p.line == "" && Sendable(Message("", text)) && EndOfLine(eol)
    ensures Feed(p, "data: " + text + eol, true)
            == Running(p.(state := ReadingData, events := p.events + [Payload(p.kind, text)]))
  {
    var line := "data: " + text;
    assert OneLine(line);
    assert line[6..] == text;
    FeedLine(p, line, eol, true);
  }

  lemma PingLine(p: Parser, comment: string, eol: string)
    requires p.line == "" && Sendable(Ping(comment)) && EndOfLine(eol)
    ensures Feed(p, ":" + comment + eol, true) == Running(p)
  {
    var line := ":" + comment;
    assert OneLine(line);
    assert line[0] == ':';
    FeedLine(p, line, eol, true);
  }

  lemma DoneLine(p: Parser, eol: string)
    requires p.line == "" && EndOfLine(eol)
    ensures Feed(p, "data: [DONE]" + eol, true) == Running(p.(state := Complete, events := p.events + [Completed]))
  {
    var line := "data: [DONE]";
    assert line[6..] == "[DONE]";
    FeedLine(p, line, eol, true);
  }

  /** A line and the blank line after it. */
  lemma LineThenBlank(p: Parser, line: string, q: Parser, eol: string)
    requires EndOfLine(eol) && q.line == "" && Feed(p, line, true) == Running(q)
    ensures Feed(p, line + eol, true) == Running(q)
  {
    FeedConcat(p, line, eol, true);
    FeedEol(q, eol, true);
  }

  lemma FeedMessage(p: Parser, m: Message, eol: string)
    requires p.line == "" && Sendable(m) && EndOfLine(eol)
    ensures var o := Feed(p, Encode(m, eol), true);
            o.Running? && o.p.line == "" && o.p.events == p.events + Delivered([m])
  {
    assert [m][1..] == [] && Delivered([]) == [];
    match m
    case Message(kind, text) =>
      var first, second := "event: " + kind + eol, "data: " + text + eol;
      var q := p.(kind := Some(kind), state := ReadingEvent);
      var r := q.(state := ReadingData, events := q.events + [Payload(q.kind, text)]);
      EventLine(p, kind, eol);
      DataLine(q, text, eol);
      LineThenBlank(q, second, r, eol);
      FeedConcat(p, first, second + eol, true);
      assert [Payload(Some(kind), text)] + Delivered([]) == [Payload(Some(kind), text)];
    case Ping(comment) =>
      PingLine(p, comment, eol);
      LineThenBlank(p, ":" + comment + eol, p, eol);
      assert p.events + ([] + Delivered([])) == p.events;
    case Done =>
      var q := p.(state := Complete, events := p.events + [Completed]);
      DoneLine(p, eol);
      LineThenBlank(p, "data: [DONE]" + eol, q, eol);
      assert [Completed] + Delivered([]) == [Completed];
  }

  lemma DeliveredConcat(m: Message, rest: seq<Message>)
    ensures Delivered([m] + rest) == Delivered([m]) + Delivered(rest)
  {
    assert ([m] + rest)[1..] == rest && [m][1..] == [];
    assert Delivered([m]) + [] == Delivered([m]);
  }

  /** The outcome of a stream that carried these messages. */
  predicate Arrived(p: Parser, messages: seq<Message>, o: Outcome) {
    o.Running? && o.p.line == "" && o.p.events == p.events + Delivered(messages)
  }

  lemma ArrivedThen(p: Parser, m: Message, q: Parser, rest: seq<Message>, o: Outcome)
    requires Arrived(p, [m], Running(q)) && Arrived(q, rest, o)
    ensures Arrived(p, [m] + rest, o)
  {
    DeliveredConcat(m, rest);
    assert p.events + (Delivered([m]) + Delivered(rest)) == p.events + Delivered([m]) + Delivered(rest);
  }

  lemma {:induction false} MessagesFed(p: Parser, messages: seq<Message>, eol: string)
    requires p.line == "" && EndOfLine(eol)
    requires forall k :: 0 <= k < |messages| ==> Sendable(messages[k])
    ensures Arrived(p, messages, Feed(p, EncodeAll(messages, eol), true))
    decreases |messages|
  {
    if messages == [] {
      assert p.events + Delivered(messages) == p.events;
    } else {
      var m, rest := messages[0], messages[1..];
      FeedMessage(p, m, eol);
      FeedConcat(p, Encode(m, eol), EncodeAll(rest, eol), true);
      var q := Feed(p, Encode(m, eol), true).p;
      MessagesFed(q, rest, eol);
      ArrivedThen(p, m, q, rest, Feed(q, EncodeAll(rest, eol), true));
      assert messages == [m] + rest;
    }
  }

  /** Every message that a server sends, with either line ending and cut anywhere, is delivered once, in order, under
      its own event type; comments are not delivered, and the end mark is what it is wherever it comes. */
  lemma MessagesArrive(p: Parser, messages: seq<Message>, eol: string, chunks: seq<string>)
    requires p.line == "" && EndOfLine(eol)
    requires forall k :: 0 <= k < |messages| ==> Sendable(messages[k])
    requires Joined(chunks) == EncodeAll(messages, eol)
    ensures Arrived(p, messages, FeedChunks(p, chunks, true))
  {
    AnyCutting(p, chunks, true);
    MessagesFed(p, messages, eol);
  }
}
