/** Streaming POST with retries (lib/network/http_client.c, lib/network/api_error.c): the gate that keeps two responses
    from being spliced together in the parser. */
module RetryGate {
  import opened Wrappers
  import opened Streaming

  /** What curl reports about a transfer. */
  datatype Code = Fine | Aborted | WriteError | CouldntConnect | TimedOut | GotNothing | RecvError | SendError | Other

  /** What the server and the network do in one attempt: the header lines, the chunks of the body that arrive, the part
      of the body that never does, curl's verdict, and the status that curl reports. */
  datatype Attempt = Attempt(headers: seq<string>, chunks: seq<string>, lost: string, code: Code, status: int)

  function Body(a: Attempt): string {
    Joined(a.chunks) + a.lost
  }

  // ----- The status line -----

  predicate IsDigit(c: char) {
    '0' <= c <= '9'
  }

  function Digits(s: string, acc: int): int
    decreases |s|
  {
    if s != "" && IsDigit(s[0]) then Digits(s[1..], 10 * acc + (s[0] as int - '0' as int)) else acc
  }

  /** atol: white space, a sign, digits. */
  function Atol(s: string): int {
    if s == "" then 0
    else if s[0] == ' ' || '\t' <= s[0] <= '\r' then Atol(s[1..])
    else if s[0] == '-' then -Digits(s[1..], 0)
    else if s[0] == '+' then Digits(s[1..], 0)
    else Digits(s, 0)
  }

  function AfterSpace(s: string): Option<string> {
    if s == "" then None
    else if s[0] == ' ' then Some(s[1..])
    else AfterSpace(s[1..])
  }

  function StatusAfterLine(status: int, line: string): int {
    if |line| >= 10 && "HTTP/" <= line && AfterSpace(line[5..]).Some? then Atol(AfterSpace(line[5..]).value) else status
  }

  /** The status the gate holds after some header lines; of several responses (redirects, 100-continue) the last. */
  function StatusAfter(status: int, headers: seq<string>): int
    decreases |headers|
  {
    if headers == [] then status else StatusAfter(StatusAfterLine(status, headers[0]), headers[1..])
  }

  function Digit(n: nat): (c: char)
    requires n < 10
    ensures IsDigit(c) && c as int - '0' as int == n
  {
    (n + '0' as int) as char
  }

  /** A status line as section 4 of RFC 9112 writes it. */
  function StatusLine(version: string, code: nat, reason: string): string
    requires code < 1000
  {
    "HTTP/" + version + " " + [Digit(code / 100), Digit(code / 10 % 10), Digit(code % 10)] + " " + reason + "\r\n"
  }

  lemma {:induction false} AfterSpaceSkips(a: string, b: string)
    requires ' ' !in a
    ensures AfterSpace(a + " " + b) == Some(b)
  {
    if a == "" {
      assert "" + " " + b == " " + b && (" " + b)[1..] == b;
    } else {
      assert (a + " " + b)[0] == a[0];
      assert (a + " " + b)[1..] == a[1..] + " " + b;
      AfterSpaceSkips(a[1..], b);
    }
  }

  lemma StatusLineIsRead(status: int, version: string, code: nat, reason: string)
    requires code < 1000 && version != "" && ' ' !in version
    ensures StatusAfterLine(status, StatusLine(version, code, reason)) == code
  {
    var rest := " " + reason + "\r\n";
    var number := [Digit(code / 100), Digit(code / 10 % 10), Digit(code % 10)];
    var line := StatusLine(version, code, reason);
    assert line == "HTTP/" + (version + " " + (number + rest));
    assert line[5..] == version + " " + (number + rest);
    AfterSpaceSkips(version, number + rest);
    assert (number + rest)[1..] == number[1..] + rest;
    assert (number[1..] + rest)[1..] == number[2..] + rest;
    assert (number[2..] + rest)[1..] == rest;
    assert Digits(number + rest, 0) == code by {
      assert Digits(rest, code) == code;
      assert Digits(number[2..] + rest, code / 10) == code;
    }
  }

  lemma OtherHeaderKeepsStatus(status: int, line: string)
    requires !("HTTP/" <= line)
    ensures StatusAfterLine(status, line) == status
  {
  }

  // ----- One attempt -----

  predicate Success(status: int) {
    200 <= status < 400
  }

  predicate Retryable(status: int, code: Code) {
    code.CouldntConnect? || code.TimedOut? || code.GotNothing? || code.RecvError? || code.SendError?
    || status == 429 || status == 500 || status == 502 || status == 503 || status == 504
  }

  /** The chunks given to the consumer, the parser they leave, and curl's code; a consumer that refuses ends the
      transfer. */
  datatype Shot = Shot(given: seq<string>, o: Outcome, code: Code)

  function Give(p: Parser, chunks: seq<string>, code: Code): Shot
    decreases |chunks|
  {
    if chunks == [] then Shot([], Running(p), code)
    else
      match Feed(p, chunks[0], true)
      case Stopped(q) => Shot([chunks[0]], Stopped(q), WriteError)
      case Running(q) =>
        var rest := Give(q, chunks[1..], code);
        rest.(given := [chunks[0]] + rest.given)
  }

  function Perform(p: Parser, a: Attempt): Shot {
    if Success(StatusAfter(0, a.headers)) then Give(p, a.chunks, a.code) else Shot([], Running(p), a.code)
  }

  function Reported(s: Shot, a: Attempt): int {
    if s.code.Fine? then a.status else 0
  }

  /** Another attempt follows if there are any left: nothing was forwarded, and the failure is one that may pass. */
  predicate Again(s: Shot, a: Attempt) {
    && !(s.code.Fine? && Success(a.status))
    && !s.code.Aborted?
    && s.given == []
    && Retryable(Reported(s, a), s.code)
  }

  function Verdict(s: Shot, a: Attempt): int {
    if s.code.Fine? && Success(a.status) then 0 else if s.code.Aborted? then -2 else -1
  }

  // ----- All attempts -----

  datatype Given = Given(attempt: nat, chunk: string)

  function Tagged(attempt: nat, chunks: seq<string>): seq<Given> {
    seq(|chunks|, k requires 0 <= k < |chunks| => Given(attempt, chunks[k]))
  }

  /** rc, the number of attempts made, everything given to the consumer, and the parser. */
  datatype Final = Final(rc: int, made: nat, given: seq<Given>, o: Outcome)

  function PostFrom(p: Parser, server: nat -> Attempt, attempt: nat, maxRetries: int): Final
    decreases maxRetries - attempt
  {
    if attempt > maxRetries then Final(0, attempt, [], Running(p))
    else
      var a := server(attempt);
      var s := Perform(p, a);
      if Again(s, a) && attempt < maxRetries then PostFrom(s.o.p, server, attempt + 1, maxRetries)
      else Final(Verdict(s, a), attempt + 1, Tagged(attempt, s.given), s.o)
  }

  function Post(p: Parser, server: nat -> Attempt, maxRetries: int): Final {
    PostFrom(p, server, 0, maxRetries)
  }

  // ----- What reaches the parser -----

  lemma {:induction false} GivenIsFed(p: Parser, chunks: seq<string>, code: Code)
    ensures var s := Give(p, chunks, code);
            && s.given <= chunks && s.o == FeedChunks(p, s.given, true)
            && (s.o.Running? ==> s.given == chunks && s.code == code)
            && (s.o.Stopped? ==> s.code == WriteError)
    decreases |chunks|
  {
    if chunks != [] {
      match Feed(p, chunks[0], true)
      case Stopped(q) =>
        assert [chunks[0]][1..] == [];
      case Running(q) =>
        GivenIsFed(q, chunks[1..], code);
        var rest := Give(q, chunks[1..], code);
        assert ([chunks[0]] + rest.given)[1..] == rest.given;
        assert chunks == [chunks[0]] + chunks[1..];
    }
  }

  lemma {:induction false} NothingGivenNothingChanged(p: Parser, a: Attempt)
    requires Perform(p, a).given == []
    ensures Perform(p, a).o == Running(p)
  {
    if Success(StatusAfter(0, a.headers)) {
      GivenIsFed(p, a.chunks, a.code);
    }
  }

  /** The last attempt made from a given one on, and what all attempts together did: exactly what it did alone, from the
      parser as it was before any of them. */
  lemma {:induction false} LastAttemptAlone(p: Parser, server: nat -> Attempt, attempt: nat, maxRetries: int)
    requires attempt <= maxRetries
    ensures var f := PostFrom(p, server, attempt, maxRetries);
            && attempt < f.made <= maxRetries + 1
            && var last := f.made - 1;
               var s := Perform(p, server(last));
               && f.given == Tagged(last, s.given) && f.o == s.o && f.rc == Verdict(s, server(last))
               && (Again(s, server(last)) ==> last == maxRetries)
               && (forall k :: attempt <= k < last ==> Again(Perform(p, server(k)), server(k)))
    decreases maxRetries - attempt
  {
    var a := server(attempt);
    var s := Perform(p, a);
    if Again(s, a) && attempt < maxRetries {
      NothingGivenNothingChanged(p, a);
      LastAttemptAlone(p, server, attempt + 1, maxRetries);
    }
  }

  function ChunksOf(given: seq<Given>): seq<string> {
    seq(|given|, k requires 0 <= k < |given| => given[k].chunk)
  }

  lemma ChunksOfTagged(attempt: nat, chunks: seq<string>)
    ensures ChunksOf(Tagged(attempt, chunks)) == chunks
    ensures forall k :: 0 <= k < |Tagged(attempt, chunks)| ==> Tagged(attempt, chunks)[k].attempt == attempt
  {
  }

  lemma {:induction false} JoinedPrefix(a: seq<string>, b: seq<string>)
    requires a <= b
    ensures Joined(a) <= Joined(b)
  {
    if a != [] {
      JoinedPrefix(a[1..], b[1..]);
      assert b[0] == a[0];
    }
  }

  /** curl's word on a finished transfer: the whole body arrived, and the status is that of the last status line. */
  predicate Honest(a: Attempt) {
    a.code.Fine? ==> a.lost == "" && a.status == StatusAfter(0, a.headers)
  }

  lemma GivenIsBeginning(p: Parser, a: Attempt)
    ensures var s := Perform(p, a); Joined(s.given) <= Body(a) && s.o == FeedChunks(p, s.given, true)
  {
    GivenIsFed(p, a.chunks, a.code);
    JoinedPrefix(Perform(p, a).given, a.chunks);
  }

  lemma LastAttempt(p: Parser, server: nat -> Attempt, maxRetries: int) returns (last: nat, s: Shot)
    requires maxRetries >= 0
    ensures var f := Post(p, server, maxRetries);
            && f.made == last + 1 <= maxRetries + 1 && s == Perform(p, server(last))
            && f.given == Tagged(last, s.given) && f.o == s.o && f.rc == Verdict(s, server(last))
  {
    LastAttemptAlone(p, server, 0, maxRetries);
    last := Post(p, server, maxRetries).made - 1;
    s := Perform(p, server(last));
  }

  /** Whatever the server does, everything that reaches the consumer comes from the last attempt and is the beginning of
      its body. */
  lemma NeverSpliced(p: Parser, server: nat -> Attempt, maxRetries: int)
    ensures var f := Post(p, server, maxRetries);
            && f.made <= (if maxRetries < 0 then 0 else maxRetries + 1)
            && (forall k :: 0 <= k < |f.given| ==> f.made > 0 && f.given[k].attempt == f.made - 1)
            && (f.made > 0 ==> Joined(ChunksOf(f.given)) <= Body(server(f.made - 1)))
            && f.o == FeedChunks(p, ChunksOf(f.given), true)
  {
    if maxRetries >= 0 {
      var last, s := LastAttempt(p, server, maxRetries);
      ChunksOfTagged(last, s.given);
      GivenIsBeginning(p, server(last));
    }
  }

  /** When the call returns 0, the whole body of the last response, and nothing else, has reached the parser, which
      holds exactly what that body means. */
  lemma WholeBodyOnSuccess(p: Parser, server: nat -> Attempt, maxRetries: int)
    requires maxRetries >= 0 && |p.line| <= MAX_LINE
    requires forall k: nat :: Honest(server(k))
    requires Post(p, server, maxRetries).rc == 0
    ensures var f := Post(p, server, maxRetries);
            && f.made > 0
            && var body := Body(server(f.made - 1));
               Joined(ChunksOf(f.given)) == body && f.o == Running(Meaning(p, body, true))
  {
    var last, s := LastAttempt(p, server, maxRetries);
    var a := server(last);
    ChunksOfTagged(last, s.given);
    GivenIsFed(p, a.chunks, a.code);
    assert Joined(a.chunks) + "" == Joined(a.chunks);
    AnyCutting(p, a.chunks, true);
    FeedIsMeaning(p, Body(a), true);
  }

  /** 0 means the last attempt succeeded, with one exception: a negative retry setting makes no request at all and is
      reported as a success. -2 means that the user interrupted the last attempt, and -1 anything else. */
  lemma ResultMeans(p: Parser, server: nat -> Attempt, maxRetries: int)
    ensures var f := Post(p, server, maxRetries);
            && (f.rc == 0 <==> maxRetries < 0 || (f.made > 0 && server(f.made - 1).code.Fine?
                                                  && 200 <= server(f.made - 1).status < 400
                                                  && f.o.Running?))
            && (f.rc == -2 <==> f.made > 0 && server(f.made - 1).code.Aborted? && f.o.Running?)
            && f.rc in {0, -1, -2}
            && (maxRetries < 0 <==> f.made == 0)
  {
    if maxRetries >= 0 {
      LastAttemptAlone(p, server, 0, maxRetries);
      var a := server(Post(p, server, maxRetries).made - 1);
      GivenIsFed(p, a.chunks, a.code);
    }
  }

  /** An attempt that failed in a way that may pass, before a byte of it reached the consumer: the connection failed,
      timed out or broke, or the server asked to come back or had trouble of its own. */
  predicate MayPass(a: Attempt) {
    && (!(200 <= StatusAfter(0, a.headers) < 400) || a.chunks == [])
    && (a.code in {CouldntConnect, TimedOut, GotNothing, RecvError, SendError}
        || (a.code == Fine && a.status in {429, 500, 502, 503, 504}))
  }

  lemma AgainMeans(p: Parser, a: Attempt)
    ensures Again(Perform(p, a), a) <==> MayPass(a)
  {
    if 200 <= StatusAfter(0, a.headers) < 400 {
      GivenIsFed(p, a.chunks, a.code);
      if a.chunks != [] {
        assert Perform(p, a).given != [];
      }
    }
  }

  /** An attempt is followed by another exactly when it failed in a way that may pass, no byte of it reached the
      consumer, and the budget is not spent. */
  lemma RetriedIff(p: Parser, server: nat -> Attempt, maxRetries: int, k: nat)
    requires k < Post(p, server, maxRetries).made
    ensures k + 1 < Post(p, server, maxRetries).made <==> k < maxRetries && MayPass(server(k))
  {
    if maxRetries >= 0 {
      LastAttemptAlone(p, server, 0, maxRetries);
      AgainMeans(p, server(k));
    }
  }

  lemma {:induction false} FailuresPassed(p: Parser, server: nat -> Attempt, maxRetries: int, n: nat)
    requires n <= maxRetries && forall k: nat :: k < n ==> MayPass(server(k))
    ensures Post(p, server, maxRetries) == PostFrom(p, server, n, maxRetries)
  {
    if n > 0 {
      FailuresPassed(p, server, maxRetries, n - 1);
      AgainMeans(p, server(n - 1));
      NothingGivenNothingChanged(p, server(n - 1));
    }
  }

  /** Failures that may pass, as many as the setting allows, followed by a good answer whose lines fit: the call returns
      0 after that many attempts more than one, and the parser holds what that body means, as if nothing had failed. */
  lemma GoodAnswerAfterFailures(p: Parser, server: nat -> Attempt, maxRetries: int, n: nat)
    requires |p.line| <= MAX_LINE && n <= maxRetries && forall k: nat :: k < n ==> MayPass(server(k))
    requires server(n).code == Fine && 200 <= server(n).status < 400 && Honest(server(n))
    requires AllFit(LinesOf(p.line, Body(server(n))))
    ensures var f := Post(p, server, maxRetries);
            f.rc == 0 && f.made == n + 1 && f.o == Running(Meaning(p, Body(server(n)), true))
  {
    FailuresPassed(p, server, maxRetries, n);
    var a := server(n);
    GivenIsFed(p, a.chunks, a.code);
    assert Joined(a.chunks) + "" == Joined(a.chunks);
    AnyCutting(p, a.chunks, true);
    FeedIsMeaning(p, Body(a), true);
    RefusedFeedStops(p, a.chunks, a.code);
  }

  /** If all the chunks can be fed, all are given. */
  lemma {:induction false} RefusedFeedStops(p: Parser, chunks: seq<string>, code: Code)
    ensures FeedChunks(p, chunks, true).Running? ==> Give(p, chunks, code).o == FeedChunks(p, chunks, true)
    decreases |chunks|
  {
    if chunks != [] {
      match Feed(p, chunks[0], true)
      case Stopped(q) =>
      case Running(q) => RefusedFeedStops(q, chunks[1..], code);
    }
  }
}
