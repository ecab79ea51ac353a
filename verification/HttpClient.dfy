/** The callbacks and the retry loop of the streaming POST (lib/network/http_client.c), with the SSE parser as consumer
    (lib/agent/streaming_handler.c). curl itself is the script of an attempt. */
module HttpClient {
  import opened Streaming
  import opened StreamingContexts
  import opened RetryGate

  function Prepend(given: seq<string>, s: Shot): Shot {
    s.(given := given + s.given)
  }

  lemma GiveStep(p: Parser, chunks: seq<string>, k: nat, code: Code)
    requires k < |chunks|
    ensures Prepend(chunks[..k], Give(p, chunks[k..], code))
            == match Feed(p, chunks[k], true)
               case Stopped(q) => Shot(chunks[..k + 1], Stopped(q), WriteError)
               case Running(q) => Prepend(chunks[..k + 1], Give(q, chunks[k + 1..], code))
  {
    assert chunks[k..][1..] == chunks[k + 1..];
    assert chunks[..k + 1] == chunks[..k] + [chunks[k]];
    match Feed(p, chunks[k], true)
    case Stopped(_) =>
    case Running(q) =>
      var rest := Give(q, chunks[k + 1..], code);
      assert chunks[..k] + ([chunks[k]] + rest.given) == chunks[..k + 1] + rest.given;
  }

  lemma TaggedStep(attempt: nat, chunks: seq<string>, k: nat)
    requires k < |chunks|
    ensures Tagged(attempt, chunks[..k + 1]) == Tagged(attempt, chunks[..k]) + [Given(attempt, chunks[k])]
  {
  }

  lemma GiveStart(p: Parser, attempt: nat, chunks: seq<string>, code: Code)
    ensures Prepend(chunks[..0], Give(p, chunks[0..], code)) == Give(p, chunks, code)
    ensures Tagged(attempt, chunks[..0]) == []
  {
    assert chunks[0..] == chunks;
    assert [] + Give(p, chunks, code).given == Give(p, chunks, code).given;
  }

  lemma GiveEnd(p: Parser, chunks: seq<string>, code: Code)
    ensures chunks[..|chunks|] == chunks
    ensures Prepend(chunks, Give(p, chunks[|chunks|..], code)) == Shot(chunks, Running(p), code)
  {
    assert chunks[|chunks|..] == [];
    assert chunks + [] == chunks;
  }

  class StreamingGate {
    const ctx: StreamingContext
    var httpStatus: int
    var dataForwarded: bool
    /** Everything given to the stream callback, with the attempt it was given in. */
    var given: seq<Given>
    var attempt: nat

    ghost predicate Valid()
      reads this, ctx, ctx.lineBuffer
    {
      ctx.Valid() && ctx.listening
    }

    constructor (ctx: StreamingContext)
      requires ctx.Valid() && ctx.listening
      ensures Valid() && this.ctx == ctx && given == [] && attempt == 0
    {
      this.ctx, httpStatus, dataForwarded, given, attempt := ctx, 0, false, [], 0;
    }

    method OnHeader(buffer: string)
      modifies this`httpStatus
      ensures httpStatus == StatusAfterLine(old(httpStatus), buffer)
    {
      if |buffer| >= 10 && buffer[..5] == "HTTP/" {
        var k := 5;
        while k < |buffer| && buffer[k] != ' '
          invariant 5 <= k <= |buffer|
          invariant AfterSpace(buffer[5..]) == AfterSpace(buffer[k..])
        {
          assert buffer[k..][1..] == buffer[k + 1..];
          k := k + 1;
        }
        if k < |buffer| {
          assert buffer[k..][1..] == buffer[k + 1..];
          httpStatus := Atol(buffer[k + 1..]);
        }
      }
    }

    /** Forwards on a good status only. A result short of the chunk's length makes curl end the transfer. */
    method OnBody(chunk: string) returns (taken: nat)
      requires Valid()
      modifies this`dataForwarded, this`given, ctx, ctx.lineBuffer
      ensures Valid() && (ctx.lineBuffer == old(ctx.lineBuffer) || fresh(ctx.lineBuffer))
      ensures !Success(httpStatus) ==>
                taken == |chunk| && dataForwarded == old(dataForwarded) && given == old(given)
                && ctx.Parsed() == old(ctx.Parsed())
      ensures Success(httpStatus) ==>
                var o := Feed(old(ctx.Parsed()), chunk, true);
                && dataForwarded && given == old(given) + [Given(attempt, chunk)]
                && ctx.Parsed() == o.p
                && (taken == |chunk| <==> o.Running?)
    {
      if 200 <= httpStatus < 400 {
        dataForwarded := true;
        given := given + [Given(attempt, chunk)];
        if |chunk| == 0 {
          return 0;
        }
        var rc := ctx.ProcessChunk(chunk);
        return if rc != 0 then 0 else |chunk|;
      }
      return |chunk|;
    }

    method ReadHeaders(headers: seq<string>)
      requires httpStatus == 0
      modifies this`httpStatus
      ensures httpStatus == StatusAfter(0, headers)
    {
      for k := 0 to |headers|
        invariant StatusAfter(httpStatus, headers[k..]) == StatusAfter(0, headers)
      {
        assert headers[k..][1..] == headers[k + 1..];
        OnHeader(headers[k]);
      }
      assert headers[|headers|..] == [];
    }

    /** One chunk of a body. */
    method ReadChunk(chunks: seq<string>, k: nat, ghost code: Code, ghost s: Shot) returns (all: bool)
      requires Valid() && Success(httpStatus) && k < |chunks|
      requires s == Prepend(chunks[..k], Give(ctx.Parsed(), chunks[k..], code))
      modifies this`dataForwarded, this`given, ctx, ctx.lineBuffer
      ensures Valid() && (ctx.lineBuffer == old(ctx.lineBuffer) || fresh(ctx.lineBuffer))
      ensures dataForwarded && given == old(given) + [Given(attempt, chunks[k])]
      ensures if all then s == Prepend(chunks[..k + 1], Give(ctx.Parsed(), chunks[k + 1..], code))
              else s.given == chunks[..k + 1] && s.code == WriteError && s.o.p == ctx.Parsed()
    {
      GiveStep(ctx.Parsed(), chunks, k, code);
      var taken := OnBody(chunks[k]);
      all := taken == |chunks[k]|;
    }

    /** The chunks of a body until one is refused, on a good status. */
    method ReadBody(chunks: seq<string>, code: Code) returns (r: Code)
      requires Valid() && Success(httpStatus) && !dataForwarded
      modifies this`dataForwarded, this`given, ctx, ctx.lineBuffer
      ensures Valid() && (ctx.lineBuffer == old(ctx.lineBuffer) || fresh(ctx.lineBuffer))
      ensures var s := Give(old(ctx.Parsed()), chunks, code);
              && r == s.code && ctx.Parsed() == s.o.p
              && given == old(given) + Tagged(attempt, s.given)
              && (dataForwarded <==> s.given != [])
    {
      ghost var s := Give(ctx.Parsed(), chunks, code);
      GiveStart(ctx.Parsed(), attempt, chunks, code);
      for k := 0 to |chunks|
        invariant Valid() && (ctx.lineBuffer == old(ctx.lineBuffer) || fresh(ctx.lineBuffer))
        invariant given == old(given) + Tagged(attempt, chunks[..k]) && (dataForwarded <==> k > 0)
        invariant s == Prepend(chunks[..k], Give(ctx.Parsed(), chunks[k..], code))
      {
        var all := ReadChunk(chunks, k, code, s);
        TaggedStep(attempt, chunks, k);
        if !all {
          return WriteError;
        }
      }
      GiveEnd(ctx.Parsed(), chunks, code);
      return code;
    }

    method SkipBody(chunks: seq<string>)
      requires Valid() && !Success(httpStatus)
      modifies this`dataForwarded, this`given, ctx, ctx.lineBuffer
      ensures Valid() && (ctx.lineBuffer == old(ctx.lineBuffer) || fresh(ctx.lineBuffer))
      ensures dataForwarded == old(dataForwarded) && given == old(given) && ctx.Parsed() == old(ctx.Parsed())
    {
      for k := 0 to |chunks|
        invariant Valid() && (ctx.lineBuffer == old(ctx.lineBuffer) || fresh(ctx.lineBuffer))
        invariant dataForwarded == old(dataForwarded) && given == old(given) && ctx.Parsed() == old(ctx.Parsed())
      {
        var taken := OnBody(chunks[k]);
        assert taken == |chunks[k]|;
      }
    }

    /** One transfer as curl runs it: every header line, then the chunks until one is refused. */
    method Transfer(a: Attempt) returns (code: Code)
      requires Valid() && httpStatus == 0 && !dataForwarded
      modifies this`httpStatus, this`dataForwarded, this`given, ctx, ctx.lineBuffer
      ensures Valid() && (ctx.lineBuffer == old(ctx.lineBuffer) || fresh(ctx.lineBuffer))
      ensures var s := Perform(old(ctx.Parsed()), a);
              && code == s.code && ctx.Parsed() == s.o.p
              && given == old(given) + Tagged(attempt, s.given)
              && (dataForwarded <==> s.given != [])
    {
      ReadHeaders(a.headers);
      if Success(httpStatus) {
        code := ReadBody(a.chunks, a.code);
      } else {
        SkipBody(a.chunks);
        assert given == old(given) + Tagged(attempt, []);
        code := a.code;
      }
    }

    /** One turn of the retry loop, and whether it is the last. */
    method Try(a: Attempt, maxRetries: int) returns (stop: bool, rc: int)
      requires Valid() && given == [] && attempt <= maxRetries
      modifies this`httpStatus, this`dataForwarded, this`given, ctx, ctx.lineBuffer
      ensures Valid() && (ctx.lineBuffer == old(ctx.lineBuffer) || fresh(ctx.lineBuffer))
      ensures var s := Perform(old(ctx.Parsed()), a);
              && stop == !(Again(s, a) && attempt < maxRetries) && (stop ==> rc == Verdict(s, a))
              && given == Tagged(attempt, s.given) && ctx.Parsed() == s.o.p
    {
      httpStatus, dataForwarded := 0, false;
      var code := Transfer(a);
      ghost var s := Perform(old(ctx.Parsed()), a);
      assert given == Tagged(attempt, s.given);
      var status := if code.Fine? then a.status else 0;
      if code.Fine? && 200 <= status < 400 {
        return true, 0;
      }
      if code.Aborted? {
        return true, -2;
      }
      if dataForwarded {
        return true, -1;
      }
      if !Retryable(status, code) || attempt == maxRetries {
        return true, -1;
      }
      return false, 0;
    }

    /** The whole call: what it returns, what it gave to the consumer, and what the parser then holds. */
    method Post(server: nat -> Attempt, maxRetries: int) returns (rc: int)
      requires Valid() && given == []
      modifies this, ctx, ctx.lineBuffer
      ensures Valid()
      ensures var f := RetryGate.Post(old(ctx.Parsed()), server, maxRetries);
              rc == f.rc && given == f.given && ctx.Parsed() == f.o.p
    {
      ghost var whole := RetryGate.Post(ctx.Parsed(), server, maxRetries);
      attempt := 0;
      while attempt <= maxRetries
        invariant Valid() && (ctx.lineBuffer == old(ctx.lineBuffer) || fresh(ctx.lineBuffer))
        invariant given == [] && whole == PostFrom(ctx.Parsed(), server, attempt, maxRetries)
        decreases maxRetries - attempt
      {
        ghost var p := ctx.Parsed();
        var stop;
        stop, rc := Try(server(attempt), maxRetries);
        if stop {
          return;
        }
        NothingGivenNothingChanged(p, server(attempt));
        attempt := attempt + 1;
      }
      return 0;
    }
  }
}
