/** The parser's growable line buffer and byte loop (lib/network/streaming.c), against the stream's meaning. */
module StreamingContexts {
  import opened Wrappers
  import opened Streaming

  const INITIAL_CAPACITY: nat := 1024

  /** A capacity is the initial one doubled some number of times. */
  function Doubled(n: nat): (c: nat)
    ensures c >= INITIAL_CAPACITY
  {
    if n == 0 then INITIAL_CAPACITY else 2 * Doubled(n - 1)
  }

  lemma {:induction false} DoubledGrows(a: nat, b: nat)
    requires a <= b
    ensures Doubled(a) <= Doubled(b)
    decreases b
  {
    if a < b {
      DoubledGrows(a, b - 1);
    }
  }

  lemma TenDoublings(n: nat)
    ensures Doubled(n + 10) == 1024 * Doubled(n)
  {
    assert Doubled(n + 10) == 4 * Doubled(n + 8);
    assert Doubled(n + 8) == 4 * Doubled(n + 6);
    assert Doubled(n + 6) == 4 * Doubled(n + 4);
    assert Doubled(n + 4) == 4 * Doubled(n + 2);
  }

  lemma LargestCapacity()
    ensures Doubled(53) == MAX_CAPACITY
  {
    assert Doubled(3) == 8 * INITIAL_CAPACITY;
    TenDoublings(3);
    TenDoublings(13);
    TenDoublings(23);
    TenDoublings(33);
    TenDoublings(43);
  }

  ghost predicate IsCapacity(c: nat) {
    c <= MAX_CAPACITY && exists n: nat :: c == Doubled(n)
  }

  /** A capacity that may be doubled without passing SIZE_MAX stays a capacity, however close it is to the limit. */
  lemma DoublingStays(c: nat)
    requires IsCapacity(c) && c <= SIZE_MAX / 2
    ensures IsCapacity(2 * c)
  {
    var n: nat :| c == Doubled(n);
    LargestCapacity();
    if n >= 53 {
      DoubledGrows(53, n);
    } else {
      DoubledGrows(n + 1, 53);
    }
    assert 2 * c == Doubled(n + 1);
  }

  class StreamingContext {
    var lineBuffer: array<char>
    var lineBufferLen: nat
    var lineBufferCapacity: nat
    var currentEventType: Option<string>
    var state: State
    var events: seq<Event>
    const listening: bool

    ghost predicate Valid()
      reads this, lineBuffer
    {
      && lineBufferCapacity == lineBuffer.Length && IsCapacity(lineBufferCapacity)
      && lineBufferLen + 1 <= lineBufferCapacity
      && lineBuffer[lineBufferLen] == '\0'
    }

    ghost function Parsed(): Parser
      requires lineBufferLen <= lineBuffer.Length
      reads this, lineBuffer
    {
      Parser(lineBuffer[..lineBufferLen], currentEventType, state, events)
    }

    constructor (listening: bool)
      ensures Valid() && fresh(lineBuffer) && Parsed() == START && this.listening == listening
    {
      this.listening := listening;
      lineBuffer := new char[INITIAL_CAPACITY](_ => '\0');
      lineBufferLen, lineBufferCapacity := 0, INITIAL_CAPACITY;
      currentEventType, state, events := None, Idle, [];
      new;
      assert INITIAL_CAPACITY == Doubled(0);
      assert lineBuffer[..0] == [];
    }

    /** Room for additional bytes and the terminator, by doubling; it fails exactly when no capacity is large enough,
        and then changes nothing. */
    method EnsureCapacity(additional: nat) returns (rc: int)
      requires Valid() && additional <= SIZE_MAX
      modifies this`lineBuffer, this`lineBufferCapacity
      ensures Valid() && Parsed() == old(Parsed())
      ensures lineBuffer == old(lineBuffer) || fresh(lineBuffer)
      ensures lineBuffer[..lineBufferLen + 1] == old(lineBuffer[..lineBufferLen + 1])
      ensures rc == 0 || rc == -1
      ensures rc == 0 <==> lineBufferLen + additional + 1 <= MAX_CAPACITY
      ensures rc == 0 ==> lineBufferLen + additional + 1 <= lineBufferCapacity
      ensures rc != 0 ==> lineBuffer == old(lineBuffer)
    {
      if additional > SIZE_MAX - lineBufferLen - 1 {
        return -1;
      }
      var needed := lineBufferLen + additional + 1;
      if needed <= lineBufferCapacity {
        return 0;
      }
      var oldBuffer := lineBuffer;
      assert oldBuffer.Length == lineBufferCapacity;
      var newCapacity := lineBufferCapacity;
      while newCapacity < needed
        invariant newCapacity >= lineBufferCapacity && IsCapacity(newCapacity)
        decreases needed - newCapacity
        modifies {}
      {
        if newCapacity > SIZE_MAX / 2 {
          return -1;
        }
        DoublingStays(newCapacity);
        newCapacity := 2 * newCapacity;
      }
      var newBuffer := new char[newCapacity](_ => '\0');
      forall k | 0 <= k < oldBuffer.Length {
        newBuffer[k] := oldBuffer[k];
      }
      assert newBuffer[..lineBufferLen + 1] == oldBuffer[..lineBufferLen + 1];
      assert newBuffer[..lineBufferLen] == oldBuffer[..lineBufferLen];
      lineBuffer, lineBufferCapacity := newBuffer, newCapacity;
      return 0;
    }

    method AppendChar(c: char) returns (rc: int)
      requires Valid()
      modifies this`lineBuffer, this`lineBufferCapacity, this`lineBufferLen, lineBuffer
      ensures Valid() && (lineBuffer == old(lineBuffer) || fresh(lineBuffer))
      ensures rc == 0 || rc == -1
      ensures rc == 0 <==> |old(Parsed()).line| < MAX_LINE
      ensures Parsed() == if rc == 0 then old(Parsed()).(line := old(Parsed()).line + [c]) else old(Parsed())
    {
      rc := EnsureCapacity(1);
      if rc != 0 {
        return -1;
      }
      lineBuffer[lineBufferLen] := c;
      lineBufferLen := lineBufferLen + 1;
      lineBuffer[lineBufferLen] := '\0';
      assert lineBuffer[..lineBufferLen] == old(lineBuffer[..lineBufferLen]) + [c];
    }

    /** streaming_process_sse_line on the first len bytes of a buffer. */
    method ProcessSseLine(line: array<char>, len: nat)
      requires len <= line.Length
      modifies this`currentEventType, this`state, this`events
      ensures var p := HandleLine(Parser("", old(currentEventType), old(state), old(events)), line[..len], listening);
              len > 0 ==> currentEventType == p.kind && state == p.state && events == p.events
      ensures len == 0 ==> currentEventType == old(currentEventType) && state == old(state) && events == old(events)
    {
      if len == 0 {
        return;
      }
      if len >= 6 && line[..6] == "data: " {
        assert "data: " <= line[..len] && line[6..len] == line[..len][6..];
        var payloadLen := len - 6;
        if payloadLen == 6 && line[6..12] == "[DONE]" {
          state, events := Complete, events + [Completed];
          return;
        }
        state := ReadingData;
        if listening && payloadLen > 0 {
          events := events + [Payload(currentEventType, line[6..len])];
        }
        return;
      }
      assert !("data: " <= line[..len]) by {
        assert len >= 6 ==> line[..len][..6] == line[..6];
      }
      if len >= 7 && line[..7] == "event: " {
        assert "event: " <= line[..len] && line[7..len] == line[..len][7..];
        state := ReadingEvent;
        var eventLen := len - 7;
        while eventLen > 0 && (line[7 + eventLen - 1] == ' ' || line[7 + eventLen - 1] == '\t')
          invariant 7 + eventLen <= len
          invariant TrimBlanks(line[7..7 + eventLen]) == TrimBlanks(line[7..len])
        {
          assert line[7..7 + eventLen][..eventLen - 1] == line[7..7 + (eventLen - 1)];
          eventLen := eventLen - 1;
        }
        currentEventType := Some(UpToNul(line[7..7 + eventLen]));
        return;
      }
      assert !("event: " <= line[..len]) by {
        assert len >= 7 ==> line[..len][..7] == line[..7];
      }
    }

    /** The byte loop: the outcome and the whole state it leaves are those of feeding the bytes one by one, with the
        terminator and the spare byte kept across every growth. */
    method ProcessChunk(data: seq<char>) returns (rc: int)
      requires Valid()
      modifies this, lineBuffer
      ensures Valid() && (lineBuffer == old(lineBuffer) || fresh(lineBuffer))
      ensures rc == 0 || rc == -1
      ensures var o := Feed(old(Parsed()), data, listening); (rc == 0 <==> o.Running?) && Parsed() == o.p
    {
      ghost var whole := Feed(Parsed(), data, listening);
      for i := 0 to |data|
        invariant Valid() && (lineBuffer == old(lineBuffer) || fresh(lineBuffer))
        invariant whole == Feed(Parsed(), data[i..], listening)
      {
        ghost var p := Parsed();
        var c := data[i];
        assert data[i..][0] == c && data[i..][1..] == data[i + 1..];
        if c == '\n' {
          if lineBufferLen > 0 {
            ProcessSseLine(lineBuffer, lineBufferLen);
          }
          lineBufferLen := 0;
          lineBuffer[0] := '\0';
          HandledAlone(p, listening);
          assert Parsed() == EndLine(p, listening);
        } else if c != '\r' {
          rc := AppendChar(c);
          if rc != 0 {
            return -1;
          }
        }
      }
      return 0;
    }
  }

  /** Handling a line reads nothing of the line buffer but the line. */
  lemma HandledAlone(p: Parser, listening: bool)
    ensures HandleLine(p, p.line, listening).(line := "") == HandleLine(p.(line := ""), p.line, listening)
  {
  }
}
