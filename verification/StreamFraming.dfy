/** Records out of a chunked byte stream: `_iter_bounded_lines`. Text decoding is left out. */
module StreamFraming {

  newtype byte = x: int | 0 <= x < 256

  const LF: byte := 10
  const CR: byte := 13
  const MAX_STREAM_LINE_BYTES: nat := 4 * 1024 * 1024
  const READ_CHUNK_BYTES: nat := 64 * 1024

  /** The lines that were yielded, and whether HarnessStreamOverflowError followed them. */
  datatype Framed = Framed(lines: seq<seq<byte>>, overflow: bool)

  /** `bytes.find(b"\n")`, with the length standing for "not found". */
  function FirstNewline(b: seq<byte>): (n: nat)
    ensures n <= |b| && LF !in b[..n] && (n < |b| ==> b[n] == LF)
  {
    if b == [] || b[0] == LF then 0
    else
      var m := FirstNewline(b[1..]);
      assert b[..1 + m] == [b[0]] + b[1..][..m];
      1 + m
  }

  /** `rstrip("\r")`. */
  function StripCR(b: seq<byte>): seq<byte> {
    if b != [] && b[|b| - 1] == CR then StripCR(b[..|b| - 1]) else b
  }

  /** `rstrip("\r\n")`. */
  function StripEnd(b: seq<byte>): seq<byte> {
    if b != [] && (b[|b| - 1] == CR || b[|b| - 1] == LF) then StripEnd(b[..|b| - 1]) else b
  }

  function Concat(chunks: seq<seq<byte>>): seq<byte> {
    if chunks == [] then [] else chunks[0] + Concat(chunks[1..])
  }

  /** Framing of a stream that is read in one piece. */
  function Frame(b: seq<byte>): Framed
    decreases |b|
  {
    var n := FirstNewline(b);
    if n > MAX_STREAM_LINE_BYTES then Framed([], true)
    else if b == [] then Framed([], false)
    else if n == |b| then Framed([StripCR(b)], false)
    else Prepend([StripCR(b[..n])], Frame(b[n + 1..]))
  }

  function Prepend(lines: seq<seq<byte>>, f: Framed): Framed {
    f.(lines := lines + f.lines)
  }

  // ---------------------------------------------------------------- splitting at newlines

  /** The stream cut at every newline; there is always a last, possibly empty, record. */
  function Records(b: seq<byte>): (rs: seq<seq<byte>>)
    ensures rs != []
    decreases |b|
  {
    var n := FirstNewline(b);
    if n == |b| then [b] else [b[..n]] + Records(b[n + 1..])
  }

  function JoinRecords(rs: seq<seq<byte>>): seq<byte>
    requires rs != []
  {
    if |rs| == 1 then rs[0] else rs[0] + [LF] + JoinRecords(rs[1..])
  }

  predicate NewlineFree(rs: seq<seq<byte>>) {
    forall i :: 0 <= i < |rs| ==> LF !in rs[i]
  }

  lemma {:induction false} NewlineAfter(record: seq<byte>, rest: seq<byte>)
    requires LF !in record
    ensures FirstNewline(record + [LF] + rest) == |record|
    ensures FirstNewline(record) == |record|
  {
    if record == [] {
      assert (record + [LF] + rest)[0] == LF;
    } else {
      assert (record + [LF] + rest)[1..] == record[1..] + [LF] + rest;
      NewlineAfter(record[1..], rest);
    }
  }

  /** `Records` is the only way to write a stream as newline-free records joined by newlines. */
  lemma {:induction false} RecordsUnique(b: seq<byte>, rs: seq<seq<byte>>)
    requires rs != []
    ensures rs == Records(b) <==> NewlineFree(rs) && JoinRecords(rs) == b
    decreases |rs|
  {
    RecordsJoin(b);
    if NewlineFree(rs) && JoinRecords(rs) == b {
      if |rs| == 1 {
        NewlineAfter(rs[0], []);
        assert rs == [rs[0]];
      } else {
        var rest := JoinRecords(rs[1..]);
        NewlineAfter(rs[0], rest);
        assert b[..|rs[0]|] == rs[0] && b[|rs[0]| + 1..] == rest;
        RecordsUnique(rest, rs[1..]);
        assert rs == [rs[0]] + rs[1..];
      }
    }
  }

  lemma {:induction false} RecordsJoin(b: seq<byte>)
    ensures NewlineFree(Records(b)) && JoinRecords(Records(b)) == b
    decreases |b|
  {
    var n := FirstNewline(b);
    if n < |b| {
      RecordsJoin(b[n + 1..]);
      assert Records(b)[1..] == Records(b[n + 1..]);
      assert b == b[..n] + [LF] + b[n + 1..];
    } else {
      assert b[..n] == b;
    }
  }

  // ---------------------------------------------------------------- what is delivered of a record

  /** `line` is `record` without the carriage returns (byte 13) at its end. */
  predicate Trimmed(record: seq<byte>, line: seq<byte>) {
    && line <= record
    && (line != [] ==> line[|line| - 1] != 13)
    && forall k :: |line| <= k < |record| ==> record[k] == 13
  }

  /**
   * These lines are delivered of the records of a stream, and an overflow follows or not: records
   * of at most 4 MiB in order, up to the first longer one, or else all but a final empty one.
   */
  predicate Delivers(rs: seq<seq<byte>>, lines: seq<seq<byte>>, overflow: bool) {
    && rs != [] && |lines| <= |rs|
    && (forall i :: 0 <= i < |lines| ==> Trimmed(rs[i], lines[i]) && |rs[i]| <= 4_194_304 && 10 !in rs[i])
    && if overflow then |lines| < |rs| && |rs[|lines|]| > 4_194_304
       else |lines| == if rs[|rs| - 1] == [] then |rs| - 1 else |rs|
  }

  lemma {:induction false} StripTrims(b: seq<byte>)
    ensures Trimmed(b, StripCR(b))
  {
    if b != [] && b[|b| - 1] == CR {
      StripTrims(b[..|b| - 1]);
    }
  }

  lemma DeliversMore(record: seq<byte>, rs: seq<seq<byte>>, line: seq<byte>, lines: seq<seq<byte>>, overflow: bool)
    requires Delivers(rs, lines, overflow) && Trimmed(record, line) && |record| <= 4_194_304 && 10 !in record
    ensures Delivers([record] + rs, [line] + lines, overflow)
  {
    var all, out := [record] + rs, [line] + lines;
    hide Trimmed;
    forall i | 0 <= i < |out|
      ensures Trimmed(all[i], out[i]) && |all[i]| <= 4_194_304 && 10 !in all[i]
    {
      if i > 0 { assert out[i] == lines[i - 1] && all[i] == rs[i - 1]; }
    }
  }

  lemma {:induction false} FramingDelivers(b: seq<byte>)
    ensures Delivers(Records(b), Frame(b).lines, Frame(b).overflow)
    decreases |b|
  {
    var n := FirstNewline(b);
    if n <= MAX_STREAM_LINE_BYTES && b != [] {
      StripTrims(b[..n]);
      if n == |b| {
        assert b[..n] == b;
      } else {
        FramingDelivers(b[n + 1..]);
        DeliversMore(b[..n], Records(b[n + 1..]), StripCR(b[..n]), Frame(b[n + 1..]).lines, Frame(b).overflow);
      }
    }
  }

  lemma OverflowExactly(rs: seq<seq<byte>>, lines: seq<seq<byte>>, overflow: bool)
    requires Delivers(rs, lines, overflow)
    ensures overflow <==> exists i :: 0 <= i < |rs| && |rs[i]| > 4_194_304
  {
    hide Trimmed;
    if !overflow {
      assert forall i :: 0 <= i < |rs| ==> i < |lines| || rs[i] == [];
    }
  }

  /**
   * However the stream is cut, framing delivers what the newline-split records prescribe, and
   * overflows exactly when an over-long record exists.
   */
  lemma FramingFollowsPolicy(b: seq<byte>)
    ensures Delivers(Records(b), Frame(b).lines, Frame(b).overflow)
    ensures Frame(b).overflow <==> exists i :: 0 <= i < |Records(b)| && |Records(b)[i]| > 4_194_304
  {
    hide *;
    FramingDelivers(b);
    OverflowExactly(Records(b), Frame(b).lines, Frame(b).overflow);
  }

  /** The records leave no choice: at most one list of lines is delivered of them. */
  lemma DeliversUnique(rs: seq<seq<byte>>, a: seq<seq<byte>>, aOver: bool, b: seq<seq<byte>>, bOver: bool)
    requires Delivers(rs, a, aOver) && Delivers(rs, b, bOver)
    ensures a == b && aOver == bOver
  {
    assert |a| == |b| && aOver == bOver;
    forall i | 0 <= i < |a|
      ensures a[i] == b[i]
    {
      TrimmedUnique(rs[i], a[i], b[i]);
    }
  }

  lemma TrimmedUnique(record: seq<byte>, a: seq<byte>, b: seq<byte>)
    requires Trimmed(record, a) && Trimmed(record, b)
    ensures a == b
  {
    assert |a| == |b|;
    assert a == record[..|a|] == b;
  }

  // ---------------------------------------------------------------- the loop over chunks

  lemma {:induction false} NewlineInPrefix(a: seq<byte>, b: seq<byte>)
    ensures FirstNewline(a) < |a| ==> FirstNewline(a + b) == FirstNewline(a)
    ensures FirstNewline(a) == |a| ==> FirstNewline(a + b) >= |a|
  {
    if a != [] && a[0] != LF {
      assert (a + b)[1..] == a[1..] + b;
      NewlineInPrefix(a[1..], b);
    }
  }

  /** Taking the first complete record off the front of the stream. */
  lemma FrameRecord(buffer: seq<byte>, rest: seq<byte>)
    requires FirstNewline(buffer) < |buffer| && FirstNewline(buffer) <= MAX_STREAM_LINE_BYTES
    ensures var n := FirstNewline(buffer);
            Frame(buffer + rest) == Prepend([StripCR(buffer[..n])], Frame(buffer[n + 1..] + rest))
  {
    var n := FirstNewline(buffer);
    NewlineInPrefix(buffer, rest);
    hide FirstNewline, StripCR;
    assert (buffer + rest)[..n] == buffer[..n];
    assert (buffer + rest)[n + 1..] == buffer[n + 1..] + rest;
  }

  /** Nothing that follows can save a record that is already too long. */
  lemma FrameTooLong(buffer: seq<byte>, rest: seq<byte>)
    requires FirstNewline(buffer) > MAX_STREAM_LINE_BYTES
    ensures Frame(buffer + rest) == Framed([], true)
  {
    NewlineInPrefix(buffer, rest);
  }

  /** At end of stream, what is buffered is the last record unless it is empty. */
  lemma FrameLast(buffer: seq<byte>)
    requires FirstNewline(buffer) == |buffer| <= MAX_STREAM_LINE_BYTES
    ensures Frame(buffer) == Framed(if buffer == [] then [] else [StripEnd(buffer)], false)
  {
    if buffer != [] {
      assert buffer[..|buffer|] == buffer;
      StripWithoutNewline(buffer);
    }
  }

  lemma ConcatStep(chunks: seq<seq<byte>>, i: nat, buffer: seq<byte>)
    requires i < |chunks|
    ensures buffer + Concat(chunks[i..]) == (buffer + chunks[i]) + Concat(chunks[i + 1..])
  {
    assert chunks[i..][1..] == chunks[i + 1..];
  }

  lemma ConcatEnds(chunks: seq<seq<byte>>)
    ensures chunks[0..] == chunks && Concat(chunks[|chunks|..]) == []
  {
  }

  lemma PrependTwice(a: seq<seq<byte>>, b: seq<seq<byte>>, f: Framed)
    ensures Prepend(a, Prepend(b, f)) == Prepend(a + b, f)
  {
  }

  lemma {:induction false} StripWithoutNewline(b: seq<byte>)
    requires LF !in b
    ensures StripEnd(b) == StripCR(b)
  {
    if b != [] && b[|b| - 1] == CR {
      StripWithoutNewline(b[..|b| - 1]);
    }
  }

  /**
   * The generator. `chunks` are the results of its reads up to the empty one at end of stream.
   * `atReads` is the buffer at each read and `peak` the largest it ever got.
   */
  method IterBoundedLines(chunks: seq<seq<byte>>)
    returns (lines: seq<seq<byte>>, overflow: bool, ghost atReads: seq<seq<byte>>, ghost peak: nat)
    requires forall i :: 0 <= i < |chunks| ==> 0 < |chunks[i]| <= READ_CHUNK_BYTES
    ensures Framed(lines, overflow) == Frame(Concat(chunks))
    ensures Delivers(Records(Concat(chunks)), lines, overflow)
    ensures forall i :: 0 <= i < |atReads| ==> LF !in atReads[i] && |atReads[i]| <= MAX_STREAM_LINE_BYTES
    ensures !overflow ==> |atReads| == |chunks| + 1
    ensures peak <= MAX_STREAM_LINE_BYTES + READ_CHUNK_BYTES
  {
    FramingDelivers(Concat(chunks));
    ConcatEnds(chunks);
    hide Frame, StripCR, StripEnd, Delivers, Records, Concat;
    var buffer: seq<byte> := [];
    lines, overflow, atReads, peak := [], false, [], 0;
    var i := 0;
    assert buffer + Concat(chunks[0..]) == Concat(chunks);
    while true
      invariant i <= |chunks| && |atReads| == i && !overflow
      invariant FirstNewline(buffer) == |buffer| <= MAX_STREAM_LINE_BYTES
      invariant Prepend(lines, Frame(buffer + Concat(chunks[i..]))) == Frame(Concat(chunks))
      invariant forall k :: 0 <= k < |atReads| ==> LF !in atReads[k] && |atReads[k]| <= MAX_STREAM_LINE_BYTES
      invariant peak <= MAX_STREAM_LINE_BYTES + READ_CHUNK_BYTES
      decreases |chunks| - i
    {
      assert buffer[..|buffer|] == buffer;
      atReads := atReads + [buffer];
      if i == |chunks| {
        assert buffer + Concat(chunks[i..]) == buffer;
        FrameLast(buffer);
        if buffer != [] {
          if |buffer| > MAX_STREAM_LINE_BYTES {
            assert false;
          }
          lines := lines + [StripEnd(buffer)];
        }
        return;
      }
      ghost var rest := Concat(chunks[i + 1..]);
      ConcatStep(chunks, i, buffer);
      buffer := buffer + chunks[i];
      i := i + 1;
      peak := if |buffer| > peak then |buffer| else peak;
      var newlineAt := FirstNewline(buffer);
      while newlineAt < |buffer|
        invariant newlineAt == FirstNewline(buffer)
        invariant Prepend(lines, Frame(buffer + rest)) == Frame(Concat(chunks))
        invariant |buffer| <= MAX_STREAM_LINE_BYTES + READ_CHUNK_BYTES
        decreases |buffer|
      {
        if newlineAt > MAX_STREAM_LINE_BYTES {
          FrameTooLong(buffer, rest);
          overflow := true;
          return;
        }
        FrameRecord(buffer, rest);
        var line := StripCR(buffer[..newlineAt]);
        PrependTwice(lines, [line], Frame(buffer[newlineAt + 1..] + rest));
        buffer := buffer[newlineAt + 1..];
        lines := lines + [line];
        newlineAt := FirstNewline(buffer);
      }
      if |buffer| > MAX_STREAM_LINE_BYTES {
        FrameTooLong(buffer, rest);
        overflow := true;
        return;
      }
    }
  }
}
