/** Control messages as bounded lines (host-rs/src/control.rs:5, 85-123). The JSON
    inside a line is not part of this model; a serialized message never contains a
    line feed. */
module ControlLines {
  import opened Basics
  import opened Bytes

  const MAX_LINE: nat := 16 * 1024
  const LF: u8 := 10

  datatype LineError = TooLong | Truncated

  /** One message, the end of the stream, or an error. */
  type Line = Result<Option<bytes>, LineError>

  /** How many bytes up to and including the first line feed, or all of them. */
  function LineCount(b: bytes): (n: nat)
    ensures n <= |b|
    ensures forall i :: 0 <= i < n - 1 ==> b[i] != LF
    ensures b != [] ==> 0 < n
  {
    if b == [] then 0 else if b[0] == LF then 1 else 1 + LineCount(b[1..])
  }

  predicate Ends(b: bytes) { b != [] && b[|b| - 1] == LF }

  /** What a read returns, from the bytes alone: nothing about how they arrive. */
  function ReadLine(stream: bytes): Line {
    var n := LineCount(stream);
    if stream == [] then Ok(None)
    else if n > MAX_LINE then Err(TooLong)
    else if Ends(stream[..n]) then Ok(Some(stream[..n]))
    else Err(Truncated)
  }

  /** The bytes left for the next read after a successful one. */
  function Remaining(stream: bytes): bytes { stream[LineCount(stream)..] }

  function WriteLine(message: bytes): Result<bytes, LineError> {
    if |message| >= MAX_LINE then Err(TooLong) else Ok(message + [LF])
  }

  // ----- A buffered reader -----

  function Flat(chunks: seq<bytes>): bytes { if chunks == [] then [] else chunks[0] + Flat(chunks[1..]) }

  /** What has been buffered so far, in whatever pieces it came; no piece is empty. */
  class Reader {
    var chunks: seq<bytes>

    ghost predicate Valid()
      reads this
    {
      forall i :: 0 <= i < |chunks| ==> chunks[i] != []
    }

    constructor (chunks: seq<bytes>)
      requires forall i :: 0 <= i < |chunks| ==> chunks[i] != []
      ensures Valid() && this.chunks == chunks
    {
      this.chunks := chunks;
    }

    method Consume(count: nat)
      requires Valid() && chunks != [] && count <= |chunks[0]|
      modifies this
      ensures Valid() && Flat(chunks) == old(Flat(chunks))[count..]
      ensures |Flat(chunks)| == |old(Flat(chunks))| - count
    {
      var first := chunks[0];
      assert Flat(chunks) == first + Flat(chunks[1..]);
      if count == |first| {
        chunks := chunks[1..];
      } else {
        assert (first + Flat(chunks[1..]))[count..] == first[count..] + Flat(chunks[1..]);
        ghost var rest := chunks[1..];
        chunks := [first[count..]] + chunks[1..];
        assert chunks[1..] == rest;
      }
    }

    /** MAIN RESULT: a read depends on the bytes only, not on how they were cut up. */
    method Read() returns (r: Line)
      requires Valid()
      modifies this
      ensures Valid() && r == ReadLine(old(Flat(chunks)))
      ensures r.Ok? ==> Flat(chunks) == Remaining(old(Flat(chunks)))
    {
      hide ReadLine, LineCount, Flat, Remaining;
      ghost var stream := Flat(chunks);
      var line: bytes := [];
      while true
        invariant Valid() && stream == line + Flat(chunks)
        invariant |line| <= MAX_LINE && LF !in line
        decreases |Flat(chunks)|
      {
        FlatSplits(chunks);
        if chunks == [] {
          assert stream == line;
          Exhausted(line);
          return if line == [] then Ok(None) else Err(Truncated);
        }
        var chunk := chunks[0];
        var count := LineCount(chunk);
        ChunkTaken(stream, line, chunk, Flat(chunks[1..]), count);
        if |line| + count > MAX_LINE { return Err(TooLong); }
        var finished := chunk[count - 1] == LF;
        Consume(count);
        line := line + chunk[..count];
        if finished { return Ok(Some(line)); }
      }
    }
  }

  /** What the next chunk makes of the line so far. */
  lemma ChunkTaken(stream: bytes, line: bytes, chunk: bytes, after: bytes, count: nat)
    requires stream == line + (chunk + after) && LF !in line && chunk != [] && count == LineCount(chunk)
    ensures 0 < count <= |chunk| && stream == (line + chunk[..count]) + (chunk + after)[count..]
    ensures |line| + count > MAX_LINE ==> ReadLine(stream) == Err(TooLong)
    ensures |line| + count <= MAX_LINE && chunk[count - 1] == LF ==>
              ReadLine(stream) == Ok(Some(line + chunk[..count])) && Remaining(stream) == (chunk + after)[count..]
    ensures chunk[count - 1] != LF ==> LF !in line + chunk[..count]
  {
    hide ReadLine, LineCount, Remaining;
    var whole, tail := line + chunk[..count], (chunk + after)[count..];
    CountAcross(line, chunk, after);
    ChunkSplits(line, chunk, after, count);
    if |line| + count > MAX_LINE {
      Overflows(stream, |line| + count);
    } else if chunk[count - 1] == LF {
      assert whole[|whole| - 1] == LF;
      Finishes(stream, whole, tail);
    }
  }

  lemma ChunkSplits(line: bytes, chunk: bytes, after: bytes, count: nat)
    requires count <= |chunk|
    ensures line + (chunk + after) == line + chunk + after
    ensures line + (chunk + after) == (line + chunk[..count]) + (chunk + after)[count..]
    ensures LF !in line && LF !in chunk ==> LF !in line + chunk[..count]
  {
    assert (chunk + after)[..count] == chunk[..count];
    assert chunk + after == (chunk + after)[..count] + (chunk + after)[count..];
  }

  lemma FlatSplits(chunks: seq<bytes>)
    ensures chunks == [] ==> Flat(chunks) == []
    ensures chunks != [] ==> Flat(chunks) == chunks[0] + Flat(chunks[1..])
  {
  }

  lemma {:induction false} CountIs(b: bytes, n: nat)
    requires n <= |b| && (forall i :: 0 <= i < n - 1 ==> b[i] != LF) && (n == |b| || (n > 0 && b[n - 1] == LF))
    ensures LineCount(b) == n
  {
    if b != [] && b[0] != LF {
      CountIs(b[1..], n - 1);
    }
  }

  lemma Exhausted(line: bytes)
    requires LF !in line && |line| <= MAX_LINE
    ensures ReadLine(line) == if line == [] then Ok(None) else Err(Truncated)
    ensures Remaining(line) == []
  {
    CountIs(line, |line|);
    assert line[..|line|] == line;
    hide LineCount;
  }

  /** Whether the first line feed falls in this chunk or after it. */
  lemma CountAcross(line: bytes, chunk: bytes, rest: bytes)
    requires LF !in line && chunk != []
    ensures var n := LineCount(chunk);
            0 < n && LineCount(line + chunk + rest) >= |line| + n
            && (chunk[n - 1] == LF ==> LineCount(line + chunk + rest) == |line| + n)
            && (chunk[n - 1] != LF ==> n == |chunk| && LF !in chunk)
  {
    var n, all := LineCount(chunk), line + chunk + rest;
    CountFinds(chunk);
    CountFinds(all);
    hide LineCount;
    var m := LineCount(all);
    assert all[|line| + n - 1] == chunk[n - 1];
    assert |line| < m <= |line| + |chunk| ==> all[m - 1] == chunk[m - 1 - |line|];
  }

  lemma {:induction false} CountFinds(b: bytes)
    ensures var n := LineCount(b); n == |b| || (n > 0 && b[n - 1] == LF)
  {
    if b != [] && b[0] != LF { CountFinds(b[1..]); }
  }

  lemma Overflows(stream: bytes, n: nat)
    requires stream != [] && LineCount(stream) >= n > MAX_LINE
    ensures ReadLine(stream) == Err(TooLong)
  {
    hide LineCount;
  }

  lemma Finishes(stream: bytes, line: bytes, rest: bytes)
    requires stream == line + rest && line != [] && line[|line| - 1] == LF && LineCount(stream) == |line|
        && |line| <= MAX_LINE
    ensures ReadLine(stream) == Ok(Some(line)) && Remaining(stream) == rest
  {
    hide LineCount;
    assert stream[..|line|] == line && stream[|line|..] == rest;
  }

  // ----- Round trip -----

  /** MAIN RESULT: the two bounds meet exactly. A message is written if and only if
      its line is one a reader takes, and then the reader gets it back and is left
      with whatever follows. */
  lemma WrittenIsRead(message: bytes, rest: bytes)
    requires 10 !in message
    ensures WriteLine(message).Ok? <==> ReadLine(message + [10] + rest) == Ok(Some(message + [10]))
    ensures WriteLine(message).Ok? <==> |message| <= 16_383
    ensures WriteLine(message).Ok? ==> WriteLine(message).value == message + [10]
    ensures Remaining(message + [10] + rest) == rest
    ensures WriteLine(message).Err? ==> ReadLine(message + [10] + rest) == Err(TooLong)
  {
    var stream := message + [10] + rest;
    CountIs(stream, |message| + 1);
    hide LineCount;
    assert stream[..|message| + 1] == message + [10] && stream[|message| + 1..] == rest;
  }

  /** Bytes without a line feed are the end of the stream, a line cut short, or too many. */
  lemma UnfinishedLines(stream: bytes)
    requires 10 !in stream
    ensures ReadLine(stream)
         == if stream == [] then Ok(None) else if |stream| > 16_384 then Err(TooLong) else Err(Truncated)
  {
    CountIs(stream, |stream|);
    assert stream[..|stream|] == stream;
    hide LineCount;
  }

  function Written(messages: seq<bytes>): bytes {
    if messages == [] then [] else messages[0] + [LF] + Written(messages[1..])
  }

  /** A conversation: every message comes back, in order, then the end of the stream,
      however the bytes were buffered. */
  method ReadBack(reader: Reader, messages: seq<bytes>) returns (lines: seq<bytes>)
    requires reader.Valid() && Flat(reader.chunks) == Written(messages)
    requires forall m :: m in messages ==> LF !in m && |m| < MAX_LINE
    modifies reader
    ensures |lines| == |messages| && forall i :: 0 <= i < |lines| ==> lines[i] == messages[i] + [LF]
  {
    hide ReadLine, Remaining, LineCount, Flat, WriteLine;
    lines := [];
    assert messages[0..] == messages;
    while |lines| < |messages|
      invariant |lines| <= |messages| && reader.Valid() && Flat(reader.chunks) == Written(messages[|lines|..])
      invariant forall i :: 0 <= i < |lines| ==> lines[i] == messages[i] + [LF]
    {
      ghost var i := |lines|;
      assert messages[i] in messages && messages[i..][1..] == messages[i + 1..];
      WrittenIsRead(messages[i], Written(messages[i + 1..]));
      var r := reader.Read();
      lines := lines + [r.value.value];
    }
  }
}
