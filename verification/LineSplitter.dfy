/**
 Cutting a byte stream into lines, shared by the router and the line buffer.

 The reference is a byte-at-a-time machine (`Feed`); the Swift code searches for newlines in
 whatever has been buffered.  `EngineRouter` and `LineBuffer` prove their loops against `Feed`.
 */
module LineSplitter {
  type byte = b: int | 0 <= b < 256
  type Bytes = seq<byte>

  const NEWLINE: byte := 10
  const CARRIAGE_RETURN: byte := 13

  /** Lines cut so far, and the bytes after the last newline. */
  datatype Cut = Cut(lines: seq<Bytes>, rest: Bytes)

  /** One trailing carriage return belongs to the line ending. */
  function TrimCarriageReturn(line: Bytes): Bytes {
    if |line| > 0 && line[|line| - 1] == CARRIAGE_RETURN then line[..|line| - 1] else line
  }

  function WithLine(lines: seq<Bytes>, raw: Bytes): seq<Bytes> {
    var line := TrimCarriageReturn(raw);
    if line == [] then lines else lines + [line]
  }

  function FeedByte(c: Cut, b: byte): Cut {
    if b == NEWLINE then Cut(WithLine(c.lines, c.rest), []) else Cut(c.lines, c.rest + [b])
  }

  function Feed(c: Cut, data: Bytes): Cut
    decreases |data|
  {
    if data == [] then c else Feed(FeedByte(c, data[0]), data[1..])
  }

  function FeedAll(c: Cut, chunks: seq<Bytes>): Cut
    decreases |chunks|
  {
    if chunks == [] then c else FeedAll(Feed(c, chunks[0]), chunks[1..])
  }

  function Flatten(chunks: seq<Bytes>): Bytes {
    if chunks == [] then [] else chunks[0] + Flatten(chunks[1..])
  }

  lemma {:induction false} FeedAppend(c: Cut, a: Bytes, b: Bytes)
    ensures Feed(c, a + b) == Feed(Feed(c, a), b)
    decreases |a|
  {
    if a == [] {
      assert a + b == b;
    } else {
      assert (a + b)[0] == a[0] && (a + b)[1..] == a[1..] + b;
      FeedAppend(FeedByte(c, a[0]), a[1..], b);
    }
  }

  /** Any way of cutting the same bytes into chunks yields the same lines and the same remainder. */
  lemma {:induction false} ChunkingIsInvisible(c: Cut, chunks: seq<Bytes>)
    ensures FeedAll(c, chunks) == Feed(c, Flatten(chunks))
    decreases |chunks|
  {
    if chunks != [] {
      FeedAppend(c, chunks[0], Flatten(chunks[1..]));
      ChunkingIsInvisible(Feed(c, chunks[0]), chunks[1..]);
    }
  }

  lemma {:induction false} FeedWithoutNewline(c: Cut, data: Bytes)
    requires NEWLINE !in data
    ensures Feed(c, data) == Cut(c.lines, c.rest + data)
    decreases |data|
  {
    if data == [] {
      assert c.rest + data == c.rest;
    } else {
      FeedWithoutNewline(FeedByte(c, data[0]), data[1..]);
      assert c.rest + [data[0]] + data[1..] == c.rest + data;
    }
  }

  /** The remainder never holds a newline, and no line holds one or is empty. */
  lemma {:induction false} FeedKeepsNewlineFree(c: Cut, data: Bytes)
    requires NEWLINE !in c.rest
    requires forall line :: line in c.lines ==> line != [] && NEWLINE !in line
    ensures NEWLINE !in Feed(c, data).rest
    ensures forall line :: line in Feed(c, data).lines ==> line != [] && NEWLINE !in line
    decreases |data|
  {
    if data != [] {
      FeedKeepsNewlineFree(FeedByte(c, data[0]), data[1..]);
    }
  }

  /** Lines already cut are only ever extended. */
  lemma {:induction false} FeedExtendsLines(lines: seq<Bytes>, rest: Bytes, data: Bytes)
    ensures Feed(Cut(lines, rest), data) ==
            Cut(lines + Feed(Cut([], rest), data).lines, Feed(Cut([], rest), data).rest)
    decreases |data|
  {
    if data == [] {
      assert lines + [] == lines;
    } else {
      var next := FeedByte(Cut(lines, rest), data[0]);
      var alone := FeedByte(Cut([], rest), data[0]);
      assert next == Cut(lines + alone.lines, alone.rest);
      FeedExtendsLines(next.lines, next.rest, data[1..]);
      FeedExtendsLines(alone.lines, alone.rest, data[1..]);
      var tail := Feed(Cut([], next.rest), data[1..]).lines;
      assert lines + alone.lines + tail == lines + (alone.lines + tail);
    }
  }

  /** Cutting off everything up to a newline is one step of the machine. */
  lemma FeedThroughNewline(lines: seq<Bytes>, buffered: Bytes, at: nat)
    requires at < |buffered| && buffered[at] == NEWLINE && NEWLINE !in buffered[..at]
    ensures Feed(Cut(lines, []), buffered) == Feed(Cut(WithLine(lines, buffered[..at]), []), buffered[at + 1..])
  {
    var head, tail := buffered[..at], buffered[at..];
    assert buffered == head + tail;
    FeedAppend(Cut(lines, []), head, tail);
    FeedWithoutNewline(Cut(lines, []), head);
    assert [] + head == head;
    assert tail[0] == NEWLINE && tail[1..] == buffered[at + 1..];
  }

  /** A line reads back as it was written, with either line ending, and a blank one not at all. */
  lemma WrittenLineReadsBack(lines: seq<Bytes>, line: Bytes, ending: Bytes)
    requires NEWLINE !in line && (line != [] ==> line[|line| - 1] != CARRIAGE_RETURN)
    requires ending == [10] || ending == [13, 10]
    ensures Feed(Cut(lines, []), line + ending) == Cut(if line == [] then lines else lines + [line], [])
  {
    var raw := line + ending[..|ending| - 1];
    assert line + ending == raw + [10];
    assert raw == if ending == [10] then line else line + [13];
    FeedAppend(Cut(lines, []), raw, [10]);
    FeedWithoutNewline(Cut(lines, []), raw);
    assert [] + raw == raw && [10][1..] == [];
    assert raw != line ==> raw[..|raw| - 1] == line;
  }

  /** `firstIndex(of:)`: the first newline, or the length when there is none. */
  method FirstNewline(buffered: Bytes) returns (at: nat)
    ensures at <= |buffered| && NEWLINE !in buffered[..at]
    ensures at < |buffered| ==> buffered[at] == NEWLINE
  {
    at := 0;
    while at < |buffered| && buffered[at] != NEWLINE
      invariant at <= |buffered| && NEWLINE !in buffered[..at]
    {
      at := at + 1;
    }
  }
}
