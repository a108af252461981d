/** The bounded log of engine stderr lines (`EngineLineBuffer`). */
module LineBuffer {
  import opened LineSplitter

  /** The last `n` elements, or all of them when there are fewer. */
  function LastN<T>(s: seq<T>, n: nat): (r: seq<T>)
    ensures |r| == if |s| <= n then |s| else n
  {
    if |s| <= n then s else s[|s| - n..]
  }

  /** Trimming early loses nothing that trimming late would have kept. */
  lemma TrimEarlyOrLate<T>(older: seq<T>, newer: seq<T>, n: nat)
    ensures LastN(LastN(older, n) + newer, n) == LastN(older + newer, n)
  {
    var early, late := LastN(LastN(older, n) + newer, n), LastN(older + newer, n);
    forall i | 0 <= i < |late|
      ensures early[i] == late[i]
    {
    }
  }

  /** The buffer after one chunk: new lines are added, then the oldest ones are dropped. */
  function Keep(c: Cut, data: Bytes, maxLines: nat): Cut {
    var fed := Feed(c, data);
    Cut(LastN(fed.lines, maxLines), fed.rest)
  }

  function KeepAll(c: Cut, chunks: seq<Bytes>, maxLines: nat): Cut
    decreases |chunks|
  {
    if chunks == [] then c else KeepAll(Keep(c, chunks[0], maxLines), chunks[1..], maxLines)
  }

  lemma {:induction false} KeepAllIsTheTail(log: Cut, chunks: seq<Bytes>, maxLines: nat)
    ensures var whole := Feed(log, Flatten(chunks));
            KeepAll(Cut(LastN(log.lines, maxLines), log.rest), chunks, maxLines)
            == Cut(LastN(whole.lines, maxLines), whole.rest)
    decreases |chunks|
  {
    if chunks != [] {
      var kept := LastN(log.lines, maxLines);
      var next := Feed(log, chunks[0]);
      FeedExtendsLines(log.lines, log.rest, chunks[0]);
      FeedExtendsLines(kept, log.rest, chunks[0]);
      TrimEarlyOrLate(log.lines, Feed(Cut([], log.rest), chunks[0]).lines, maxLines);
      assert Keep(Cut(kept, log.rest), chunks[0], maxLines) == Cut(LastN(next.lines, maxLines), next.rest);
      KeepAllIsTheTail(next, chunks[1..], maxLines);
      FeedAppend(log, chunks[0], Flatten(chunks[1..]));
    }
  }

  /** However the stream is chunked, the buffer holds exactly the newest lines of the unbounded log. */
  lemma BufferHoldsTheTail(chunks: seq<Bytes>, maxLines: nat)
    ensures var whole := Feed(Cut([], []), Flatten(chunks));
            KeepAll(Cut([], []), chunks, maxLines) == Cut(LastN(whole.lines, maxLines), whole.rest)
  {
    KeepAllIsTheTail(Cut([], []), chunks, maxLines);
  }

  function JoinLines(pieces: seq<Bytes>): Bytes {
    if pieces == [] then []
    else if |pieces| == 1 then pieces[0]
    else pieces[0] + [NEWLINE] + JoinLines(pieces[1..])
  }

  predicate IsLine(piece: Bytes) {
    piece != [] && NEWLINE !in piece && piece[|piece| - 1] != CARRIAGE_RETURN
  }

  /** Joined lines are the lines again when the text is read. */
  lemma {:induction false} JoinedLinesReadBack(before: seq<Bytes>, pieces: seq<Bytes>)
    requires pieces != [] && forall piece :: piece in pieces ==> IsLine(piece)
    ensures Feed(Cut(before, []), JoinLines(pieces) + [10]) == Cut(before + pieces, [])
    decreases |pieces|
  {
    var first := pieces[0];
    assert IsLine(first);
    WrittenLineReadsBack(before, first, [10]);
    if |pieces| == 1 {
      assert pieces == [first];
    } else {
      var rest := JoinLines(pieces[1..]) + [10];
      assert JoinLines(pieces) + [10] == (first + [10]) + rest;
      FeedAppend(Cut(before, []), first + [10], rest);
      JoinedLinesReadBack(before + [first], pieces[1..]);
      assert before + [first] + pieces[1..] == before + pieces;
    }
  }

  class EngineLineBuffer {
    const maxLines: nat
    var partial: Bytes
    var lines: seq<Bytes>

    ghost predicate Valid()
      reads this
    {
      NEWLINE !in partial && |lines| <= maxLines
    }

    constructor (maxLines: nat)
      ensures Valid() && this.maxLines == maxLines && partial == [] && lines == []
    {
      this.maxLines := maxLines;
      partial, lines := [], [];
    }

    method Append(data: Bytes)
      requires Valid()
      modifies this
      ensures Valid()
      ensures Cut(lines, partial) == Keep(Cut(old(lines), old(partial)), data, maxLines)
    {
      if data == [] {
        return;
      }
      ghost var target := Feed(Cut(lines, partial), data);
      assert [] + partial == partial;
      FeedWithoutNewline(Cut(lines, []), partial);
      FeedAppend(Cut(lines, []), partial, data);
      partial := partial + data;
      var at := FirstNewline(partial);
      while at < |partial|
        invariant 0 <= at <= |partial| && NEWLINE !in partial[..at]
        invariant at < |partial| ==> partial[at] == NEWLINE
        invariant target == Feed(Cut(lines, []), partial)
        decreases |partial|
      {
        var raw := partial[..at];
        FeedThroughNewline(lines, partial, at);
        partial := partial[at + 1..];
        var line := TrimCarriageReturn(raw);
        if line != [] {
          lines := lines + [line];
        }
        at := FirstNewline(partial);
      }
      assert partial[..at] == partial;
      FeedWithoutNewline(Cut(lines, []), partial);
      assert [] + partial == partial;
      if |lines| > maxLines {
        lines := lines[|lines| - maxLines..];
      }
    }

    method DrainLines() returns (drained: seq<Bytes>)
      requires Valid()
      modifies this
      ensures Valid() && drained == old(lines)
      ensures lines == [] && partial == old(partial)
    {
      drained := lines;
      lines := [];
    }

    method DrainText(includePartial: bool) returns (text: Bytes)
      requires Valid()
      modifies this
      ensures Valid() && lines == []
      ensures if includePartial && old(partial) != []
              then text == JoinLines(old(lines) + [old(partial)]) && partial == []
              else text == JoinLines(old(lines)) && partial == old(partial)
    {
      var pieces := lines;
      lines := [];
      if includePartial && partial != [] {
        pieces := pieces + [partial];
        partial := [];
      }
      text := JoinLines(pieces);
    }
  }
}
