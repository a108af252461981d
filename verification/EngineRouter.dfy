/** `EnginePendingResponseRouter`: the state machine of `RouterState`, run in place over raw bytes. */
module EngineRouter {
  import opened Options
  import opened LineSplitter
  import opened RouterHistory
  import opened RouterLines
  import opened RouterSelection
  import opened RouterState

  type Decoder = Bytes -> Decoded

  /** Routing lines one after the other. */
  ghost function RouteAll(st: State, lines: seq<Bytes>, decode: Decoder): State {
    if lines == [] then st
    else
      var last := lines[|lines| - 1];
      Route(RouteAll(st, lines[..|lines| - 1], decode), Tag(last, decode(last)))
  }

  lemma {:induction false} RouteAllAppend(st: State, a: seq<Bytes>, b: seq<Bytes>, decode: Decoder)
    ensures RouteAll(st, a + b, decode) == RouteAll(RouteAll(st, a, decode), b, decode)
    decreases |b|
  {
    if b == [] {
      assert a + b == a;
    } else {
      assert (a + b)[..|a + b| - 1] == a + b[..|b| - 1];
      RouteAllAppend(st, a, b[..|b| - 1], decode);
    }
  }

  lemma {:induction false} RouteAllKeepsInv(st: State, lines: seq<Bytes>, decode: Decoder)
    requires Inv(st)
    ensures Inv(RouteAll(st, lines, decode))
  {
    if lines != [] {
      var last := lines[|lines| - 1];
      RouteAllKeepsInv(st, lines[..|lines| - 1], decode);
      StepKeepsInv(RouteAll(st, lines[..|lines| - 1], decode), Deliver(Tag(last, decode(last))));
    }
  }

  /** A pending request is complete after some lines exactly if it was, or one of them is its end marker. */
  lemma {:induction false} CompleteIffMarked(st: State, lines: seq<Bytes>, decode: Decoder, id: Id)
    requires Inv(st) && id in st.pending
    ensures id in RouteAll(st, lines, decode).pending
    ensures RouteAll(st, lines, decode).pending[id].isComplete <==>
            st.pending[id].isComplete
            || exists k :: 0 <= k < |lines| && Names(decode(lines[k]), id) && IsEndMarker(decode(lines[k]))
  {
    if lines != [] {
      var before, last := lines[..|lines| - 1], lines[|lines| - 1];
      CompleteIffMarked(st, before, decode, id);
      RouteAllKeepsInv(st, before, decode);
      TagReads(last, decode(last), id);
      StepSetsFlags(RouteAll(st, before, decode), Deliver(Tag(last, decode(last))), id);
      assert lines == before + [last];
    }
  }

  /** The table and the unfinished line after one chunk of daemon output. */
  datatype Stream = Stream(table: State, partial: Bytes)

  ghost function AppendChunk(s: Stream, data: Bytes, decode: Decoder): Stream {
    var fed := Feed(Cut([], s.partial), data);
    Stream(RouteAll(s.table, fed.lines, decode), fed.rest)
  }

  ghost function AppendChunks(s: Stream, chunks: seq<Bytes>, decode: Decoder): Stream
    decreases |chunks|
  {
    if chunks == [] then s else AppendChunks(AppendChunk(s, chunks[0], decode), chunks[1..], decode)
  }

  /** Reading the pipe in any chunks routes the same lines and leaves the same unfinished line. */
  lemma {:induction false} ReadsMayBeCutAnywhere(s: Stream, chunks: seq<Bytes>, decode: Decoder)
    ensures AppendChunks(s, chunks, decode) == AppendChunk(s, Flatten(chunks), decode)
    decreases |chunks|
  {
    if chunks != [] {
      var next := AppendChunk(s, chunks[0], decode);
      var rest := Flatten(chunks[1..]);
      ReadsMayBeCutAnywhere(next, chunks[1..], decode);
      var first := Feed(Cut([], s.partial), chunks[0]);
      FeedAppend(Cut([], s.partial), chunks[0], rest);
      FeedExtendsLines(first.lines, first.rest, rest);
      RouteAllAppend(s.table, first.lines, Feed(Cut([], first.rest), rest).lines, decode);
    }
  }

  class EnginePendingResponseRouter {
    const decode: Decoder
    var partial: Bytes
    var pending: map<Id, Response>
    var streamOwners: map<Id, Id>
    var nextRegistrationOrder: nat
    var nextLineOrder: nat

    ghost function Table(): State
      reads this
    {
      State(pending, streamOwners, nextRegistrationOrder, nextLineOrder)
    }

    ghost predicate Valid()
      reads this
    {
      Inv(Table()) && NEWLINE !in partial
    }

    constructor (decode: Decoder)
      ensures Valid() && Table() == EMPTY && partial == [] && this.decode == decode
    {
      this.decode := decode;
      partial, pending, streamOwners := [], map[], map[];
      nextRegistrationOrder, nextLineOrder := 0, 0;
    }

    method Register(id: Id, kind: string, runId: Option<Id>)
      requires Valid()
      modifies this
      ensures Valid() && partial == old(partial)
      ensures Table() == Step(old(Table()), Op.Register(id, kind, runId))
    {
      StepKeepsInv(Table(), Op.Register(id, kind, runId));
      nextRegistrationOrder := nextRegistrationOrder + 1;
      pending := pending[id := NewResponse(id, kind, runId, nextRegistrationOrder)];
    }

    method Append(data: Bytes)
      requires Valid()
      modifies this
      ensures Valid()
      ensures Stream(Table(), partial) == AppendChunk(Stream(old(Table()), old(partial)), data, decode)
    {
      if data == [] {
        return;
      }
      ghost var target := Feed(Cut([], partial), data);
      assert [] + partial == partial;
      FeedWithoutNewline(Cut([], []), partial);
      FeedAppend(Cut([], []), partial, data);
      partial := partial + data;
      ghost var routed: seq<Bytes> := [];
      var at := FirstNewline(partial);
      while at < |partial|
        invariant 0 <= at <= |partial| && NEWLINE !in partial[..at]
        invariant at < |partial| ==> partial[at] == NEWLINE
        invariant target == Feed(Cut(routed, []), partial)
        invariant Inv(Table()) && Table() == RouteAll(old(Table()), routed, decode)
        decreases |partial|
      {
        var raw := partial[..at];
        FeedThroughNewline(routed, partial, at);
        partial := partial[at + 1..];
        var line := TrimCarriageReturn(raw);
        if line != [] {
          RouteAllAppend(old(Table()), routed, [line], decode);
          RouteLine(line);
          routed := routed + [line];
        }
        at := FirstNewline(partial);
      }
      assert partial[..at] == partial;
      FeedWithoutNewline(Cut(routed, []), partial);
      assert [] + partial == partial;
    }

    method Snapshot(requestId: Id) returns (lines: seq<Bytes>, sawRequestEvent: bool, isComplete: bool)
      ensures (lines, sawRequestEvent, isComplete) ==
              if requestId in pending
              then (pending[requestId].lines, pending[requestId].sawRequestEvent, pending[requestId].isComplete)
              else ([], false, false)
    {
      if requestId !in pending {
        return [], false, false;
      }
      var response := pending[requestId];
      return response.lines, response.sawRequestEvent, response.isComplete;
    }

    method Finish(requestId: Id) returns (lines: seq<Bytes>, sawRequestEvent: bool)
      requires Valid()
      modifies this
      ensures Valid() && partial == old(partial)
      ensures Table() == Step(old(Table()), Op.Finish(requestId))
      ensures (lines, sawRequestEvent) ==
              if requestId in old(pending)
              then (old(pending)[requestId].lines, old(pending)[requestId].sawRequestEvent)
              else ([], false)
    {
      StepKeepsInv(Table(), Op.Finish(requestId));
      lines, sawRequestEvent := [], false;
      if requestId in pending {
        lines, sawRequestEvent := pending[requestId].lines, pending[requestId].sawRequestEvent;
      }
      pending := pending - {requestId};
      streamOwners := map s | s in streamOwners && streamOwners[s] != requestId :: streamOwners[s];
    }

    method Cancel(requestId: Id)
      requires Valid()
      modifies this
      ensures Valid() && partial == old(partial)
      ensures Table() == Step(old(Table()), Op.Cancel(requestId))
    {
      StepKeepsInv(Table(), Op.Cancel(requestId));
      pending := pending - {requestId};
      streamOwners := map s | s in streamOwners && streamOwners[s] != requestId :: streamOwners[s];
    }

    /** `pending.values`: the dictionary's values in an order of its own choosing. */
    method Values() returns (values: seq<Response>)
      requires Inv(Table())
      ensures Enumerates(values, pending)
    {
      values := [];
      var todo := pending.Keys;
      while todo != {}
        invariant todo <= pending.Keys
        invariant forall id :: id in pending && id !in todo ==> pending[id] in values
        invariant forall v :: v in values ==> v.requestId in pending && pending[v.requestId] == v
        decreases todo
      {
        var id :| id in todo;
        todo := todo - {id};
        values := values + [pending[id]];
      }
    }

    method MatchedPendingIds(line: Line) returns (ids: seq<Id>)
      requires Inv(Table())
      ensures ids == match Matched(Table(), line) case None => [] case Some(id) => [id]
    {
      if line.requestId.Some? && line.requestId.value in pending {
        return [line.requestId.value];
      }
      if line.streamId.Some? && line.streamId.value in streamOwners
         && streamOwners[line.streamId.value] in pending {
        return [streamOwners[line.streamId.value]];
      }
      if line.runId.None? {
        return [];
      }
      var values := Values();
      SelectionIgnoresDictionaryOrder(Table(), values, line.runId.value);
      var owner := Select(values, line.runId.value);
      ids := if owner.Some? then [owner.value] else [];
    }

    /** At most one response receives the line; every other one is left exactly as it was. */
    method RouteTagged(line: Line)
      requires Inv(Table())
      modifies this`pending, this`streamOwners, this`nextLineOrder
      ensures Table() == Route(old(Table()), line)
    {
      var matchedIds := MatchedPendingIds(line);
      if matchedIds == [] {
        return;
      }
      if line.streamId.Some? && line.requestId.Some? && line.requestId.value in pending {
        streamOwners := streamOwners[line.streamId.value := line.requestId.value];
      }
      nextLineOrder := nextLineOrder + 1;
      var i := 0;
      while i < |matchedIds|
        modifies this`pending
        invariant 0 <= i <= 1 && |matchedIds| == 1 && matchedIds[0] in old(pending)
        invariant i == 0 ==> pending == old(pending)
        invariant i == 1 ==>
                    pending == old(pending)[matchedIds[0] := Receive(old(pending)[matchedIds[0]], line, nextLineOrder)]
      {
        var id := matchedIds[i];
        if id in pending {
          pending := pending[id := Receive(pending[id], line, nextLineOrder)];
        }
        i := i + 1;
      }
    }

    method RouteLine(text: Bytes)
      requires Inv(Table())
      modifies this`pending, this`streamOwners, this`nextLineOrder
      ensures Inv(Table())
      ensures Table() == Route(old(Table()), Tag(text, decode(text)))
      ensures Delivered(old(Table()), Table(), text, decode(text))
    {
      ghost var before := Table();
      var line := Tag(text, decode(text));
      RouteTagged(line);
      StepKeepsInv(before, Deliver(line));
      RouteDelivers(before, text, decode(text));
    }
  }
}
