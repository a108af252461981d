/**
 What one decoded line does to the pending table, in terms of what the decoders found in it.

 `Delivered` is the promise of routing one line, case by case; it mentions neither the tags the router
 builds on the way nor the routing function.
 */
module RouterLines {
  import opened LineSplitter
  import opened Options
  import opened RouterHistory
  import opened RouterState

  predicate SilentEngine(d: Decoded) { d.engine.None? || d.engine.value.requestId.None? }

  predicate SilentFrame(d: Decoded) { d.frame.None? || d.frame.value.requestId.None? }

  /** The line carries this request id: the engine event comes first, then frame, acceptance and tick. */
  predicate Names(d: Decoded, id: Id) {
    || (d.engine.Some? && d.engine.value.requestId == Some(id))
    || (SilentEngine(d) && d.frame.Some? && d.frame.value.requestId == Some(id))
    || (SilentEngine(d) && SilentFrame(d) && d.acceptedRequestId == Some(id))
    || (SilentEngine(d) && SilentFrame(d) && d.acceptedRequestId.None? && d.tickRequestId == Some(id))
  }

  /** The line is the explicit end marker of a request. */
  predicate IsEndMarker(d: Decoded) { d.engine.Some? && d.engine.value.isTerminal }

  /** The line belongs to this run: an execution event comes before a frame. */
  predicate NamesRun(d: Decoded, run: Id) {
    || d.executionRunId == Some(run)
    || (d.executionRunId.None? && d.frame.Some? && d.frame.value.runId == Some(run))
  }

  predicate OnStream(d: Decoded, stream: Id) { d.frame.Some? && d.frame.value.streamId == stream }

  predicate SameRequest(was: Response, now: Response) {
    && now.requestId == was.requestId && now.kind == was.kind
    && now.runId == was.runId && now.registeredAt == was.registeredAt
  }

  /** One response has been stamped with the next line number; nothing else in the table has changed. */
  predicate OnlyTouched(st: State, next: State, id: Id) {
    && id in st.pending && next.pending.Keys == st.pending.Keys
    && (forall o :: o in st.pending && o != id ==> next.pending[o] == st.pending[o])
    && SameRequest(st.pending[id], next.pending[id])
    && next.lineOrder == st.lineOrder + 1 && next.pending[id].lastLineOrder == next.lineOrder
    && next.registrations == st.registrations
  }

  /** The request the line names receives it, or is complete without it, and claims its stream. */
  predicate NamedReceives(st: State, next: State, text: Bytes, d: Decoded, id: Id) {
    && OnlyTouched(st, next, id)
    && var was, now := st.pending[id], next.pending[id];
    && now.sawRequestEvent
    && (if IsEndMarker(d) then now.isComplete && now.lines == was.lines
        else now.isComplete == was.isComplete && now.lines == was.lines + [text])
    && next.streamOwners == if d.frame.Some? then st.streamOwners[d.frame.value.streamId := id] else st.streamOwners
  }

  /** A line without a name of its own is stored and says nothing about the request itself. */
  predicate OwnerStores(st: State, next: State, text: Bytes, id: Id) {
    && OnlyTouched(st, next, id)
    && var was, now := st.pending[id], next.pending[id];
    && now.sawRequestEvent == was.sawRequestEvent && now.isComplete == was.isComplete
    && now.lines == was.lines + [text] && next.streamOwners == st.streamOwners
  }

  ghost predicate NamesPending(st: State, d: Decoded) {
    exists id :: id in st.pending && Names(d, id)
  }

  ghost predicate OnOwnedStream(st: State, d: Decoded) {
    exists stream :: stream in st.streamOwners && OnStream(d, stream)
  }

  ghost predicate InOwnedRun(st: State, d: Decoded) {
    exists run, id :: NamesRun(d, run) && IsOwner(st.pending, run, id)
  }

  /** Name, then stream, then run; a line with none of them changes nothing. */
  ghost predicate Delivered(st: State, next: State, text: Bytes, d: Decoded) {
    if NamesPending(st, d) then
      forall id :: id in st.pending && Names(d, id) ==> NamedReceives(st, next, text, d, id)
    else if OnOwnedStream(st, d) then
      forall stream :: stream in st.streamOwners && OnStream(d, stream) ==>
        OwnerStores(st, next, text, st.streamOwners[stream])
    else if InOwnedRun(st, d) then
      forall run, id :: NamesRun(d, run) && IsOwner(st.pending, run, id) ==> OwnerStores(st, next, text, id)
    else next == st
  }

  /** While no request of a run has been answered, a `run_start` owns it if there is one, the oldest first. */
  lemma RunStartsOwn(st: State, run: Id, owner: Id, start: Id)
    requires IsOwner(st.pending, run, owner) && start in st.pending && InRun(st.pending[start], run)
    requires st.pending[start].kind == "run_start"
    requires forall id :: id in st.pending && InRun(st.pending[id], run) ==> !st.pending[id].sawRequestEvent
    ensures st.pending[owner].kind == "run_start" && st.pending[owner].registeredAt <= st.pending[start].registeredAt
  {
    assert SomeRunStart(st.pending, run);
  }

  /** Once one has been answered, the owner is an answered one, and none of them has received a later line. */
  lemma AnsweredOwn(st: State, run: Id, owner: Id, other: Id)
    requires IsOwner(st.pending, run, owner) && other in st.pending && InRun(st.pending[other], run)
    requires st.pending[other].sawRequestEvent
    ensures st.pending[owner].sawRequestEvent && st.pending[other].lastLineOrder <= st.pending[owner].lastLineOrder
  {
    assert SomeAccepted(st.pending, run);
  }

  /** The tags are what the decoders found. */
  lemma TagReads(text: Bytes, d: Decoded, id: Id)
    ensures Addresses(Deliver(Tag(text, d)), id) <==> Names(d, id)
    ensures IsTerminalFor(Deliver(Tag(text, d)), id) <==> Names(d, id) && IsEndMarker(d)
    ensures Tag(text, d).runId == Some(id) <==> NamesRun(d, id)
    ensures Tag(text, d).streamId == Some(id) <==> OnStream(d, id)
    ensures Tag(text, d).text == text
  {
  }

  lemma RouteDelivers(st: State, text: Bytes, d: Decoded)
    requires Inv(st)
    ensures Delivered(st, Route(st, Tag(text, d)), text, d)
  {
    var line := Tag(text, d);
    if NamesPending(st, d) {
      var id :| id in st.pending && Names(d, id);
      TagReads(text, d, id);
      assert Matched(st, line) == Some(id) && ResponseOk(st, id, st.pending[id]);
    } else if OnOwnedStream(st, d) {
      var stream :| stream in st.streamOwners && OnStream(d, stream);
      NotNamed(st, text, d);
      assert Matched(st, line) == Some(st.streamOwners[stream]);
      NamelessIsStored(st, text, d, st.streamOwners[stream]);
    } else {
      NotNamed(st, text, d);
      RunDelivers(st, text, d);
    }
  }

  lemma NotNamed(st: State, text: Bytes, d: Decoded)
    requires !NamesPending(st, d)
    ensures Tag(text, d).requestId.Some? ==> Tag(text, d).requestId.value !in st.pending
  {
    if Tag(text, d).requestId.Some? {
      TagReads(text, d, Tag(text, d).requestId.value);
    }
  }

  lemma NamelessIsStored(st: State, text: Bytes, d: Decoded, id: Id)
    requires Inv(st) && id in st.pending && !NamesPending(st, d)
    ensures OwnerStores(st, RouteTo(st, Tag(text, d), id), text, id)
  {
    NotNamed(st, text, d);
    assert ResponseOk(st, id, st.pending[id]);
  }

  lemma RunDelivers(st: State, text: Bytes, d: Decoded)
    requires Inv(st) && !NamesPending(st, d) && !OnOwnedStream(st, d)
    ensures Delivered(st, Route(st, Tag(text, d)), text, d)
  {
    var line := Tag(text, d);
    NotNamed(st, text, d);
    assert line.streamId.Some? ==> OnStream(d, line.streamId.value);
    if InOwnedRun(st, d) {
      var run, id :| NamesRun(d, run) && IsOwner(st.pending, run, id);
      TagReads(text, d, run);
      forall other | IsOwner(st.pending, run, other)
        ensures other == id
      {
        OwnerIsUnique(st, run, id, other);
      }
      assert Matched(st, line) == Some(id);
      NamelessIsStored(st, text, d, id);
    } else if line.runId.Some? {
      TagReads(text, d, line.runId.value);
      assert Owner(st.pending, line.runId.value).None?;
    }
  }
}
