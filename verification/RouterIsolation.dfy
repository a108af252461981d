/**
 Non-interference of concurrent requests.

 Split requests, streams and runs into two sides so that every line's tags, and every registration's
 run, stay on one side.  Then deleting everything that belongs to the other side changes nothing
 that this side can see: same pending requests, same lines, same flags, same results of `finish`.
 */
module RouterIsolation {
  import opened Options
  import opened LineSplitter
  import opened RouterState

  /** Which request, stream and run ids belong to the side that is kept. */
  datatype Side = Side(requests: iset<Id>, streams: iset<Id>, runs: iset<Id>)

  ghost predicate OnSide(line: Line, side: Side, kept: bool) {
    && (line.requestId.Some? ==> (line.requestId.value in side.requests) == kept)
    && (line.streamId.Some? ==> (line.streamId.value in side.streams) == kept)
    && (line.runId.Some? ==> (line.runId.value in side.runs) == kept)
  }

  /** The operation does not mix the two sides. */
  ghost predicate Consistent(op: Op, side: Side) {
    match op
    case Register(id, _, runId) => runId.Some? ==> (runId.value in side.runs) == (id in side.requests)
    case Deliver(line) => OnSide(line, side, true) || OnSide(line, side, false)
    case Finish(_) => true
    case Cancel(_) => true
  }

  ghost predicate Keeps(op: Op, side: Side) {
    match op
    case Register(id, _, _) => id in side.requests
    case Finish(id) => id in side.requests
    case Cancel(id) => id in side.requests
    case Deliver(line) => OnSide(line, side, true)
  }

  /** The history with everything of the other side deleted. */
  ghost function Project(ops: seq<Op>, side: Side): seq<Op> {
    if ops == [] then []
    else
      var n := |ops| - 1;
      Project(ops[..n], side) + if Keeps(ops[n], side) then [ops[n]] else []
  }

  type Table = map<Id, Response>

  /** Streams and runs of a response stay on its own side. */
  ghost predicate RunsSeparated(pending: Table, side: Side) {
    forall id :: id in pending && pending[id].runId.Some? ==>
                   (pending[id].runId.value in side.runs) == (id in side.requests)
  }

  ghost predicate StreamsSeparated(owners: map<Id, Id>, side: Side) {
    forall s :: s in owners ==> (owners[s] in side.requests) == (s in side.streams)
  }

  /** What a caller can see of a response; the two order counters are private. */
  datatype View = View(id: Id, kind: string, runId: Option<Id>, lines: seq<Bytes>, seen: bool, complete: bool)

  function Visible(r: Response): View {
    View(r.requestId, r.kind, r.runId, r.lines, r.sawRequestEvent, r.isComplete)
  }

  ghost predicate SamePending(whole: Table, part: Table, side: Side) {
    && (forall id :: id in part <==> id in whole && id in side.requests)
    && (forall id :: id in part ==> Visible(whole[id]) == Visible(part[id]))
  }

  /** Both counters rank `a` against `b` the same way on both sides. */
  ghost predicate RankedAlike(whole: Table, part: Table, a: Id, b: Id) {
    a in part && b in part && a in whole && b in whole ==>
      && (whole[a].registeredAt <= whole[b].registeredAt <==> part[a].registeredAt <= part[b].registeredAt)
      && (whole[a].lastLineOrder <= whole[b].lastLineOrder <==> part[a].lastLineOrder <= part[b].lastLineOrder)
      && (whole[a].lastLineOrder == 0 <==> part[a].lastLineOrder == 0)
  }

  /** The counters may be numbered differently, but they order the kept requests the same way. */
  ghost predicate SameOrder(whole: Table, part: Table) {
    forall a, b :: RankedAlike(whole, part, a, b)
  }

  ghost predicate SameStreams(whole: map<Id, Id>, part: map<Id, Id>, side: Side) {
    && (forall s :: s in part <==> s in whole && s in side.streams)
    && (forall s :: s in part ==> whole[s] == part[s])
  }

  ghost predicate SameTable(whole: Table, part: Table, side: Side) {
    RunsSeparated(whole, side) && SamePending(whole, part, side) && SameOrder(whole, part)
  }

  /** `part` is the kept side of `whole`, up to renumbering of the two counters. */
  ghost predicate Simulates(whole: State, part: State, side: Side) {
    && SameTable(whole.pending, part.pending, side)
    && StreamsSeparated(whole.streamOwners, side)
    && SameStreams(whole.streamOwners, part.streamOwners, side)
  }

  ghost predicate Related(whole: State, part: State, side: Side) {
    Inv(whole) && Inv(part) && Simulates(whole, part, side)
  }

  lemma SameCases(whole: Table, part: Table, side: Side, run: Id)
    requires RunsSeparated(whole, side) && SamePending(whole, part, side) && run in side.runs
    ensures SomeAccepted(whole, run) <==> SomeAccepted(part, run)
    ensures SomeRunStart(whole, run) <==> SomeRunStart(part, run)
  {
    forall o | o in whole && InRun(whole[o], run)
      ensures o in part && Visible(whole[o]) == Visible(part[o])
    {
    }
  }

  /** Ownership of a kept run is decided within the kept side. */
  lemma IsOwnerAgrees(whole: Table, part: Table, side: Side, run: Id, id: Id)
    requires RunsSeparated(whole, side) && SamePending(whole, part, side) && SameOrder(whole, part)
    requires run in side.runs
    ensures IsOwner(whole, run, id) <==> IsOwner(part, run, id)
  {
    forall o | o in whole && InRun(whole[o], run)
      ensures o in part && Visible(whole[o]) == Visible(part[o])
    {
    }
    forall o | o in part && id in part
      ensures RankedAlike(whole, part, id, o) && RankedAlike(whole, part, o, id)
    {
    }
    SameCases(whole, part, side, run);
  }

  lemma OwnerAgrees(whole: State, part: State, side: Side, run: Id)
    requires Related(whole, part, side) && run in side.runs
    ensures Owner(whole.pending, run) == Owner(part.pending, run)
  {
    var w, p := Owner(whole.pending, run), Owner(part.pending, run);
    if w.Some? {
      IsOwnerAgrees(whole.pending, part.pending, side, run, w.value);
      OwnerIsUnique(part, run, w.value, p.value);
    } else if p.Some? {
      IsOwnerAgrees(whole.pending, part.pending, side, run, p.value);
    }
  }

  lemma MatchedAgrees(whole: State, part: State, side: Side, line: Line)
    requires Related(whole, part, side) && OnSide(line, side, true)
    ensures Matched(whole, line) == Matched(part, line)
  {
    if line.runId.Some? {
      OwnerAgrees(whole, part, side, line.runId.value);
    }
  }

  lemma MatchedStaysOnSide(st: State, side: Side, line: Line, kept: bool)
    requires RunsSeparated(st.pending, side) && StreamsSeparated(st.streamOwners, side)
    requires OnSide(line, side, kept)
    ensures Matched(st, line).Some? ==> (Matched(st, line).value in side.requests) == kept
  {
  }

  /** Both counters are ahead of everything they have numbered. */
  ghost predicate Ahead(st: State) {
    forall id :: id in st.pending ==>
      st.pending[id].registeredAt <= st.registrations && st.pending[id].lastLineOrder <= st.lineOrder
  }

  lemma KeptLinePending(whole: State, part: State, side: Side, line: Line, id: Id)
    requires RunsSeparated(whole.pending, side) && SamePending(whole.pending, part.pending, side)
    requires id in whole.pending && id in part.pending
    ensures RunsSeparated(RouteTo(whole, line, id).pending, side)
    ensures SamePending(RouteTo(whole, line, id).pending, RouteTo(part, line, id).pending, side)
  {
  }

  /** The entry that is touched last is the most recent on both sides. */
  lemma KeptLineOrder(whole: State, part: State, line: Line, id: Id)
    requires SameOrder(whole.pending, part.pending) && Ahead(whole) && Ahead(part)
    requires id in whole.pending && id in part.pending
    ensures SameOrder(RouteTo(whole, line, id).pending, RouteTo(part, line, id).pending)
  {
    forall a, b
      ensures RankedAlike(RouteTo(whole, line, id).pending, RouteTo(part, line, id).pending, a, b)
    {
      assert RankedAlike(whole.pending, part.pending, a, b);
    }
  }

  lemma KeptRegistrationPending(whole: State, part: State, side: Side, id: Id, kind: string, runId: Option<Id>)
    requires RunsSeparated(whole.pending, side) && SamePending(whole.pending, part.pending, side)
    requires id in side.requests && (runId.Some? ==> runId.value in side.runs)
    ensures RunsSeparated(AddResponse(whole, id, kind, runId).pending, side)
    ensures SamePending(AddResponse(whole, id, kind, runId).pending, AddResponse(part, id, kind, runId).pending, side)
  {
  }

  lemma KeptRegistrationOrder(whole: State, part: State, id: Id, kind: string, runId: Option<Id>)
    requires SameOrder(whole.pending, part.pending) && Ahead(whole) && Ahead(part)
    ensures SameOrder(AddResponse(whole, id, kind, runId).pending, AddResponse(part, id, kind, runId).pending)
  {
    forall a, b
      ensures RankedAlike(AddResponse(whole, id, kind, runId).pending, AddResponse(part, id, kind, runId).pending, a, b)
    {
      assert RankedAlike(whole.pending, part.pending, a, b);
      assert RankedAlike(whole.pending, part.pending, a, a) && RankedAlike(whole.pending, part.pending, b, b);
    }
  }

  lemma ForeignEntry(whole: Table, part: Table, side: Side, id: Id, w: Response)
    requires RunsSeparated(whole, side) && SamePending(whole, part, side) && SameOrder(whole, part)
    requires id !in side.requests && (w.runId.Some? ==> w.runId.value !in side.runs)
    ensures RunsSeparated(whole[id := w], side)
    ensures SamePending(whole[id := w], part, side) && SameOrder(whole[id := w], part)
  {
    assert id !in part;
    var whole' := whole[id := w];
    forall a, b
      ensures RankedAlike(whole', part, a, b)
    {
      assert RankedAlike(whole, part, a, b);
    }
  }

  lemma StreamsAfterKept(whole: State, part: State, side: Side, line: Line)
    requires SamePending(whole.pending, part.pending, side) && OnSide(line, side, true)
    requires StreamsSeparated(whole.streamOwners, side)
    requires SameStreams(whole.streamOwners, part.streamOwners, side)
    ensures StreamsSeparated(ClaimStream(whole, line), side)
    ensures SameStreams(ClaimStream(whole, line), ClaimStream(part, line), side)
  {
  }

  lemma StreamsAfterForeign(whole: State, part: State, side: Side, line: Line)
    requires OnSide(line, side, false) && StreamsSeparated(whole.streamOwners, side)
    requires SameStreams(whole.streamOwners, part.streamOwners, side)
    ensures StreamsSeparated(ClaimStream(whole, line), side)
    ensures SameStreams(ClaimStream(whole, line), part.streamOwners, side)
  {
  }

  lemma KeptLine(whole: State, part: State, side: Side, line: Line, id: Id)
    requires Simulates(whole, part, side) && Ahead(whole) && Ahead(part)
    requires OnSide(line, side, true) && id in part.pending
    ensures Simulates(RouteTo(whole, line, id), RouteTo(part, line, id), side)
  {
    KeptLinePending(whole, part, side, line, id);
    KeptLineOrder(whole, part, line, id);
    StreamsAfterKept(whole, part, side, line);
  }

  lemma KeptRegistration(whole: State, part: State, side: Side, id: Id, kind: string, runId: Option<Id>)
    requires Simulates(whole, part, side) && Ahead(whole) && Ahead(part)
    requires id in side.requests && (runId.Some? ==> runId.value in side.runs)
    ensures Simulates(AddResponse(whole, id, kind, runId), AddResponse(part, id, kind, runId), side)
  {
    KeptRegistrationPending(whole, part, side, id, kind, runId);
    KeptRegistrationOrder(whole, part, id, kind, runId);
  }

  lemma ForeignLine(whole: State, part: State, side: Side, line: Line, id: Id)
    requires Simulates(whole, part, side) && OnSide(line, side, false)
    requires id in whole.pending && id !in side.requests
    ensures Simulates(RouteTo(whole, line, id), part, side)
  {
    ForeignEntry(whole.pending, part.pending, side, id, Receive(whole.pending[id], line, whole.lineOrder + 1));
    StreamsAfterForeign(whole, part, side, line);
  }

  lemma ForeignRegistration(whole: State, part: State, side: Side, id: Id, kind: string, runId: Option<Id>)
    requires Simulates(whole, part, side) && id !in side.requests
    requires runId.Some? ==> runId.value !in side.runs
    ensures Simulates(AddResponse(whole, id, kind, runId), part, side)
  {
    ForeignEntry(whole.pending, part.pending, side, id, NewResponse(id, kind, runId, whole.registrations + 1));
  }

  lemma KeptRemoval(whole: State, part: State, side: Side, id: Id)
    requires Related(whole, part, side) && id in side.requests
    ensures Simulates(Remove(whole, id), Remove(part, id), side)
  {
    forall a, b
      ensures RankedAlike(Remove(whole, id).pending, Remove(part, id).pending, a, b)
    {
      assert RankedAlike(whole.pending, part.pending, a, b);
    }
  }

  lemma ForeignRemoval(whole: State, part: State, side: Side, id: Id)
    requires Related(whole, part, side) && id !in side.requests
    ensures Simulates(Remove(whole, id), part, side)
  {
    forall a, b
      ensures RankedAlike(Remove(whole, id).pending, part.pending, a, b)
    {
      assert RankedAlike(whole.pending, part.pending, a, b);
    }
  }

  lemma KeptStep(whole: State, part: State, side: Side, op: Op)
    requires Related(whole, part, side) && Consistent(op, side) && Keeps(op, side)
    ensures Related(Step(whole, op), Step(part, op), side)
  {
    StepKeepsInv(whole, op);
    StepKeepsInv(part, op);
    match op
    case Register(id, kind, runId) => KeptRegistration(whole, part, side, id, kind, runId);
    case Deliver(line) =>
      MatchedAgrees(whole, part, side, line);
      MatchedStaysOnSide(whole, side, line, true);
      if Matched(whole, line).Some? {
        KeptLine(whole, part, side, line, Matched(whole, line).value);
      }
    case Finish(id) => KeptRemoval(whole, part, side, id);
    case Cancel(id) => KeptRemoval(whole, part, side, id);
  }

  lemma ForeignStep(whole: State, part: State, side: Side, op: Op)
    requires Related(whole, part, side) && Consistent(op, side) && !Keeps(op, side)
    ensures Related(Step(whole, op), part, side)
  {
    StepKeepsInv(whole, op);
    match op
    case Register(id, kind, runId) => ForeignRegistration(whole, part, side, id, kind, runId);
    case Deliver(line) =>
      MatchedStaysOnSide(whole, side, line, false);
      if Matched(whole, line).Some? {
        ForeignLine(whole, part, side, line, Matched(whole, line).value);
      }
    case Finish(id) => ForeignRemoval(whole, part, side, id);
    case Cancel(id) => ForeignRemoval(whole, part, side, id);
  }

  /** The kept side of any run is the run of the kept side alone. */
  lemma {:induction false} OtherRequestsAreInvisible(ops: seq<Op>, side: Side)
    requires forall i :: 0 <= i < |ops| ==> Consistent(ops[i], side)
    ensures Related(Run(ops), Run(Project(ops, side)), side)
  {
    if ops != [] {
      var n := |ops| - 1;
      var before, op := ops[..n], ops[n];
      assert forall i :: 0 <= i < n ==> before[i] == ops[i];
      OtherRequestsAreInvisible(before, side);
      var kept := Project(before, side);
      if Keeps(op, side) {
        KeptStep(Run(before), Run(kept), side, op);
        assert (kept + [op])[..|kept|] == kept;
      } else {
        ForeignStep(Run(before), Run(kept), side, op);
        assert kept + [] == kept;
      }
    }
  }

  /** What the callers of kept requests observe, spelled out. */
  lemma IsolatedRequestSeesOnlyItsOwnTraffic(ops: seq<Op>, side: Side, id: Id)
    requires forall i :: 0 <= i < |ops| ==> Consistent(ops[i], side)
    requires id in side.requests
    ensures id in Run(ops).pending <==> id in Run(Project(ops, side)).pending
    ensures id in Run(ops).pending ==>
              var mixed, alone := Run(ops).pending[id], Run(Project(ops, side)).pending[id];
              mixed.lines == alone.lines
              && mixed.sawRequestEvent == alone.sawRequestEvent
              && mixed.isComplete == alone.isComplete
  {
    OtherRequestsAreInvisible(ops, side);
  }
}
