/**
 The pending-response table of the engine daemon session, as a state machine.

 Lines arrive as decoded tags; `RouterSelection` shows that the Swift selection over dictionary
 values computes `Owner`, and `EngineRouter` is the class that runs this machine in place.
 */
module RouterState {
  import opened Options
  import opened LineSplitter

  type Id = string

  /** The stream-frame part of a decoded line; only `opened` frames carry request and run ids. */
  datatype Frame = Frame(requestId: Option<Id>, runId: Option<Id>, streamId: Id)
  /** The engine-event part of a decoded line. */
  datatype EngineEvent = EngineEvent(requestId: Option<Id>, isTerminal: bool)

  /** What the JSON decoders made of one line; each of them may fail independently. */
  datatype Decoded = Decoded(
    engine: Option<EngineEvent>,
    frame: Option<Frame>,
    acceptedRequestId: Option<Id>,
    tickRequestId: Option<Id>,
    executionRunId: Option<Id>)

  /** One line with the tags the router looks at. */
  datatype Line = Line(text: Bytes, requestId: Option<Id>, isTerminal: bool, runId: Option<Id>, streamId: Option<Id>)

  function Tag(text: Bytes, d: Decoded): Line {
    var engineId := if d.engine.Some? then d.engine.value.requestId else None;
    var frameId := if d.frame.Some? then d.frame.value.requestId else None;
    var frameRun := if d.frame.Some? then d.frame.value.runId else None;
    Line(
      text,
      OrElse(engineId, OrElse(frameId, OrElse(d.acceptedRequestId, d.tickRequestId))),
      d.engine.Some? && d.engine.value.isTerminal,
      OrElse(d.executionRunId, frameRun),
      if d.frame.Some? then Some(d.frame.value.streamId) else None)
  }

  datatype Response = Response(
    requestId: Id,
    kind: string,
    runId: Option<Id>,
    registeredAt: nat,
    lastLineOrder: nat,
    lines: seq<Bytes>,
    sawRequestEvent: bool,
    isComplete: bool)

  datatype State = State(
    pending: map<Id, Response>,
    streamOwners: map<Id, Id>,
    registrations: nat,
    lineOrder: nat)

  const EMPTY := State(map[], map[], 0, 0)
  const RUN_START := "run_start"

  datatype Op =
    | Register(id: Id, kind: string, runId: Option<Id>)
    | Deliver(line: Line)
    | Finish(id: Id)
    | Cancel(id: Id)

  // ---- Who owns an otherwise untagged line of a run --------------------------------------------

  predicate InRun(r: Response, run: Id) {
    r.runId == Some(run)
  }

  /** Some request of the run has been answered at least once. */
  ghost predicate SomeAccepted(pending: map<Id, Response>, run: Id) {
    exists id :: id in pending && InRun(pending[id], run) && pending[id].sawRequestEvent
  }

  ghost predicate SomeRunStart(pending: map<Id, Response>, run: Id) {
    exists id :: id in pending && InRun(pending[id], run) && pending[id].kind == RUN_START
  }

  /**
   The recency rule: the accepted request that received a line most recently; before any is
   accepted, the oldest `run_start`; before that, the oldest request of the run.
   */
  ghost predicate IsOwner(pending: map<Id, Response>, run: Id, id: Id) {
    && id in pending
    && var r := pending[id];
    && InRun(r, run)
    && if SomeAccepted(pending, run) then
         r.sawRequestEvent
         && forall o :: o in pending && InRun(pending[o], run) && pending[o].sawRequestEvent
                        ==> pending[o].lastLineOrder <= r.lastLineOrder
       else if SomeRunStart(pending, run) then
         r.kind == RUN_START
         && forall o :: o in pending && InRun(pending[o], run) && pending[o].kind == RUN_START
                        ==> r.registeredAt <= pending[o].registeredAt
       else
         forall o :: o in pending && InRun(pending[o], run) ==> r.registeredAt <= pending[o].registeredAt
  }

  ghost function Owner(pending: map<Id, Response>, run: Id): (owner: Option<Id>)
    ensures owner.Some? ==> IsOwner(pending, run, owner.value)
  {
    if exists id :: IsOwner(pending, run, id) then
      var id :| IsOwner(pending, run, id);
      Some(id)
    else None
  }

  // ---- The transitions ---------------------------------------------------------------------------

  /** Request id first, then the owner of the stream, then the owner of the run. */
  ghost function Matched(st: State, line: Line): (matched: Option<Id>)
    ensures matched.Some? ==> matched.value in st.pending
  {
    if line.requestId.Some? && line.requestId.value in st.pending then
      line.requestId
    else if line.streamId.Some? && line.streamId.value in st.streamOwners
            && st.streamOwners[line.streamId.value] in st.pending then
      Some(st.streamOwners[line.streamId.value])
    else if line.runId.Some? then
      Owner(st.pending, line.runId.value)
    else None
  }

  /** A terminal marker for this very request closes it and is not stored; anything else is stored. */
  function Receive(r: Response, line: Line, order: nat): Response {
    var mine := line.requestId == Some(r.requestId);
    if line.isTerminal && mine then
      r.(isComplete := true, sawRequestEvent := true, lastLineOrder := order)
    else
      r.(lines := r.lines + [line.text], sawRequestEvent := r.sawRequestEvent || mine, lastLineOrder := order)
  }

  function ClaimStream(st: State, line: Line): map<Id, Id> {
    if line.streamId.Some? && line.requestId.Some? && line.requestId.value in st.pending
    then st.streamOwners[line.streamId.value := line.requestId.value]
    else st.streamOwners
  }

  function NewResponse(id: Id, kind: string, runId: Option<Id>, order: nat): Response {
    Response(id, kind, runId, order, 0, [], false, false)
  }

  function AddResponse(st: State, id: Id, kind: string, runId: Option<Id>): State {
    var order := st.registrations + 1;
    st.(pending := st.pending[id := NewResponse(id, kind, runId, order)], registrations := order)
  }

  function WithoutOwner(owners: map<Id, Id>, id: Id): map<Id, Id> {
    map s | s in owners && owners[s] != id :: owners[s]
  }

  function Remove(st: State, id: Id): State {
    st.(pending := st.pending - {id}, streamOwners := WithoutOwner(st.streamOwners, id))
  }

  /** Store the line with request `id`, stamped with the next line order. */
  function RouteTo(st: State, line: Line, id: Id): State
    requires id in st.pending
  {
    var order := st.lineOrder + 1;
    State(
      st.pending[id := Receive(st.pending[id], line, order)],
      ClaimStream(st, line),
      st.registrations,
      order)
  }

  ghost function Route(st: State, line: Line): State {
    match Matched(st, line)
    case None => st
    case Some(id) => RouteTo(st, line, id)
  }

  ghost function Step(st: State, op: Op): State {
    match op
    case Register(id, kind, runId) => AddResponse(st, id, kind, runId)
    case Deliver(line) => Route(st, line)
    case Finish(id) => Remove(st, id)
    case Cancel(id) => Remove(st, id)
  }

  /** The state after a whole history, from an empty router. */
  ghost function Run(ops: seq<Op>): State {
    if ops == [] then EMPTY else Step(Run(ops[..|ops| - 1]), ops[|ops| - 1])
  }

  // ---- What every reachable state satisfies ------------------------------------------------------

  ghost predicate NumberedApart(pending: map<Id, Response>, a: Id, b: Id) {
    a in pending && b in pending && a != b ==>
      && pending[a].registeredAt != pending[b].registeredAt
      && (pending[a].lastLineOrder > 0 ==> pending[a].lastLineOrder != pending[b].lastLineOrder)
  }

  ghost predicate OrdersDistinct(pending: map<Id, Response>) {
    forall a, b :: NumberedApart(pending, a, b)
  }

  ghost predicate ResponseOk(st: State, id: Id, r: Response) {
    && r.requestId == id
    && 0 < r.registeredAt <= st.registrations
    && r.lastLineOrder <= st.lineOrder
    && (r.sawRequestEvent ==> r.lastLineOrder > 0)
    && (r.isComplete ==> r.sawRequestEvent)
  }

  ghost predicate Inv(st: State) {
    && (forall id :: id in st.pending ==> ResponseOk(st, id, st.pending[id]))
    && OrdersDistinct(st.pending)
    && (forall s :: s in st.streamOwners ==> st.streamOwners[s] in st.pending)
  }

  /** Under the invariant a run has at most one owner, so the recency tie-break never decides. */
  lemma OwnerIsUnique(st: State, run: Id, a: Id, b: Id)
    requires Inv(st) && IsOwner(st.pending, run, a) && IsOwner(st.pending, run, b)
    ensures a == b
  {
    assert NumberedApart(st.pending, a, b);
    if SomeAccepted(st.pending, run) {
      assert st.pending[a].lastLineOrder == st.pending[b].lastLineOrder;
    } else {
      assert st.pending[a].registeredAt == st.pending[b].registeredAt;
    }
  }

  lemma StepKeepsInv(st: State, op: Op)
    requires Inv(st)
    ensures Inv(Step(st, op))
  {
    forall a, b
      ensures NumberedApart(Step(st, op).pending, a, b)
    {
      assert NumberedApart(st.pending, a, b);
    }
  }

  lemma {:induction false} RunKeepsInv(ops: seq<Op>)
    ensures Inv(Run(ops))
  {
    if ops != [] {
      RunKeepsInv(ops[..|ops| - 1]);
      StepKeepsInv(Run(ops[..|ops| - 1]), ops[|ops| - 1]);
    }
  }
}
