/** The grammar of the emitted event trace, and that every run of the loop speaks it. */
module LoopTrace {
  import opened Options
  import opened PatchContract
  import opened AgentGateway
  import opened AgentLoop

  /**
   Where a reader of the trace is.  `InBlock` counts the announced calls still to come and the
   writes planned so far; `recent` says the last call may still announce an image artifact.  A
   warning right after a call has started is that call's failure; anywhere else it closes the run.
   */
  datatype Phase =
    | Between
    | InBlock(left: nat, planned: nat, recent: bool)
    | Calling(left: nat, planned: nat)
    | Proposed
    | Closed(state: RunState, text: string)
    | Malformed

  predicate BlockDone(p: Phase) {
    p.Between? || (p.InBlock? && p.left == 0 && p.planned == 0)
  }

  function Read(p: Phase, kind: EventKind): Phase {
    match kind
    case PlanUpdated(calls) =>
      if BlockDone(p) && calls > 0 then InBlock(calls, 0, false) else Malformed
    case ToolCallStarted(_) =>
      if p.InBlock? && p.left > 0 then Calling(p.left, p.planned) else Malformed
    case ToolCallCompleted(planned) =>
      if p.Calling? && p.left > 0
      then InBlock(p.left - 1, p.planned + (if planned then 1 else 0), !planned) else Malformed
    case Warning(message) =>
      if p.Calling? && p.left > 0 then InBlock(p.left - 1, p.planned, false)
      else if p.Between? || p.InBlock? then Closed(Cancelled, message)
      else Malformed
    case ImageArtifactCreated(_) =>
      if p.InBlock? && p.recent then InBlock(p.left, p.planned, false) else Malformed
    case FilePatchProposed(files) =>
      if p.InBlock? && p.left == 0 && p.planned > 0 && files == p.planned then Proposed else Malformed
    case FilePatchApplied(_) =>
      if p.Proposed? then Between else Malformed
    case AssistantTextCompleted(text) =>
      if BlockDone(p) then Closed(RunState.Completed, text) else Malformed
    case ErrorReported(_, message) =>
      if BlockDone(p) || p.Proposed? then Closed(RunState.Failed, message) else Malformed
  }

  function Parse(events: seq<Event>): Phase {
    if events == [] then Between else Read(Parse(events[..|events| - 1]), events[|events| - 1].kind)
  }

  predicate Numbered(events: seq<Event>) {
    forall i :: 0 <= i < |events| ==> events[i].sequence == i
  }

  /** The machine's counter is the length of what it has emitted, and the trace so far reads as `p`. */
  ghost predicate At(t: Trace, p: Phase) {
    t.sequence == |t.sink| && Numbered(t.sink) && Parse(t.sink) == p
  }

  lemma RecordReads(t: Trace, kind: EventKind, p: Phase)
    requires At(t, p)
    ensures At(Record(t, kind), Read(p, kind))
  {
    assert Record(t, kind).sink[..|t.sink|] == t.sink;
  }

  /** Inside a block, with `left` calls to come and `planned` writes so far. */
  ghost predicate Inside(t: Trace, left: nat, planned: nat) {
    At(t, InBlock(left, planned, true)) || At(t, InBlock(left, planned, false))
  }

  ghost predicate Midway(t: Trace) {
    exists left, planned :: Inside(t, left, planned)
  }

  ghost predicate InStep(t: Tally, left: nat) {
    Inside(t.machine.trace, left, |t.planned|)
  }

  /** How one call shows in the trace. */
  datatype CallEvents = Warned(message: string) | Ended(planned: bool) | Drawn(assetId: string)

  function EventsOf(execution: Execution): CallEvents {
    match execution
    case Err(message) => Warned(message)
    case Ok(ImageArtifact(id)) => Drawn(id)
    case Ok(PlannedWriteReceipt(w)) => CallEvents.Ended(w.expectedBefore != w.after)
    case Ok(_) => CallEvents.Ended(false)
  }

  function CallTrace(t: Trace, tool: Tool, events: CallEvents): Trace {
    var started := Record(t, ToolCallStarted(tool));
    match events
    case Warned(message) => Record(started, Warning(message))
    case Ended(planned) => Record(started, ToolCallCompleted(planned))
    case Drawn(id) => Record(Record(started, ToolCallCompleted(false)), ImageArtifactCreated(id))
  }

  function PlannedBy(events: CallEvents): nat {
    if events.Ended? && events.planned then 1 else 0
  }

  lemma StartReads(t: Trace, tool: Tool, left: nat, planned: nat)
    requires Inside(t, left + 1, planned)
    ensures At(Record(t, ToolCallStarted(tool)), Calling(left + 1, planned))
  {
    RecordReads(t, ToolCallStarted(tool), Parse(t.sink));
  }

  lemma CallTraceReads(t: Trace, tool: Tool, events: CallEvents, left: nat, planned: nat)
    requires Inside(t, left + 1, planned)
    ensures Inside(CallTrace(t, tool, events), left, planned + PlannedBy(events))
  {
    StartReads(t, tool, left, planned);
    var started := Record(t, ToolCallStarted(tool));
    match events
    case Warned(message) => RecordReads(started, Warning(message), Calling(left + 1, planned));
    case Ended(p) => RecordReads(started, ToolCallCompleted(p), Calling(left + 1, planned));
    case Drawn(id) => DrawnReads(started, id, left, planned);
  }

  lemma DrawnReads(started: Trace, id: string, left: nat, planned: nat)
    requires At(started, Calling(left + 1, planned))
    ensures Inside(Record(Record(started, ToolCallCompleted(false)), ImageArtifactCreated(id)), left, planned)
  {
    RecordReads(started, ToolCallCompleted(false), Calling(left + 1, planned));
    RecordReads(Record(started, ToolCallCompleted(false)), ImageArtifactCreated(id), InBlock(left, planned, true));
  }

  lemma CallReads(w: World, t: Tally, call: ToolCall, left: nat)
    requires InStep(t, left + 1)
    ensures InStep(RunCall(w, t, call), left)
  {
    var events := EventsOf(Execute(w.gateway, t.machine.books.files, t.machine.ticks, call).0);
    CallEmits(w, t, call);
    CallTraceReads(t.machine.trace, call.tool, events, left, |t.planned|);
  }

  lemma CallEmits(w: World, t: Tally, call: ToolCall)
    ensures var events := EventsOf(Execute(w.gateway, t.machine.books.files, t.machine.ticks, call).0);
            && RunCall(w, t, call).machine.trace == CallTrace(t.machine.trace, call.tool, events)
            && |RunCall(w, t, call).planned| == |t.planned| + PlannedBy(events)
  {
  }

  /** Running the calls of a step consumes exactly the announced calls, or stops between two of them. */
  lemma {:induction false} CallsRead(w: World, t: Tally, calls: seq<ToolCall>)
    requires InStep(t, |calls|)
    ensures match RunCalls(w, t, calls)
            case AllRan(done) => InStep(done, 0)
            case Interrupted(m) => Midway(m.trace)
    decreases |calls|
  {
    if calls == [] {
    } else if w.cancelled(t.machine.looks) {
      assert RunCalls(w, t, calls) == Interrupted(Look(t.machine));
      assert Midway(t.machine.trace);
    } else {
      var looked := t.(machine := Look(t.machine));
      CallReads(w, looked, calls[0], |calls| - 1);
      CallsRead(w, RunCall(w, looked, calls[0]), calls[1..]);
    }
  }

  /** A finished run: a numbered trace, closed by one event that tells the outcome's state and text. */
  ghost predicate WellClosed(f: Finished) {
    && At(f.machine.trace, Phase.Closed(f.outcome.finalState, f.outcome.text))
    && f.outcome.patches == f.machine.books.patches && f.outcome.applies == f.machine.books.applies
  }

  lemma LeaveReads(m: Machine, ending: Ending, last: EventKind, text: string, state: RunState, p: Phase)
    requires At(m.trace, p) && Read(p, last) == Phase.Closed(state, text)
    ensures WellClosed(Leave(m, ending, last, text, state))
  {
    RecordReads(m.trace, last, p);
  }

  /** Between two steps. */
  ghost predicate Resting(t: Trace) {
    At(t, Between) || Inside(t, 0, 0)
  }

  lemma RestingPhase(t: Trace) returns (p: Phase)
    requires Resting(t)
    ensures At(t, p) && BlockDone(p)
  {
    p := Parse(t.sink);
  }

  lemma CancelReads(m: Machine)
    requires Midway(m.trace) || Resting(m.trace)
    ensures WellClosed(Cancel(m))
  {
    LeaveReads(m, ByCancellation, Warning(CANCELLED_TEXT), CANCELLED_TEXT, Cancelled, Parse(m.trace.sink));
  }

  ghost predicate Proper(next: Next) {
    match next
    case Continue(m) => Resting(m.trace)
    case Stop(f) => WellClosed(f)
  }

  lemma ProposeReads(t: Trace, planned: nat)
    requires Inside(t, 0, planned) && planned > 0
    ensures At(Record(t, FilePatchProposed(planned)), Proposed)
    ensures forall applied :: At(Record(Record(t, FilePatchProposed(planned)), FilePatchApplied(applied)), Between)
  {
    RecordReads(t, FilePatchProposed(planned), Parse(t.sink));
    forall applied
      ensures At(Record(Record(t, FilePatchProposed(planned)), FilePatchApplied(applied)), Between)
    {
      RecordReads(Record(t, FilePatchProposed(planned)), FilePatchApplied(applied), Proposed);
    }
  }

  lemma LandingReads(w: World, t: Tally, step: nat)
    requires InStep(t, 0)
    ensures match ApplyPlanned(w, t, step)
            case Ended(f) => WellClosed(f)
            case Landed(m, result) =>
              if result.None? then t.planned == [] && m == t.machine else t.planned != [] && At(m.trace, Between)
  {
    var m := t.machine;
    if t.planned != [] {
      assert Midway(m.trace);
      CancelReads(Look(m));
      ProposeReads(m.trace, |t.planned|);
      var proposed := Emit(Look(m), FilePatchProposed(|t.planned|));
      var (outcome, files) := w.writer(step, m.books.files, t.planned);
      if outcome.Refused? {
        LeaveReads(proposed.(books := m.books.(files := files)), ByWriterError,
                    ErrorReported("agentic_patch_apply_failed", outcome.message), outcome.message,
                    RunState.Failed, Proposed);
      }
    }
  }

  lemma FinishReads(t: Tally, m: Machine, result: Option<ApplyResult>)
    requires if result.None? then t.planned == [] && m == t.machine && InStep(t, 0)
             else t.planned != [] && At(m.trace, Between)
    ensures Proper(FinishStep(t, m, result))
  {
    if result.None? {
      var log := m.progress.log + [KindOf(t, result)];
      LeaveReads(m.(progress := m.progress.(noopSteps := m.progress.noopSteps + 1, log := log)), ByNoOps,
                 AssistantTextCompleted(NOOP_TEXT), NOOP_TEXT, RunState.Completed, Parse(m.trace.sink));
    }
  }

  lemma ToolsRead(w: World, m: Machine, step: nat, calls: seq<ToolCall>)
    requires Resting(m.trace)
    ensures Proper(RunTools(w, m, step, calls))
  {
    if calls != [] {
      var p := RestingPhase(m.trace);
      RecordReads(m.trace, PlanUpdated(|calls|), p);
      var t := Tally(Emit(m, PlanUpdated(|calls|)), [], [], 0, 0, 0);
      CallsRead(w, t, calls);
      match RunCalls(w, t, calls)
      case Interrupted(stopped) =>
        CancelReads(stopped);
      case AllRan(done) =>
        LandingReads(w, done, step);
        match ApplyPlanned(w, done, step)
        case Ended(f) =>
        case Landed(landed, result) => FinishReads(done, landed, result);
    }
  }

  lemma StepReads(w: World, m: Machine, step: nat)
    requires Resting(m.trace)
    ensures Proper(RunStep(w, m, step))
  {
    var p := RestingPhase(m.trace);
    var asked := Look(Look(m));
    CancelReads(Look(m));
    CancelReads(asked);
    match w.driver(m.progress.fed)
    case FailedStep(code, message) =>
      LeaveReads(asked, ByDriverFailure, ErrorReported(code, message), message, RunState.Failed, p);
    case Final(text) =>
      LeaveReads(asked, ByFinalAnswer, AssistantTextCompleted(text), text, RunState.Completed, p);
    case Tools(calls) => ToolsRead(w, asked, step, calls);
  }

  lemma {:induction false} RunReads(w: World, m: Machine, step: nat, budget: nat)
    requires Resting(m.trace) && step <= budget
    ensures WellClosed(RunFrom(w, m, step, budget))
    decreases budget - step
  {
    if step == budget {
      var p := RestingPhase(m.trace);
      LeaveReads(m, ByBudget, ErrorReported("agentic_step_budget_exhausted", BudgetText(budget)), BudgetText(budget),
                 RunState.Failed, p);
    } else {
      StepReads(w, m, step);
      match RunStep(w, m, step)
      case Stop(_) =>
      case Continue(next) => RunReads(w, next, step + 1, budget);
    }
  }

  /**
   Every run, for every driver, gateway, writer and cancellation signal: events numbered 0..n-1,
   complete step blocks in order, and exactly one closing event, the last, matching the outcome.
   */
  lemma EveryTraceIsWellFormed(w: World, files: Files, maxSteps: nat)
    ensures WellClosed(RunLoop(w, files, maxSteps))
  {
    assert At(Start(files).trace, Between);
    RunReads(w, Start(files), 0, Budget(maxSteps));
  }

  /** Nothing can follow the event that closed a trace. */
  lemma {:induction false} ClosingIsLast(events: seq<Event>, i: nat)
    requires i <= |events| && (Parse(events[..i]).Closed? || Parse(events[..i]).Malformed?)
    ensures i < |events| ==> Parse(events).Malformed?
    ensures i == |events| ==> Parse(events) == Parse(events[..i])
  {
    if i == |events| {
      assert events[..i] == events;
    } else {
      assert events[..|events| - 1][..i] == events[..i];
      ClosingIsLast(events[..|events| - 1], i);
    }
  }

  /** An assistant text or an error in a well-formed trace is its last event. */
  lemma AnswersAndErrorsClose(events: seq<Event>, i: nat)
    requires i < |events| && (events[i].kind.AssistantTextCompleted? || events[i].kind.ErrorReported?)
    ensures Parse(events).Malformed? || (i == |events| - 1 && Parse(events).Closed?)
  {
    assert events[..i + 1][..i] == events[..i];
    ClosingIsLast(events, i + 1);
  }
}
