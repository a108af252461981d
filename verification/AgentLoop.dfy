/**
 The agentic tool loop as a machine: every cancellation check, emitted event, planned write, apply
 and counter of `run_agentic_loop_inner`, for any driver, gateway, writer and cancellation signal.
 */
module AgentLoop {
  import opened Options
  import opened WorkspacePaths
  import opened PatchContract
  import opened AgentGateway
  import opened JsonValues

  datatype AgentStep =
    | Tools(calls: seq<ToolCall>)
    | Final(text: string)
    | FailedStep(code: string, message: string)

  datatype RunState = Completed | Failed | Cancelled

  /** Which exit a run took; bookkeeping for the properties only. */
  datatype Ending = ByFinalAnswer | ByNoOps | ByDriverFailure | ByWriterError | ByBudget | ByCancellation

  datatype Proposal = Proposal(step: nat, writes: seq<PlannedWrite>)

  /** Failed tool calls and cancellations are both warnings. */
  datatype EventKind =
    | PlanUpdated(calls: nat)
    | ToolCallStarted(tool: Tool)
    | ToolCallCompleted(planned: bool)
    | ImageArtifactCreated(assetId: string)
    | Warning(message: string)
    | FilePatchProposed(files: nat)
    | FilePatchApplied(applied: bool)
    | AssistantTextCompleted(text: string)
    | ErrorReported(code: string, message: string)

  datatype Event = Event(sequence: nat, kind: EventKind)

  datatype RunOutcome = RunOutcome(
    text: string,
    patches: seq<Proposal>,
    applies: seq<ApplyResult>,
    finalState: RunState)

  /** Everything around the loop.  The driver sees all observation lists handed to it so far. */
  datatype World = World(
    driver: seq<seq<ToolResult>> -> AgentStep,
    gateway: Gateway,
    writer: (nat, Files, seq<PlannedWrite>) -> (Outcome, Files),
    cancelled: nat -> bool)

  /** What kind of step a finished loop step was; bookkeeping for the properties only. */
  datatype StepKind = EmptyStep | NoOpOnly | Patched(applied: bool) | OtherStep

  /** What has been emitted, and the number of the next event. */
  datatype Trace = Trace(sink: seq<Event>, sequence: nat)

  /** What may have changed the workspace: an executed call, or an applied patch. */
  datatype Change = ByCall(tick: nat, call: ToolCall) | ByPatch(writes: seq<PlannedWrite>)

  /** The workspace and what has been done to it; `changes` is bookkeeping for the properties only. */
  datatype Books = Books(
    files: Files,
    patches: seq<Proposal>,
    applies: seq<ApplyResult>,
    hadApply: bool,
    changes: seq<Change>)

  predicate SamePatches(a: Books, b: Books) {
    a.patches == b.patches && a.applies == b.applies && a.hadApply == b.hadApply
  }

  /** Steps finished so far: the no-op counter, the observation lists handed to the driver, the kinds. */
  datatype Progress = Progress(noopSteps: nat, fed: seq<seq<ToolResult>>, log: seq<StepKind>)

  /** `looks` numbers the cancellation checks, `ticks` the executed calls. */
  datatype Machine = Machine(trace: Trace, books: Books, progress: Progress, looks: nat, ticks: nat)

  function Start(files: Files): Machine {
    Machine(Trace([], 0), Books(files, [], [], false, []), Progress(0, [[]], []), 0, 0)
  }

  function Record(t: Trace, kind: EventKind): Trace {
    Trace(t.sink + [Event(t.sequence, kind)], t.sequence + 1)
  }

  function Emit(m: Machine, kind: EventKind): Machine {
    m.(trace := Record(m.trace, kind))
  }

  /** One look at the cancellation token. */
  function Look(m: Machine): Machine {
    m.(looks := m.looks + 1)
  }

  datatype Finished = Finished(machine: Machine, ending: Ending, outcome: RunOutcome)

  /** Emit the last event and return. */
  function Leave(m: Machine, ending: Ending, last: EventKind, text: string, state: RunState): Finished {
    Finished(Emit(m, last), ending, RunOutcome(text, m.books.patches, m.books.applies, state))
  }

  const CANCELLED_TEXT := "Turn cancelled before the next model/tool step."

  /** `cancelled_outcome` */
  function Cancel(m: Machine): Finished {
    Leave(m, ByCancellation, Warning(CANCELLED_TEXT), CANCELLED_TEXT, Cancelled)
  }

  const NOOP_TEXT := "No further file changes were needed; the proposed edits already match the workspace."

  // ---- One call ---------------------------------------------------------------------------------------

  /** The state of a step while its calls run. */
  datatype Tally = Tally(
    machine: Machine,
    nextObs: seq<ToolResult>,
    planned: seq<PlannedWrite>,
    writeCalls: nat,
    noopWrites: nat,
    otherCalls: nat)

  function Observe(t: Tally, m: Machine, result: ToolResult): Tally {
    t.(machine := m, nextObs := t.nextObs + [result], otherCalls := t.otherCalls + 1)
  }

  function RunCall(w: World, t: Tally, call: ToolCall): Tally {
    var books, tick := t.machine.books, t.machine.ticks;
    var (execution, files) := Execute(w.gateway, books.files, tick, call);
    var m := Emit(t.machine, ToolCallStarted(call.tool))
             .(ticks := tick + 1, books := books.(files := files, changes := books.changes + [ByCall(tick, call)]));
    match execution
    case Err(message) => Observe(t, Emit(m, Warning(message)), ToolResult.Failed(ToolName(call.tool), message))
    case Ok(Read(result)) => Observe(t, Emit(m, ToolCallCompleted(false)), result)
    case Ok(ImageArtifact(assetId)) =>
      Observe(t, Emit(Emit(m, ToolCallCompleted(false)), ImageArtifactCreated(assetId)),
              ToolOutput("image.generate", assetId))
    case Ok(ImageInspection(summary)) =>
      Observe(t, Emit(m, ToolCallCompleted(false)), ToolOutput("image.inspect", summary))
    case Ok(PlannedWriteReceipt(write)) =>
      if write.expectedBefore == write.after then
        t.(machine := Emit(m, ToolCallCompleted(false)),
           nextObs := t.nextObs + [Wrote(write.path, false, None)],
           writeCalls := t.writeCalls + 1,
           noopWrites := t.noopWrites + 1)
      else
        t.(machine := Emit(m, ToolCallCompleted(true)),
           planned := t.planned + [write],
           writeCalls := t.writeCalls + 1)
  }

  datatype Calls = AllRan(tally: Tally) | Interrupted(machine: Machine)

  function RunCalls(w: World, t: Tally, calls: seq<ToolCall>): Calls
    decreases |calls|
  {
    if calls == [] then AllRan(t)
    else if w.cancelled(t.machine.looks) then Interrupted(Look(t.machine))
    else RunCalls(w, RunCall(w, t.(machine := Look(t.machine)), calls[0]), calls[1..])
  }

  // ---- One step ---------------------------------------------------------------------------------------

  datatype Next = Continue(machine: Machine) | Stop(finished: Finished)

  function WroteAll(writes: seq<PlannedWrite>, result: ApplyResult): (r: seq<ToolResult>)
    ensures |r| == |writes|
  {
    seq(|writes|, i requires 0 <= i < |writes| => Wrote(writes[i].path, result.applied, Some(result.reason)))
  }

  /** What became of the step's planned writes; no result when there were none. */
  datatype Landing = Landed(machine: Machine, result: Option<ApplyResult>) | Ended(finished: Finished)

  /** Propose and apply what the step planned, unless it planned nothing. */
  function ApplyPlanned(w: World, t: Tally, step: nat): Landing {
    var m := t.machine;
    if t.planned == [] then Landed(m, None)
    else if w.cancelled(m.looks) then Ended(Cancel(Look(m)))
    else
      var proposed := Emit(Look(m), FilePatchProposed(|t.planned|));
      var (outcome, files) := w.writer(step, m.books.files, t.planned);
      match outcome
      case Refused(message) =>
        Ended(Leave(proposed.(books := m.books.(files := files)), ByWriterError,
                    ErrorReported("agentic_patch_apply_failed", message), message, RunState.Failed))
      case Answered(result) =>
        Landed(
          Emit(proposed, FilePatchApplied(result.applied))
          .(books := Applying(m.books, files, Proposal(step, t.planned), result)),
          Some(result))
  }

  function Applying(b: Books, files: Files, proposal: Proposal, result: ApplyResult): Books {
    Books(files, b.patches + [proposal], b.applies + [result], b.hadApply || result.applied,
          if result.applied then b.changes + [ByPatch(proposal.writes)] else b.changes)
  }

  predicate NoOpOnlyStep(t: Tally) {
    t.writeCalls > 0 && t.noopWrites == t.writeCalls && t.planned == [] && t.otherCalls == 0
  }

  function KindOf(t: Tally, result: Option<ApplyResult>): StepKind {
    if NoOpOnlyStep(t) then NoOpOnly
    else if result.Some? then Patched(result.value.applied)
    else OtherStep
  }

  /** The no-op short circuit, then the observations for the next step. */
  function FinishStep(t: Tally, m: Machine, result: Option<ApplyResult>): Next {
    var noops := if NoOpOnlyStep(t) then m.progress.noopSteps + 1 else 0;
    var log := m.progress.log + [KindOf(t, result)];
    if m.books.hadApply && noops >= 2 then
      Stop(Leave(m.(progress := m.progress.(noopSteps := noops, log := log)), ByNoOps,
                 AssistantTextCompleted(NOOP_TEXT), NOOP_TEXT, Completed))
    else
      var observations := if result.None? then t.nextObs else t.nextObs + WroteAll(t.planned, result.value);
      Continue(m.(progress := Progress(noops, m.progress.fed + [observations], log)))
  }

  function RunTools(w: World, m: Machine, step: nat, calls: seq<ToolCall>): Next {
    if calls == [] then
      Continue(m.(progress := m.progress.(fed := m.progress.fed + [[]], log := m.progress.log + [EmptyStep])))
    else
      match RunCalls(w, Tally(Emit(m, PlanUpdated(|calls|)), [], [], 0, 0, 0), calls)
      case Interrupted(stopped) => Stop(Cancel(stopped))
      case AllRan(t) =>
        match ApplyPlanned(w, t, step)
        case Ended(finished) => Stop(finished)
        case Landed(landed, result) => FinishStep(t, landed, result)
  }

  function RunStep(w: World, m: Machine, step: nat): Next {
    if w.cancelled(m.looks) then Stop(Cancel(Look(m)))
    else
      var decision := w.driver(m.progress.fed);
      var asked := Look(m);
      if w.cancelled(asked.looks) then Stop(Cancel(Look(asked)))
      else
        match decision
        case FailedStep(code, message) =>
          Stop(Leave(Look(asked), ByDriverFailure, ErrorReported(code, message), message, RunState.Failed))
        case Final(text) => Stop(Leave(Look(asked), ByFinalAnswer, AssistantTextCompleted(text), text, Completed))
        case Tools(calls) => RunTools(w, Look(asked), step, calls)
  }

  // ---- The whole run ------------------------------------------------------------------------------------

  function Budget(maxSteps: nat): nat {
    if maxSteps < 1 then 1 else maxSteps
  }

  function BudgetText(budget: nat): string {
    "The agent exhausted its " + Decimal(budget) + "-step budget before producing a final answer."
  }

  function OutOfBudget(m: Machine, budget: nat): Finished {
    var text := BudgetText(budget);
    Leave(m, ByBudget, ErrorReported("agentic_step_budget_exhausted", text), text, RunState.Failed)
  }

  function RunFrom(w: World, m: Machine, step: nat, budget: nat): Finished
    requires step <= budget
    decreases budget - step
  {
    if step == budget then OutOfBudget(m, budget)
    else
      match RunStep(w, m, step)
      case Stop(finished) => finished
      case Continue(next) => RunFrom(w, next, step + 1, budget)
  }

  function RunLoop(w: World, files: Files, maxSteps: nat): Finished {
    RunFrom(w, Start(files), 0, Budget(maxSteps))
  }
}
