/**
 What a finished step tells the driver and the event sink, and what it records.

 Everything is read off the calls, what executing each of them gave, and the answer of the writer; the
 main result is that every run is a chain of such steps from its initial files to its last event.
 */
module LoopReport {
  import opened Options
  import opened PatchContract
  import opened AgentGateway
  import opened AgentLoop
  import opened JsonValues

  // ---- Executing the calls of a step ---------------------------------------------------------------------

  /** The workspace and the number of calls executed so far. */
  datatype Place = Place(files: Files, tick: nat)

  function PlaceOf(m: Machine): Place { Place(m.books.files, m.ticks) }

  function Move(g: Gateway, p: Place, call: ToolCall): Place {
    Place(Execute(g, p.files, p.tick, call).1, p.tick + 1)
  }

  function MoveAll(g: Gateway, p: Place, calls: seq<ToolCall>): Place
    decreases |calls|
  {
    if calls == [] then p else MoveAll(g, Move(g, p, calls[0]), calls[1..])
  }

  /** What calls have told the driver, planned to write and shown in the trace. */
  datatype Report = Report(told: seq<ToolResult>, planned: seq<PlannedWrite>, shown: seq<EventKind>)

  const SILENCE := Report([], [], [])

  function Join(a: Report, b: Report): Report {
    Report(a.told + b.told, a.planned + b.planned, a.shown + b.shown)
  }

  /** A failure names the tool, a result is passed on as it is, and a write is told now only if it changes nothing. */
  function ReportOf(call: ToolCall, e: Execution): Report {
    var started := ToolCallStarted(call.tool);
    match e
    case Err(message) => Report([ToolResult.Failed(ToolName(call.tool), message)], [], [started, Warning(message)])
    case Ok(Read(result)) => Report([result], [], [started, ToolCallCompleted(false)])
    case Ok(ImageArtifact(asset)) =>
      var shown := [started, ToolCallCompleted(false), ImageArtifactCreated(asset)];
      Report([ToolOutput("image.generate", asset)], [], shown)
    case Ok(ImageInspection(summary)) =>
      Report([ToolOutput("image.inspect", summary)], [], [started, ToolCallCompleted(false)])
    case Ok(PlannedWriteReceipt(w)) =>
      if w.after == w.expectedBefore then Report([Wrote(w.path, false, None)], [], [started, ToolCallCompleted(false)])
      else Report([], [w], [started, ToolCallCompleted(true)])
  }

  /** The reports of the calls, in call order, each executed on what the calls before it left. */
  function ReportAll(g: Gateway, p: Place, calls: seq<ToolCall>): Report
    decreases |calls|
  {
    if calls == [] then SILENCE
    else
      Join(ReportOf(calls[0], Execute(g, p.files, p.tick, calls[0]).0), ReportAll(g, Move(g, p, calls[0]), calls[1..]))
  }

  function Kinds(events: seq<Event>): seq<EventKind> {
    seq(|events|, i requires 0 <= i < |events| => events[i].kind)
  }

  lemma KindsSnoc(t: Trace, kind: EventKind)
    ensures Kinds(Record(t, kind).sink) == Kinds(t.sink) + [kind]
  {
  }

  // ---- One call and all calls ----------------------------------------------------------------------------

  /** The tally has grown by this report, and its workspace has moved here. */
  predicate Grew(was: Tally, now: Tally, r: Report, p: Place) {
    && now.nextObs == was.nextObs + r.told && now.planned == was.planned + r.planned
    && Kinds(now.machine.trace.sink) == Kinds(was.machine.trace.sink) + r.shown
    && PlaceOf(now.machine) == p && now.machine.progress == was.machine.progress
    && SamePatches(now.machine.books, was.machine.books)
  }

  lemma CallGrows(w: World, t: Tally, call: ToolCall)
    ensures var p := PlaceOf(t.machine);
            var r := ReportOf(call, Execute(w.gateway, p.files, p.tick, call).0);
            Grew(t, RunCall(w, t, call), r, Move(w.gateway, p, call))
  {
    var p := PlaceOf(t.machine);
    var e := Execute(w.gateway, p.files, p.tick, call).0;
    var started := Record(t.machine.trace, ToolCallStarted(call.tool));
    KindsSnoc(t.machine.trace, ToolCallStarted(call.tool));
    match e
    case Err(message) => KindsSnoc(started, Warning(message));
    case Ok(ImageArtifact(asset)) =>
      KindsSnoc(started, ToolCallCompleted(false));
      KindsSnoc(Record(started, ToolCallCompleted(false)), ImageArtifactCreated(asset));
    case Ok(PlannedWriteReceipt(write)) => KindsSnoc(started, ToolCallCompleted(write.after != write.expectedBefore));
    case Ok(_) => KindsSnoc(started, ToolCallCompleted(false));
  }

  lemma GrowsOn(a: Tally, b: Tally, c: Tally, r: Report, s: Report, p: Place, q: Place)
    requires Grew(a, b, r, p) && Grew(b, c, s, q)
    ensures Grew(a, c, Join(r, s), q)
  {
  }

  lemma {:induction false} CallsGrow(w: World, t: Tally, calls: seq<ToolCall>)
    ensures RunCalls(w, t, calls).AllRan? ==>
              var p := PlaceOf(t.machine);
              Grew(t, RunCalls(w, t, calls).tally, ReportAll(w.gateway, p, calls), MoveAll(w.gateway, p, calls))
    decreases |calls|
  {
    if calls != [] && !w.cancelled(t.machine.looks) {
      var looked := t.(machine := Look(t.machine));
      CallGrows(w, looked, calls[0]);
      CallsGrow(w, RunCall(w, looked, calls[0]), calls[1..]);
      var p := PlaceOf(t.machine);
      if RunCalls(w, t, calls).AllRan? {
        var next := Move(w.gateway, p, calls[0]);
        GrowsOn(looked, RunCall(w, looked, calls[0]), RunCalls(w, t, calls).tally,
                ReportOf(calls[0], Execute(w.gateway, p.files, p.tick, calls[0]).0),
                ReportAll(w.gateway, next, calls[1..]), next, MoveAll(w.gateway, next, calls[1..]));
      }
    }
  }

  // ---- A finished step -----------------------------------------------------------------------------------

  /** Each planned write is reported by its path, with what became of the patch and why. */
  predicate TellsWrites(told: seq<ToolResult>, planned: seq<PlannedWrite>, result: ApplyResult) {
    && |told| == |planned|
    && forall i :: 0 <= i < |told| ==> told[i] == Wrote(planned[i].path, result.applied, Some(result.reason))
  }

  predicate Adds(m: Machine, next: Machine, told: seq<ToolResult>, shown: seq<EventKind>) {
    && next.progress.fed == m.progress.fed + [told]
    && Kinds(next.trace.sink) == Kinds(m.trace.sink) + shown
  }

  /** The planned writes went to the writer as one patch, which answered with this result. */
  predicate Applies(w: World, m: Machine, next: Machine, step: nat, r: Report, announced: seq<EventKind>, files: Files,
                    result: ApplyResult, writes: seq<ToolResult>)
  {
    && w.writer(step, files, r.planned).0 == Answered(result) && w.writer(step, files, r.planned).1 == next.books.files
    && TellsWrites(writes, r.planned, result)
    && Adds(m, next, r.told + writes,
            announced + r.shown + [FilePatchProposed(|r.planned|), FilePatchApplied(result.applied)])
    && next.books.patches == m.books.patches + [Proposal(step, r.planned)]
    && next.books.applies == m.books.applies + [result]
  }

  /** The step told its calls and then its writes, showed both, and recorded the patch with its result. */
  ghost predicate Reports(w: World, m: Machine, next: Machine, step: nat, calls: seq<ToolCall>) {
    var r, end := ReportAll(w.gateway, PlaceOf(m), calls), MoveAll(w.gateway, PlaceOf(m), calls);
    var announced := if calls == [] then [] else [PlanUpdated(|calls|)];
    && next.ticks == end.tick
    && if r.planned == [] then
         Adds(m, next, r.told, announced + r.shown) && next.books.files == end.files && SamePatches(next.books, m.books)
       else
         exists result, writes :: Applies(w, m, next, step, r, announced, end.files, result, writes)
  }

  lemma LandingIs(w: World, t: Tally, step: nat)
    requires t.planned != [] && ApplyPlanned(w, t, step).Landed?
    ensures var landing := ApplyPlanned(w, t, step);
            var m, now := t.machine, landing.machine;
            && landing.result.Some?
            && w.writer(step, m.books.files, t.planned).0 == Answered(landing.result.value)
            && w.writer(step, m.books.files, t.planned).1 == now.books.files
            && Kinds(now.trace.sink)
            == Kinds(m.trace.sink) + [FilePatchProposed(|t.planned|), FilePatchApplied(landing.result.value.applied)]
            && now.books.patches == m.books.patches + [Proposal(step, t.planned)]
            && now.books.applies == m.books.applies + [landing.result.value]
            && now.progress == m.progress && now.ticks == m.ticks
  {
    var result := ApplyPlanned(w, t, step).result.value;
    KindsSnoc(t.machine.trace, FilePatchProposed(|t.planned|));
    KindsSnoc(Record(t.machine.trace, FilePatchProposed(|t.planned|)), FilePatchApplied(result.applied));
  }

  lemma FinishIs(t: Tally, m: Machine, result: Option<ApplyResult>) returns (writes: seq<ToolResult>)
    requires FinishStep(t, m, result).Continue?
    ensures if result.None? then writes == [] else TellsWrites(writes, t.planned, result.value)
    ensures var next := FinishStep(t, m, result).machine;
            && next.progress.fed == m.progress.fed + [t.nextObs + writes]
            && next.trace == m.trace && next.books == m.books && next.ticks == m.ticks
  {
    writes := if result.None? then [] else WroteAll(t.planned, result.value);
    assert t.nextObs + [] == t.nextObs;
  }

  /** The calls of a step have run and told, planned and shown this much. */
  ghost predicate Ran(w: World, m: Machine, done: Tally, calls: seq<ToolCall>) {
    var r, end := ReportAll(w.gateway, PlaceOf(m), calls), MoveAll(w.gateway, PlaceOf(m), calls);
    && done.nextObs == r.told && done.planned == r.planned
    && Kinds(done.machine.trace.sink) == Kinds(m.trace.sink) + ([PlanUpdated(|calls|)] + r.shown)
    && PlaceOf(done.machine) == end && done.machine.progress == m.progress && SamePatches(done.machine.books, m.books)
  }

  lemma CallsRan(w: World, m: Machine, calls: seq<ToolCall>)
    ensures var t := Tally(Emit(m, PlanUpdated(|calls|)), [], [], 0, 0, 0);
            RunCalls(w, t, calls).AllRan? ==> Ran(w, m, RunCalls(w, t, calls).tally, calls)
  {
    var t := Tally(Emit(m, PlanUpdated(|calls|)), [], [], 0, 0, 0);
    KindsSnoc(m.trace, PlanUpdated(|calls|));
    CallsGrow(w, t, calls);
    assert PlaceOf(t.machine) == PlaceOf(m);
    if RunCalls(w, t, calls).AllRan? {
      GrownFromNothing(t, RunCalls(w, t, calls).tally, ReportAll(w.gateway, PlaceOf(m), calls),
                       MoveAll(w.gateway, PlaceOf(m), calls));
      Regroup(Kinds(m.trace.sink), [PlanUpdated(|calls|)], ReportAll(w.gateway, PlaceOf(m), calls).shown);
    }
  }

  lemma GrownFromNothing(was: Tally, now: Tally, r: Report, p: Place)
    requires Grew(was, now, r, p) && was.nextObs == [] && was.planned == []
    ensures now.nextObs == r.told && now.planned == r.planned
  {
  }

  lemma QuietStepReports(w: World, m: Machine, done: Tally, step: nat, calls: seq<ToolCall>)
    requires calls != [] && Ran(w, m, done, calls) && done.planned == []
    requires FinishStep(done, done.machine, None).Continue?
    ensures Reports(w, m, FinishStep(done, done.machine, None).machine, step, calls)
  {
    var writes := FinishIs(done, done.machine, None);
    assert done.nextObs + [] == done.nextObs;
  }

  lemma WritingStepReports(w: World, m: Machine, done: Tally, step: nat, calls: seq<ToolCall>)
    requires calls != [] && Ran(w, m, done, calls) && done.planned != []
    requires var landing := ApplyPlanned(w, done, step);
             landing.Landed? && FinishStep(done, landing.machine, landing.result).Continue?
    ensures var landing := ApplyPlanned(w, done, step);
            Reports(w, m, FinishStep(done, landing.machine, landing.result).machine, step, calls)
  {
    var landing := ApplyPlanned(w, done, step);
    LandingIs(w, done, step);
    var writes := FinishIs(done, landing.machine, landing.result);
    var r, end := ReportAll(w.gateway, PlaceOf(m), calls), MoveAll(w.gateway, PlaceOf(m), calls);
    var next := FinishStep(done, landing.machine, landing.result).machine;
    var announced := [PlanUpdated(|calls|)];
    var patched := [FilePatchProposed(|r.planned|), FilePatchApplied(landing.result.value.applied)];
    Regroup(Kinds(m.trace.sink), announced + r.shown, patched);
    assert Applies(w, m, next, step, r, announced, end.files, landing.result.value, writes);
  }

  lemma Regroup(a: seq<EventKind>, b: seq<EventKind>, c: seq<EventKind>)
    ensures (a + b) + c == a + (b + c)
  {
  }

  lemma EmptyStepReports(w: World, m: Machine, step: nat)
    ensures Reports(w, m, RunTools(w, m, step, []).machine, step, [])
  {
  }

  lemma ToolsReport(w: World, m: Machine, step: nat, calls: seq<ToolCall>)
    requires RunTools(w, m, step, calls).Continue?
    ensures Reports(w, m, RunTools(w, m, step, calls).machine, step, calls)
  {
    if calls == [] {
      EmptyStepReports(w, m, step);
    } else {
      CallsRan(w, m, calls);
      var done := RunCalls(w, Tally(Emit(m, PlanUpdated(|calls|)), [], [], 0, 0, 0), calls).tally;
      if done.planned == [] {
        QuietStepReports(w, m, done, step, calls);
      } else {
        WritingStepReports(w, m, done, step, calls);
      }
    }
  }

  // ---- A whole run ---------------------------------------------------------------------------------------

  /** The driver asked for tools and the step reported on them. */
  ghost predicate Took(w: World, m: Machine, next: Machine, step: nat) {
    var asked := w.driver(m.progress.fed);
    asked.Tools? && Reports(w, m, next, step, asked.calls)
  }

  predicate LastKind(events: seq<Event>, kind: EventKind) { events != [] && events[|events| - 1].kind == kind }

  /** After its last finished step the run ended, with an answer, a failure or a warning carrying the outcome's text. */
  predicate Ends(w: World, m: Machine, f: Finished) {
    var sink, text := f.machine.trace.sink, f.outcome.text;
    && f.machine.progress.fed == m.progress.fed
    && f.outcome.patches == m.books.patches && f.outcome.applies == m.books.applies
    && match f.ending
       case ByFinalAnswer =>
         && w.driver(m.progress.fed) == Final(text) && f.outcome.finalState.Completed?
         && Kinds(sink) == Kinds(m.trace.sink) + [AssistantTextCompleted(text)]
       case ByDriverFailure =>
         && w.driver(m.progress.fed).FailedStep? && w.driver(m.progress.fed).message == text
         && f.outcome.finalState.Failed?
         && Kinds(sink) == Kinds(m.trace.sink) + [ErrorReported(w.driver(m.progress.fed).code, text)]
       case ByBudget =>
         && f.outcome.finalState.Failed?
         && Kinds(sink) == Kinds(m.trace.sink) + [ErrorReported("agentic_step_budget_exhausted", text)]
       case ByNoOps =>
         f.outcome.finalState.Completed? && LastKind(sink, AssistantTextCompleted(text)) && text == NOOP_TEXT
       case ByWriterError =>
         f.outcome.finalState.Failed? && LastKind(sink, ErrorReported("agentic_patch_apply_failed", text))
       case ByCancellation =>
         f.outcome.finalState.Cancelled? && LastKind(sink, Warning(text)) && text == CANCELLED_TEXT
  }

  lemma {:induction false} CallsKeepRecords(w: World, t: Tally, calls: seq<ToolCall>)
    ensures var m := match RunCalls(w, t, calls) case AllRan(done) => done.machine case Interrupted(m) => m;
            m.progress == t.machine.progress && SamePatches(m.books, t.machine.books)
    decreases |calls|
  {
    if calls != [] && !w.cancelled(t.machine.looks) {
      var looked := t.(machine := Look(t.machine));
      CallGrows(w, looked, calls[0]);
      CallsKeepRecords(w, RunCall(w, looked, calls[0]), calls[1..]);
    }
  }

  lemma ToolsEnd(w: World, m: Machine, step: nat, calls: seq<ToolCall>)
    requires RunTools(w, m, step, calls).Stop?
    ensures Ends(w, m, RunTools(w, m, step, calls).finished)
  {
    CallsKeepRecords(w, Tally(Emit(m, PlanUpdated(|calls|)), [], [], 0, 0, 0), calls);
  }

  lemma StepEnds(w: World, m: Machine, step: nat)
    requires RunStep(w, m, step).Stop?
    ensures Ends(w, m, RunStep(w, m, step).finished)
  {
    match w.driver(m.progress.fed)
    case Tools(calls) =>
      if !w.cancelled(m.looks) && !w.cancelled(Look(m).looks) {
        ToolsEnd(w, Look(Look(m)), step, calls);
      }
    case Final(text) => KindsSnoc(m.trace, AssistantTextCompleted(text));
    case FailedStep(code, message) => KindsSnoc(m.trace, ErrorReported(code, message));
  }

  lemma StepTakes(w: World, m: Machine, step: nat)
    requires RunStep(w, m, step).Continue?
    ensures Took(w, m, RunStep(w, m, step).machine, step)
  {
    ToolsReport(w, Look(Look(m)), step, w.driver(m.progress.fed).calls);
  }

  /** Consecutive machines, the first of them before step `step`. */
  ghost predicate Chain(w: World, machines: seq<Machine>, step: nat) {
    forall i :: 0 <= i < |machines| - 1 ==> Took(w, machines[i], machines[i + 1], step + i)
  }

  lemma ChainGrows(w: World, m: Machine, rest: seq<Machine>, step: nat)
    requires rest != [] && Took(w, m, rest[0], step) && Chain(w, rest, step + 1)
    ensures Chain(w, [m] + rest, step)
  {
    var machines := [m] + rest;
    forall i | 0 <= i < |machines| - 1
      ensures Took(w, machines[i], machines[i + 1], step + i)
    {
      assert i > 0 ==> Took(w, rest[i - 1], rest[i], step + 1 + (i - 1));
    }
  }

  lemma BudgetEnds(w: World, m: Machine, budget: nat)
    ensures Ends(w, m, OutOfBudget(m, budget))
  {
    KindsSnoc(m.trace, ErrorReported("agentic_step_budget_exhausted", BudgetText(budget)));
  }

  /** The run finished this many steps, and gave up because of the budget exactly if they used it up. */
  predicate Spends(f: Finished, steps: nat, budget: nat) {
    steps <= budget && (f.ending.ByBudget? <==> steps == budget)
    && (f.ending.ByBudget? ==> f.outcome.text == BudgetText(budget))
  }

  function Max(a: nat, b: nat): nat { if a < b then b else a }

  lemma StepsOutlastNoBudget(w: World, m: Machine, step: nat)
    requires RunStep(w, m, step).Stop?
    ensures !RunStep(w, m, step).finished.ending.ByBudget?
  {
  }

  /** What the endings that nobody else words say. */
  predicate IsWorded(f: Finished, budget: nat) {
    match f.ending
    case ByBudget =>
      f.outcome.text
      == "The agent exhausted its " + Decimal(budget) + "-step budget before producing a final answer."
    case ByNoOps =>
      f.outcome.text == "No further file changes were needed; the proposed edits already match the workspace."
    case ByCancellation => f.outcome.text == "Turn cancelled before the next model/tool step."
    case _ => true
  }

  lemma {:induction false} RunChains(w: World, m: Machine, step: nat, budget: nat) returns (machines: seq<Machine>)
    requires step <= budget
    ensures machines != [] && machines[0] == m && Chain(w, machines, step)
    ensures Ends(w, machines[|machines| - 1], RunFrom(w, m, step, budget))
    ensures Spends(RunFrom(w, m, step, budget), step + |machines| - 1, budget)
    decreases budget - step
  {
    machines := [m];
    if step == budget {
      BudgetEnds(w, m, budget);
    } else {
      match RunStep(w, m, step) {
        case Stop(_) =>
          StepEnds(w, m, step);
          StepsOutlastNoBudget(w, m, step);
        case Continue(next) =>
          StepTakes(w, m, step);
          var rest := RunChains(w, next, step + 1, budget);
          ChainGrows(w, m, rest, step);
          machines := [m] + rest;
      }
    }
  }

  /**
   Every run is a chain of reporting steps from its initial files, with nothing told, shown or recorded
   before, and ends after the last of them.  It finishes at most the allowed steps, at least one being
   allowed, and all of them exactly if it ends by the budget.
   */
  lemma EveryRunReports(w: World, files: Files, maxSteps: nat) returns (machines: seq<Machine>)
    ensures machines != [] && PlaceOf(machines[0]) == Place(files, 0) && machines[0].progress.fed == [[]]
    ensures machines[0].trace.sink == [] && machines[0].books.patches == [] && machines[0].books.applies == []
    ensures Chain(w, machines, 0)
    ensures Ends(w, machines[|machines| - 1], RunLoop(w, files, maxSteps))
    ensures var (finished, steps, allowed) := (RunLoop(w, files, maxSteps), |machines| - 1, Max(maxSteps, 1));
            && steps <= allowed && (finished.ending.ByBudget? <==> steps == allowed)
            && IsWorded(finished, allowed)
  {
    machines := RunChains(w, Start(files), 0, Budget(maxSteps));
  }
}
