/** `run_agentic_loop_inner` with its loops and mutable counters, and the scripted local adapter on top. */
module AgentRunner {
  import opened Options
  import opened PatchContract
  import opened AgentGateway
  import opened AgentLoop
  import opened LoopBudget

  /** One call: start event, gateway, result events, counters. */
  method ExecuteOne(w: World, t: Tally, call: ToolCall) returns (r: Tally)
    ensures r == RunCall(w, t, call)
  {
    var nextObs, planned := t.nextObs, t.planned;
    var writeCalls, noopWrites, otherCalls := t.writeCalls, t.noopWrites, t.otherCalls;
    var tick := t.machine.ticks;
    var m := Emit(t.machine, ToolCallStarted(call.tool));
    var (execution, files) := Execute(w.gateway, m.books.files, tick, call);
    m := m.(ticks := tick + 1, books := m.books.(files := files, changes := m.books.changes + [ByCall(tick, call)]));
    match execution {
      case Ok(Read(result)) =>
        otherCalls := otherCalls + 1;
        m := Emit(m, ToolCallCompleted(false));
        nextObs := nextObs + [result];
      case Ok(ImageArtifact(assetId)) =>
        otherCalls := otherCalls + 1;
        m := Emit(m, ToolCallCompleted(false));
        m := Emit(m, ImageArtifactCreated(assetId));
        nextObs := nextObs + [ToolOutput("image.generate", assetId)];
      case Ok(ImageInspection(summary)) =>
        otherCalls := otherCalls + 1;
        m := Emit(m, ToolCallCompleted(false));
        nextObs := nextObs + [ToolOutput("image.inspect", summary)];
      case Ok(PlannedWriteReceipt(write)) =>
        writeCalls := writeCalls + 1;
        if write.expectedBefore == write.after {
          noopWrites := noopWrites + 1;
          m := Emit(m, ToolCallCompleted(false));
          nextObs := nextObs + [Wrote(write.path, false, None)];
        } else {
          m := Emit(m, ToolCallCompleted(true));
          planned := planned + [write];
        }
      case Err(message) =>
        otherCalls := otherCalls + 1;
        m := Emit(m, Warning(message));
        nextObs := nextObs + [ToolResult.Failed(ToolName(call.tool), message)];
    }
    return Tally(m, nextObs, planned, writeCalls, noopWrites, otherCalls);
  }

  /** Executes the calls of one step; `interrupted` means the cancellation token was seen. */
  method ExecuteCalls(w: World, start: Tally, calls: seq<ToolCall>) returns (interrupted: bool, tally: Tally)
    ensures match RunCalls(w, start, calls)
            case AllRan(t) => !interrupted && tally == t
            case Interrupted(m) => interrupted && tally.machine == m
  {
    tally := start;
    var i := 0;
    assert calls[0..] == calls;
    while i < |calls|
      invariant 0 <= i <= |calls|
      invariant RunCalls(w, tally, calls[i..]) == RunCalls(w, start, calls)
    {
      assert calls[i..][1..] == calls[i + 1..];
      var isCancelled := w.cancelled(tally.machine.looks);
      tally := tally.(machine := Look(tally.machine));
      if isCancelled {
        return true, tally;
      }
      tally := ExecuteOne(w, tally, calls[i]);
      i := i + 1;
    }
    return false, tally;
  }

  /** One step of tool calls: run them, apply what they planned, and count it. */
  method ExecuteTools(w: World, m: Machine, step: nat, calls: seq<ToolCall>) returns (next: Next)
    ensures next == RunTools(w, m, step, calls)
  {
    if calls == [] {
      return Continue(m.(progress := m.progress.(fed := m.progress.fed + [[]], log := m.progress.log + [EmptyStep])));
    }
    var interrupted, tally := ExecuteCalls(w, Tally(Emit(m, PlanUpdated(|calls|)), [], [], 0, 0, 0), calls);
    if interrupted {
      return Stop(Cancel(tally.machine));
    }
    match ApplyPlanned(w, tally, step) {
      case Ended(f) => return Stop(f);
      case Landed(landed, result) => return FinishStep(tally, landed, result);
    }
  }

  /** The loop itself computes the machine's run, so every result about runs is about this method. */
  method RunAgenticLoop(w: World, files: Files, maxSteps: nat) returns (finished: Finished)
    ensures finished == RunLoop(w, files, maxSteps)
  {
    var budget := if maxSteps < 1 then 1 else maxSteps;
    var m := Start(files);
    var step := 0;
    while step < budget
      invariant 0 <= step <= budget
      invariant RunFrom(w, m, step, budget) == RunLoop(w, files, maxSteps)
    {
      if w.cancelled(m.looks) {
        return Cancel(Look(m));
      }
      var decision := w.driver(m.progress.fed);
      m := Look(m);
      if w.cancelled(m.looks) {
        return Cancel(Look(m));
      }
      m := Look(m);
      match decision {
        case FailedStep(code, message) =>
          return Leave(m, ByDriverFailure, ErrorReported(code, message), message, RunState.Failed);
        case Final(text) => return Leave(m, ByFinalAnswer, AssistantTextCompleted(text), text, Completed);
        case Tools(calls) =>
          var next := ExecuteTools(w, m, step, calls);
          if next.Stop? {
            return next.finished;
          }
          m := next.machine;
      }
      step := step + 1;
    }
    return OutOfBudget(m, budget);
  }

  // ---- Scripted steps of the local adapter ------------------------------------------------------------

  const MAX_LOCAL_TEST_STEPS: nat := 256
  const DEFAULT_MAX_STEPS: nat := 16

  datatype LocalRun = TooManySteps | Ran(finished: Finished)

  /** Each call is a step of its own. */
  function Singletons(steps: seq<ToolCall>): (r: seq<seq<ToolCall>>)
    ensures |r| == |steps|
  {
    seq(|steps|, i requires 0 <= i < |steps| => [steps[i]])
  }

  method RunLocalSteps(w: World, steps: seq<ToolCall>, finalText: string, files: Files) returns (r: LocalRun)
    requires w.driver == SequenceDriver(Singletons(steps), finalText)
    ensures r.TooManySteps? <==> |steps| > MAX_LOCAL_TEST_STEPS
    ensures r.Ran? ==> r.finished == RunLoop(w, files, DEFAULT_MAX_STEPS)
    ensures r.Ran? && Undisturbed(w) ==>
              (r.finished.outcome.finalState == Completed <==>
                 || |steps| < DEFAULT_MAX_STEPS
                 || StopsWithin(Play(w, files, Singletons(steps)).kinds, DEFAULT_MAX_STEPS))
  {
    if |steps| > MAX_LOCAL_TEST_STEPS {
      return TooManySteps;
    }
    var finished := RunAgenticLoop(w, files, DEFAULT_MAX_STEPS);
    if Undisturbed(w) {
      ScriptedBudgetIsExact(w, Singletons(steps), finalText, files, DEFAULT_MAX_STEPS);
    }
    return Ran(finished);
  }
}
