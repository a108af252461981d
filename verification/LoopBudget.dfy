/** When the loop stops: the step budget, the no-op short circuit, and the scripted driver. */
module LoopBudget {
  import opened Options
  import opened PatchContract
  import opened AgentGateway
  import opened AgentLoop
  import opened LoopFeedback

  // ---- The short-circuit rule on step kinds ---------------------------------------------------------

  predicate SomePatchApplied(log: seq<StepKind>) {
    exists k :: 0 <= k < |log| && log[k] == Patched(true)
  }

  /** No-op-only steps at the end of the log, empty steps not counted. */
  function TrailingNoOps(log: seq<StepKind>): nat {
    if log == [] then 0
    else
      match log[|log| - 1]
      case EmptyStep => TrailingNoOps(log[..|log| - 1])
      case NoOpOnly => TrailingNoOps(log[..|log| - 1]) + 1
      case _ => 0
  }

  /**
   The last step and the previous non-empty step did nothing but no-op writes, and some patch had
   been applied before both of them.
   */
  ghost predicate StopsAt(log: seq<StepKind>) {
    exists k, i :: 0 <= k < i < |log| - 1 && StopWitness(log, k, i)
  }

  predicate StopWitness(log: seq<StepKind>, k: nat, i: nat)
    requires k < i < |log| - 1
  {
    && log[k] == Patched(true)
    && log[i] == NoOpOnly && log[|log| - 1] == NoOpOnly
    && forall x :: i < x < |log| - 1 ==> log[x] == EmptyStep
  }

  /** Two trailing no-ops come after every patch. */
  lemma {:induction false} TrailingComesAfterPatches(log: seq<StepKind>, n: nat) returns (i: nat)
    requires TrailingNoOps(log) >= n > 0
    ensures i < |log| && log[i] == NoOpOnly
    ensures forall x :: i < x < |log| ==> log[x] == EmptyStep
    ensures TrailingNoOps(log[..i]) == TrailingNoOps(log) - 1
    ensures forall x :: i <= x < |log| ==> log[x] != Patched(true)
  {
    var n' := |log| - 1;
    if log[n'] == NoOpOnly {
      i := n';
    } else {
      i := TrailingComesAfterPatches(log[..n'], n);
      assert log[..n'][..i] == log[..i];
      assert forall x :: 0 <= x < n' ==> log[..n'][x] == log[x];
    }
  }

  lemma TrailingSkipsEmpty(log: seq<StepKind>, i: nat)
    requires i < |log| && forall x :: i < x < |log| ==> log[x] == EmptyStep
    ensures TrailingNoOps(log) == TrailingNoOps(log[..i + 1])
    decreases |log|
  {
    if i == |log| - 1 {
      assert log[..i + 1] == log;
    } else {
      var before := log[..|log| - 1];
      TrailingSkipsEmpty(before, i);
      assert before[..i + 1] == log[..i + 1];
    }
  }

  lemma CountersFire(log: seq<StepKind>)
    requires log != [] && log[|log| - 1] == NoOpOnly
    requires SomePatchApplied(log) && TrailingNoOps(log) >= 2
    ensures StopsAt(log)
  {
    var last := |log| - 1;
    var before := log[..last];
    assert forall x :: 0 <= x < last ==> before[x] == log[x];
    var i := TrailingComesAfterPatches(before, 1);
    var k :| 0 <= k < |log| && log[k] == Patched(true);
    assert StopWitness(log, k, i);
  }

  lemma FiringCounts(log: seq<StepKind>)
    requires StopsAt(log)
    ensures SomePatchApplied(log) && TrailingNoOps(log) >= 2
  {
    var last := |log| - 1;
    var before := log[..last];
    var k, i :| 0 <= k < i < last && StopWitness(log, k, i);
    assert forall x :: i < x < last ==> before[x] == log[x];
    TrailingSkipsEmpty(before, i);
    assert before[..i + 1][..i] == before[..i] && before[..i + 1][i] == NoOpOnly;
  }

  /** The counter rule of the loop is the declarative rule. */
  lemma StopRule(log: seq<StepKind>)
    requires log != [] && log[|log| - 1] == NoOpOnly
    ensures SomePatchApplied(log) && TrailingNoOps(log) >= 2 <==> StopsAt(log)
  {
    if StopsAt(log) {
      FiringCounts(log);
    } else if SomePatchApplied(log) && TrailingNoOps(log) >= 2 {
      CountersFire(log);
    }
  }

  // ---- The counters of the machine follow the log -----------------------------------------------------

  ghost predicate Counted(m: Machine) {
    && (m.books.hadApply <==> SomePatchApplied(m.progress.log))
    && m.progress.noopSteps == TrailingNoOps(m.progress.log)
  }

  /** Not yet stopped: the rule has fired at no prefix. */
  ghost predicate NeverFired(log: seq<StepKind>) {
    forall n :: 0 <= n <= |log| ==> !StopsAt(log[..n])
  }

  lemma LogSnoc(log: seq<StepKind>, kind: StepKind)
    ensures SomePatchApplied(log + [kind]) <==> SomePatchApplied(log) || kind == Patched(true)
    ensures TrailingNoOps(log + [kind]) ==
            match kind case EmptyStep => TrailingNoOps(log) case NoOpOnly => TrailingNoOps(log) + 1 case _ => 0
  {
    var all := log + [kind];
    assert all[..|log|] == log && all[|log|] == kind;
    assert forall x :: 0 <= x < |log| ==> all[x] == log[x];
  }

  lemma NeverFiredSnoc(log: seq<StepKind>, kind: StepKind)
    requires NeverFired(log) && !StopsAt(log + [kind])
    ensures NeverFired(log + [kind])
  {
    var all := log + [kind];
    assert all[..|all|] == all;
    forall n | 0 <= n <= |log|
      ensures all[..n] == log[..n]
    {
    }
  }

  /** What the machine knows between steps when nothing has stopped it. */
  ghost predicate OnTrack(m: Machine) {
    Counted(m) && NeverFired(m.progress.log)
  }

  ghost predicate Fired(f: Finished) {
    StopsAt(f.machine.progress.log) && NeverFired(f.machine.progress.log[..|f.machine.progress.log| - 1])
  }

  /** A step keeps track, or ends the run by the no-op rule exactly when the rule fires. */
  ghost predicate Tracked(next: Next) {
    match next
    case Continue(m) => OnTrack(m)
    case Stop(f) =>
      if f.ending.ByNoOps? then f.machine.progress.log != [] && Fired(f) else NeverFired(f.machine.progress.log)
  }

  lemma FinishTracks(t: Tally, m: Machine, result: Option<ApplyResult>, before: Machine)
    requires OnTrack(before) && m.progress == before.progress
    requires m.books.hadApply <==> before.books.hadApply || (result.Some? && result.value.applied)
    requires result.Some? ==> t.planned != []
    ensures Tracked(FinishStep(t, m, result))
    ensures FinishStep(t, m, result).Stop? ==> FinishStep(t, m, result).finished.ending.ByNoOps?
  {
    var log := before.progress.log;
    var kind := KindOf(t, result);
    LogSnoc(log, kind);
    var all := log + [kind];
    assert all[..|log|] == log;
    if kind == NoOpOnly {
      StopRule(all);
    } else {
      assert !StopsAt(all);
    }
    if !StopsAt(all) {
      NeverFiredSnoc(log, kind);
    }
  }

  lemma ToolsTrack(w: World, m: Machine, step: nat, calls: seq<ToolCall>)
    requires OnTrack(m)
    ensures Tracked(RunTools(w, m, step, calls))
  {
    if calls == [] {
      LogSnoc(m.progress.log, EmptyStep);
      assert !StopsAt(m.progress.log + [EmptyStep]);
      NeverFiredSnoc(m.progress.log, EmptyStep);
    } else {
      var t := Tally(Emit(m, PlanUpdated(|calls|)), [], [], 0, 0, 0);
      CallsAccount(w, t, calls, 0);
      match RunCalls(w, t, calls)
      case Interrupted(_) =>
      case AllRan(done) =>
        match ApplyPlanned(w, done, step)
        case Ended(_) =>
        case Landed(landed, result) => FinishTracks(done, landed, result, m);
    }
  }

  lemma StepTracks(w: World, m: Machine, step: nat)
    requires OnTrack(m)
    ensures Tracked(RunStep(w, m, step))
  {
    match w.driver(m.progress.fed)
    case Tools(calls) => ToolsTrack(w, Look(Look(m)), step, calls);
    case Final(_) =>
    case FailedStep(_, _) =>
  }

  lemma {:induction false} RunTracks(w: World, m: Machine, step: nat, budget: nat)
    requires OnTrack(m) && step <= budget
    ensures Tracked(Stop(RunFrom(w, m, step, budget)))
    decreases budget - step
  {
    if step < budget {
      StepTracks(w, m, step);
      match RunStep(w, m, step)
      case Continue(next) => RunTracks(w, next, step + 1, budget);
      case Stop(_) =>
    }
  }

  /**
   For every driver and every environment: the short circuit ends the run exactly at the first step
   where the rule on step kinds fires; every other ending has a log on which it never fired.
   */
  lemma ShortCircuitIsExact(w: World, files: Files, maxSteps: nat)
    ensures var f := RunLoop(w, files, maxSteps);
            var log := f.machine.progress.log;
            (f.ending.ByNoOps? <==> StopsAt(log))
            && (forall n :: 0 <= n < |log| ==> !StopsAt(log[..n]))
  {
    StartIsOnTrack(files);
    RunTracks(w, Start(files), 0, Budget(maxSteps));
    TrackedLog(RunLoop(w, files, maxSteps));
  }

  lemma StartIsOnTrack(files: Files)
    ensures OnTrack(Start(files))
  {
    assert Start(files).progress.log == [];
  }

  lemma TrackedLog(f: Finished)
    requires Tracked(Stop(f))
    ensures f.ending.ByNoOps? <==> StopsAt(f.machine.progress.log)
    ensures forall n :: 0 <= n < |f.machine.progress.log| ==> !StopsAt(f.machine.progress.log[..n])
  {
    var log := f.machine.progress.log;
    assert log[..|log|] == log;
    forall n | 0 <= n < |log|
      ensures log[..|log| - 1][..n] == log[..n]
    {
    }
  }

  // ---- The scripted driver ------------------------------------------------------------------------------

  /** `SequenceDriver`: play the groups one by one, then answer. */
  function SequenceDriver(groups: seq<seq<ToolCall>>, finalText: string): seq<seq<ToolResult>> -> AgentStep {
    (fed: seq<seq<ToolResult>>) =>
      if 0 < |fed| <= |groups| then Tools(groups[|fed| - 1]) else Final(finalText)
  }

  /** Nobody cancels and the writer always answers. */
  ghost predicate Undisturbed(w: World) {
    && (forall n: nat :: !w.cancelled(n))
    && forall step: nat, files: Files, writes: seq<PlannedWrite> :: w.writer(step, files, writes).0.Answered?
  }

  lemma {:induction false} CallsFinish(w: World, t: Tally, calls: seq<ToolCall>)
    requires Undisturbed(w)
    ensures RunCalls(w, t, calls).AllRan?
    decreases |calls|
  {
    if calls != [] {
      CallsFinish(w, RunCall(w, t.(machine := Look(t.machine)), calls[0]), calls[1..]);
    }
  }

  /** Undisturbed, a tool step either continues with one more entry in the log or stops by the no-op rule. */
  lemma UndisturbedTools(w: World, m: Machine, step: nat, calls: seq<ToolCall>)
    requires Undisturbed(w)
    ensures match RunTools(w, m, step, calls)
            case Continue(next) =>
              |next.progress.fed| == |m.progress.fed| + 1 && |next.progress.log| == |m.progress.log| + 1
            case Stop(f) =>
              f.ending.ByNoOps? && f.outcome.finalState.Completed? && |f.machine.progress.log| == |m.progress.log| + 1
  {
    if calls != [] {
      var t := Tally(Emit(m, PlanUpdated(|calls|)), [], [], 0, 0, 0);
      CallsFinish(w, t, calls);
      CallsAccount(w, t, calls, 0);
      var done := RunCalls(w, t, calls).tally;
      assert w.writer(step, done.machine.books.files, done.planned).0.Answered?;
    }
  }

  /** How a scripted run can have ended. */
  predicate ScriptedEnding(f: Finished, groups: nat, finalText: string, budget: nat) {
    var log := f.machine.progress.log;
    || (f.ending.ByNoOps? && f.outcome.finalState.Completed? && |log| <= groups && |log| <= budget)
    || (f.ending.ByFinalAnswer? && f.outcome.finalState.Completed? && groups < budget && |log| == groups
        && f.outcome.text == finalText)
    || (f.ending.ByBudget? && f.outcome.finalState.Failed? && budget <= groups && |log| == budget)
  }

  lemma {:induction false} ScriptedRun(
    w: World, groups: seq<seq<ToolCall>>, finalText: string, m: Machine, step: nat, budget: nat)
    requires Undisturbed(w) && w.driver == SequenceDriver(groups, finalText)
    requires step <= budget && step <= |groups| && |m.progress.fed| == step + 1 && |m.progress.log| == step
    ensures ScriptedEnding(RunFrom(w, m, step, budget), |groups|, finalText, budget)
    decreases budget - step
  {
    if step < budget {
      assert !w.cancelled(m.looks) && !w.cancelled(Look(m).looks);
      if step < |groups| {
        assert w.driver(m.progress.fed) == Tools(groups[step]);
        UndisturbedTools(w, Look(Look(m)), step, groups[step]);
        match RunTools(w, Look(Look(m)), step, groups[step])
        case Continue(next) => ScriptedRun(w, groups, finalText, next, step + 1, budget);
        case Stop(_) =>
      } else {
        assert w.driver(m.progress.fed) == Final(finalText);
      }
    }
  }

  // ---- What the steps of a script do, from the inputs alone ----------------------------------------------

  /** The calls of one step without trace and observations. */
  datatype Group = Group(
    files: Files, tick: nat, planned: seq<PlannedWrite>, writeCalls: nat, noopWrites: nat, otherCalls: nat)

  function AfterCall(g: Gateway, s: Group, call: ToolCall): Group {
    var (execution, files) := Execute(g, s.files, s.tick, call);
    var moved := s.(files := files, tick := s.tick + 1);
    if execution.Ok? && execution.receipt.PlannedWriteReceipt? then
      var write := execution.receipt.write;
      if write.expectedBefore == write.after
      then moved.(writeCalls := s.writeCalls + 1, noopWrites := s.noopWrites + 1)
      else moved.(writeCalls := s.writeCalls + 1, planned := s.planned + [write])
    else moved.(otherCalls := s.otherCalls + 1)
  }

  function AfterCalls(g: Gateway, s: Group, calls: seq<ToolCall>): Group
    decreases |calls|
  {
    if calls == [] then s else AfterCalls(g, AfterCall(g, s, calls[0]), calls[1..])
  }

  /** The files and the kinds of the steps after a script. */
  datatype Played = Played(files: Files, tick: nat, kinds: seq<StepKind>)

  function PlayGroup(w: World, s: Played, calls: seq<ToolCall>): Played {
    if calls == [] then s.(kinds := s.kinds + [EmptyStep])
    else
      var after := AfterCalls(w.gateway, Group(s.files, s.tick, [], 0, 0, 0), calls);
      if after.planned != [] then
        var (outcome, files) := w.writer(|s.kinds|, after.files, after.planned);
        Played(files, after.tick, s.kinds + [Patched(Applied(outcome))])
      else
        Played(after.files, after.tick, s.kinds + [if after.writeCalls > 0 && after.noopWrites == after.writeCalls
                                                      && after.otherCalls == 0 then NoOpOnly else OtherStep])
  }

  /** A fold over the script, given what the tools and the writer do to the files. */
  function Play(w: World, files: Files, groups: seq<seq<ToolCall>>): (s: Played)
    ensures |s.kinds| == |groups|
  {
    if groups == [] then Played(files, 0, [])
    else PlayGroup(w, Play(w, files, groups[..|groups| - 1]), groups[|groups| - 1])
  }

  /** The tally of a step agrees with the plain fold over its calls. */
  predicate Tallied(t: Tally, s: Group) {
    && t.machine.books.files == s.files && t.machine.ticks == s.tick && t.planned == s.planned
    && t.writeCalls == s.writeCalls && t.noopWrites == s.noopWrites && t.otherCalls == s.otherCalls
  }

  lemma CallTallies(w: World, t: Tally, s: Group, call: ToolCall)
    requires Tallied(t, s)
    ensures Tallied(RunCall(w, t, call), AfterCall(w.gateway, s, call))
  {
  }

  lemma {:induction false} CallsTally(w: World, t: Tally, s: Group, calls: seq<ToolCall>)
    requires Undisturbed(w) && Tallied(t, s)
    ensures RunCalls(w, t, calls).AllRan? && Tallied(RunCalls(w, t, calls).tally, AfterCalls(w.gateway, s, calls))
    decreases |calls|
  {
    if calls != [] {
      var looked := t.(machine := Look(t.machine));
      CallTallies(w, looked, s, calls[0]);
      CallsTally(w, RunCall(w, looked, calls[0]), AfterCall(w.gateway, s, calls[0]), calls[1..]);
    }
  }

  predicate Follows(m: Machine, s: Played) {
    m.books.files == s.files && m.ticks == s.tick && m.progress.log == s.kinds
  }

  lemma StepPlays(w: World, m: Machine, s: Played, calls: seq<ToolCall>)
    requires Undisturbed(w) && Follows(m, s)
    ensures match RunTools(w, m, |s.kinds|, calls)
            case Continue(next) => Follows(next, PlayGroup(w, s, calls))
            case Stop(f) => f.machine.progress.log == PlayGroup(w, s, calls).kinds
  {
    if calls != [] {
      var t := Tally(Emit(m, PlanUpdated(|calls|)), [], [], 0, 0, 0);
      CallsTally(w, t, Group(s.files, s.tick, [], 0, 0, 0), calls);
      CallsAccount(w, t, calls, 0);
      var done := RunCalls(w, t, calls).tally;
      assert w.writer(|s.kinds|, done.machine.books.files, done.planned).0.Answered?;
    }
  }

  lemma ScriptedStep(w: World, groups: seq<seq<ToolCall>>, finalText: string, m: Machine, step: nat)
    requires Undisturbed(w) && w.driver == SequenceDriver(groups, finalText)
    requires step < |groups| && |m.progress.fed| == step + 1
    ensures RunStep(w, m, step) == RunTools(w, Look(Look(m)), step, groups[step])
  {
    assert !w.cancelled(m.looks) && !w.cancelled(Look(m).looks);
    assert w.driver(m.progress.fed) == Tools(groups[step]);
  }

  /** One more step of the run is one more group played. */
  lemma GroupPlays(w: World, groups: seq<seq<ToolCall>>, finalText: string, files: Files, m: Machine, step: nat)
    requires Undisturbed(w) && w.driver == SequenceDriver(groups, finalText)
    requires step < |groups| && |m.progress.fed| == step + 1
    requires Follows(m, Play(w, files, groups[..step]))
    ensures match RunStep(w, m, step)
            case Continue(next) =>
              |next.progress.fed| == step + 2 && Follows(next, Play(w, files, groups[..step + 1]))
            case Stop(f) => f.machine.progress.log == Play(w, files, groups[..step + 1]).kinds
  {
    ScriptedStep(w, groups, finalText, m, step);
    assert groups[..step + 1][..step] == groups[..step];
    StepPlays(w, Look(Look(m)), Play(w, files, groups[..step]), groups[step]);
    UndisturbedTools(w, Look(Look(m)), step, groups[step]);
  }

  /** With the script played or the budget spent, no step is added. */
  lemma ScriptOver(w: World, groups: seq<seq<ToolCall>>, finalText: string, m: Machine, step: nat, budget: nat)
    requires Undisturbed(w) && w.driver == SequenceDriver(groups, finalText)
    requires step <= budget && step <= |groups| && |m.progress.fed| == step + 1
    requires step == |groups| || step == budget
    ensures RunFrom(w, m, step, budget).machine.progress == m.progress
  {
    assert step < budget ==> !w.cancelled(m.looks) && !w.cancelled(Look(m).looks);
    assert step < budget ==> w.driver(m.progress.fed) == Final(finalText);
  }

  /** The log of a scripted run is the beginning of the played script. */
  lemma {:induction false} RunPlays(
    w: World, groups: seq<seq<ToolCall>>, finalText: string, files: Files, m: Machine, step: nat, budget: nat)
    requires Undisturbed(w) && w.driver == SequenceDriver(groups, finalText)
    requires step <= budget && step <= |groups| && |m.progress.fed| == step + 1
    requires Follows(m, Play(w, files, groups[..step]))
    ensures RunFrom(w, m, step, budget).machine.progress.log <= Play(w, files, groups).kinds
    decreases budget - step
  {
    if step == |groups| || step == budget {
      ScriptOver(w, groups, finalText, m, step, budget);
      PlayedPrefix(w, files, groups, step);
    } else {
      GroupPlays(w, groups, finalText, files, m, step);
      match RunStep(w, m, step)
      case Continue(next) => RunPlays(w, groups, finalText, files, next, step + 1, budget);
      case Stop(_) => PlayedPrefix(w, files, groups, step + 1);
    }
  }

  lemma {:induction false} PlayedPrefix(w: World, files: Files, groups: seq<seq<ToolCall>>, k: nat)
    requires k <= |groups|
    ensures Play(w, files, groups[..k]).kinds == Play(w, files, groups).kinds[..k]
    decreases |groups|
  {
    if k == |groups| {
      assert groups[..k] == groups;
      assert Play(w, files, groups).kinds[..k] == Play(w, files, groups).kinds;
    } else {
      var init := groups[..|groups| - 1];
      PlayedPrefix(w, files, init, k);
      assert init[..k] == groups[..k];
      assert Play(w, files, groups).kinds[..|init|] == Play(w, files, init).kinds;
    }
  }

  /** The no-op rule fires within the first `budget` steps of the script. */
  ghost predicate StopsWithin(kinds: seq<StepKind>, budget: nat) {
    exists n :: 0 <= n <= |kinds| && n <= budget && StopsAt(kinds[..n])
  }

  /**
   The exact budget, from the script, the tools and the writer alone: the run completes exactly when
   the script is shorter than the budget or the no-op rule fires on its steps within the budget;
   otherwise it fails on the budget after exactly that many steps.
   */
  lemma ScriptedBudgetIsExact(w: World, groups: seq<seq<ToolCall>>, finalText: string, files: Files, maxSteps: nat)
    requires Undisturbed(w) && w.driver == SequenceDriver(groups, finalText)
    ensures var f := RunLoop(w, files, maxSteps);
            var kinds := Play(w, files, groups).kinds;
            && (f.outcome.finalState.Completed? <==>
                  |groups| < Budget(maxSteps) || StopsWithin(kinds, Budget(maxSteps)))
            && (f.ending.ByNoOps? <==> StopsWithin(kinds, Budget(maxSteps)))
            && (f.outcome.finalState.Failed? <==> f.ending.ByBudget?)
            && (f.ending.ByBudget? ==> |f.machine.progress.log| == Budget(maxSteps))
            && (f.ending.ByFinalAnswer? ==> f.outcome.text == finalText)
  {
    var budget := Budget(maxSteps);
    var f := RunLoop(w, files, maxSteps);
    var log, kinds := f.machine.progress.log, Play(w, files, groups).kinds;
    ScriptedRun(w, groups, finalText, Start(files), 0, budget);
    ShortCircuitIsExact(w, files, maxSteps);
    assert groups[..0] == [];
    RunPlays(w, groups, finalText, files, Start(files), 0, budget);
    StopsWithinIff(log, kinds, budget, f.ending.ByNoOps?);
  }

  lemma StopsWithinIff(log: seq<StepKind>, kinds: seq<StepKind>, budget: nat, stopped: bool)
    requires log <= kinds && |log| <= budget
    requires stopped <==> StopsAt(log)
    requires forall n :: 0 <= n < |log| ==> !StopsAt(log[..n])
    requires stopped || |log| == |kinds| || |log| == budget
    ensures stopped <==> StopsWithin(kinds, budget)
  {
    forall n | 0 <= n <= |log|
      ensures kinds[..n] == log[..n]
    {
    }
    assert log[..|log|] == log;
  }
}
