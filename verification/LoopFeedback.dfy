/** What one step hands back to the driver, and what it leaves alone. */
module LoopFeedback {
  import opened PatchContract
  import opened AgentGateway
  import opened AgentLoop

  /** Every executed call is accounted for once, as an observation or as a planned write. */
  predicate Accounted(t: Tally, calls: nat) {
    && |t.nextObs| + |t.planned| == calls
    && t.writeCalls == t.noopWrites + |t.planned|
    && t.writeCalls + t.otherCalls == calls
  }

  lemma CallAccounts(w: World, t: Tally, call: ToolCall, calls: nat)
    requires Accounted(t, calls)
    ensures Accounted(RunCall(w, t, call), calls + 1)
    ensures SamePatches(RunCall(w, t, call).machine.books, t.machine.books)
    ensures RunCall(w, t, call).machine.progress == t.machine.progress
  {
  }

  /** Running calls records no patch and leaves the step bookkeeping alone. */
  lemma {:induction false} CallsAccount(w: World, t: Tally, calls: seq<ToolCall>, done: nat)
    requires Accounted(t, done)
    ensures match RunCalls(w, t, calls)
            case AllRan(end) =>
              Accounted(end, done + |calls|)
              && SamePatches(end.machine.books, t.machine.books) && end.machine.progress == t.machine.progress
            case Interrupted(m) => SamePatches(m.books, t.machine.books) && m.progress == t.machine.progress
    decreases |calls|
  {
    if calls != [] && !w.cancelled(t.machine.looks) {
      var looked := t.(machine := Look(t.machine));
      CallAccounts(w, looked, calls[0], done);
      CallsAccount(w, RunCall(w, looked, calls[0]), calls[1..], done + 1);
    }
  }

  /** The observations after step `k` are one per call that the driver then asked for. */
  predicate AnsweredAt(w: World, fed: seq<seq<ToolResult>>, k: nat) {
    k + 1 < |fed| ==> w.driver(fed[..k + 1]).Tools? && |fed[k + 1]| == |w.driver(fed[..k + 1]).calls|
  }

  ghost predicate Answered(w: World, fed: seq<seq<ToolResult>>) {
    forall k: nat :: AnsweredAt(w, fed, k)
  }

  lemma OneMoreAnswered(w: World, fed: seq<seq<ToolResult>>, all: seq<seq<ToolResult>>)
    requires Answered(w, fed) && fed != [] && |all| == |fed| + 1 && all[..|fed|] == fed
    requires w.driver(fed).Tools? && |all[|fed|]| == |w.driver(fed).calls|
    ensures Answered(w, all)
  {
    forall k: nat
      ensures AnsweredAt(w, all, k)
    {
      if k + 1 < |all| {
        assert AnsweredAt(w, fed, k);
        assert all[..k + 1] == fed[..k + 1];
        assert fed[..|fed|] == fed;
      }
    }
  }

  lemma ToolsAnswer(w: World, m: Machine, step: nat, calls: seq<ToolCall>)
    ensures var was := m.progress.fed;
            match RunTools(w, m, step, calls)
            case Continue(next) =>
              |next.progress.fed| == |was| + 1 && next.progress.fed[..|was|] == was
              && |next.progress.fed[|was|]| == |calls|
            case Stop(f) => f.machine.progress.fed == was
  {
    if calls != [] {
      var t := Tally(Emit(m, PlanUpdated(|calls|)), [], [], 0, 0, 0);
      CallsAccount(w, t, calls, 0);
    }
  }

  lemma StepAnswers(w: World, m: Machine, step: nat)
    requires Answered(w, m.progress.fed) && m.progress.fed != []
    ensures match RunStep(w, m, step)
            case Continue(next) => Answered(w, next.progress.fed) && next.progress.fed != []
            case Stop(f) => Answered(w, f.machine.progress.fed)
  {
    if w.driver(m.progress.fed).Tools? {
      var calls := w.driver(m.progress.fed).calls;
      var asked := Look(Look(m));
      ToolsAnswer(w, asked, step, calls);
      match RunTools(w, asked, step, calls)
      case Continue(next) => OneMoreAnswered(w, m.progress.fed, next.progress.fed);
      case Stop(_) =>
    }
  }

  lemma {:induction false} RunAnswers(w: World, m: Machine, step: nat, budget: nat)
    requires Answered(w, m.progress.fed) && m.progress.fed != [] && step <= budget
    ensures Answered(w, RunFrom(w, m, step, budget).machine.progress.fed)
    decreases budget - step
  {
    if step < budget {
      StepAnswers(w, m, step);
      match RunStep(w, m, step)
      case Continue(next) => RunAnswers(w, next, step + 1, budget);
      case Stop(_) =>
    }
  }

  /** Over a whole run, every finished step answered each of its calls exactly once. */
  lemma EveryCallIsAnswered(w: World, files: Files, maxSteps: nat)
    ensures Answered(w, RunLoop(w, files, maxSteps).machine.progress.fed)
  {
    RunAnswers(w, Start(files), 0, Budget(maxSteps));
  }
}
