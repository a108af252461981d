/** The workspace after a run, from the recorded changes; and that read-only runs leave it alone. */
module LoopWorkspace {
  import opened PatchContract
  import opened AgentGateway
  import opened AgentLoop
  import opened LoopTrace

  /** The promise of the patch engine when rolling back does not itself fail. */
  ghost predicate Transactional(w: World) {
    forall step: nat, files: Files, writes: seq<PlannedWrite> ::
      var (outcome, after) := w.writer(step, files, writes);
      AllOrNothing(files, writes, outcome, after) && (!Applied(outcome) ==> after == files)
  }

  // ---- Everything that changed the workspace, in order ------------------------------------------------

  function Perform(g: Gateway, files: Files, change: Change): Files {
    match change
    case ByCall(tick, call) => Execute(g, files, tick, call).1
    case ByPatch(writes) => if AllResolve(writes) then WriteAll(files, writes) else files
  }

  function PerformAll(g: Gateway, files: Files, changes: seq<Change>): Files {
    if changes == [] then files
    else Perform(g, PerformAll(g, files, changes[..|changes| - 1]), changes[|changes| - 1])
  }

  /** The writes of the proposals that were applied, in order. */
  function AppliedWrites(patches: seq<Proposal>, applies: seq<ApplyResult>): seq<seq<PlannedWrite>>
    requires |patches| == |applies|
  {
    if patches == [] then []
    else
      var n := |patches| - 1;
      var earlier := AppliedWrites(patches[..n], applies[..n]);
      if applies[n].applied then earlier + [patches[n].writes] else earlier
  }

  function PatchesIn(changes: seq<Change>): seq<seq<PlannedWrite>> {
    if changes == [] then []
    else
      var earlier := PatchesIn(changes[..|changes| - 1]);
      if changes[|changes| - 1].ByPatch? then earlier + [changes[|changes| - 1].writes] else earlier
  }

  predicate SomeApplied(applies: seq<ApplyResult>) {
    exists i :: 0 <= i < |applies| && applies[i].applied
  }

  /**
   Proposals and results pair up, and the workspace is the initial one changed by the executed calls
   and the applied proposals, in the order they happened.
   */
  ghost predicate Explained(g: Gateway, b: Books, initial: Files) {
    && |b.patches| == |b.applies|
    && b.files == PerformAll(g, initial, b.changes)
    && PatchesIn(b.changes) == AppliedWrites(b.patches, b.applies)
    && (b.hadApply <==> SomeApplied(b.applies))
  }

  lemma ChangesSnoc(g: Gateway, files: Files, changes: seq<Change>, change: Change)
    ensures PerformAll(g, files, changes + [change]) == Perform(g, PerformAll(g, files, changes), change)
    ensures PatchesIn(changes + [change]) ==
            if change.ByPatch? then PatchesIn(changes) + [change.writes] else PatchesIn(changes)
  {
    assert (changes + [change])[..|changes|] == changes;
  }

  lemma CallExplains(w: World, t: Tally, call: ToolCall, initial: Files)
    requires Explained(w.gateway, t.machine.books, initial)
    ensures Explained(w.gateway, RunCall(w, t, call).machine.books, initial)
  {
    ChangesSnoc(w.gateway, initial, t.machine.books.changes, ByCall(t.machine.ticks, call));
    CallBooks(w, t, call);
  }

  lemma CallBooks(w: World, t: Tally, call: ToolCall)
    ensures RunCall(w, t, call).machine.books
         == t.machine.books.(files := Execute(w.gateway, t.machine.books.files, t.machine.ticks, call).1,
                             changes := t.machine.books.changes + [ByCall(t.machine.ticks, call)])
  {
  }

  lemma {:induction false} CallsExplain(w: World, t: Tally, calls: seq<ToolCall>, initial: Files)
    requires Explained(w.gateway, t.machine.books, initial)
    ensures match RunCalls(w, t, calls)
            case AllRan(done) => Explained(w.gateway, done.machine.books, initial)
            case Interrupted(m) => Explained(w.gateway, m.books, initial)
    decreases |calls|
  {
    if calls != [] && !w.cancelled(t.machine.looks) {
      var looked := t.(machine := Look(t.machine));
      CallExplains(w, looked, calls[0], initial);
      CallsExplain(w, RunCall(w, looked, calls[0]), calls[1..], initial);
    }
  }

  /** One more proposal and its result. */
  lemma AppliedWritesSnoc(patches: seq<Proposal>, applies: seq<ApplyResult>, proposal: Proposal, result: ApplyResult)
    requires |patches| == |applies|
    ensures AppliedWrites(patches + [proposal], applies + [result])
         == if result.applied then AppliedWrites(patches, applies) + [proposal.writes]
            else AppliedWrites(patches, applies)
  {
    var n := |patches|;
    assert (patches + [proposal])[..n] == patches && (applies + [result])[..n] == applies;
    assert (applies + [result])[n] == result;
  }

  lemma SomeAppliedSnoc(applies: seq<ApplyResult>, result: ApplyResult)
    ensures SomeApplied(applies + [result]) <==> SomeApplied(applies) || result.applied
  {
    var all := applies + [result];
    assert all[|applies|] == result;
    if i :| 0 <= i < |applies| && applies[i].applied {
      assert all[i].applied;
    }
  }

  lemma ApplyingExplains(g: Gateway, b: Books, initial: Files, files: Files, proposal: Proposal, result: ApplyResult)
    requires Explained(g, b, initial)
    requires AllOrNothing(b.files, proposal.writes, Answered(result), files)
    requires !result.applied ==> files == b.files
    ensures Explained(g, Applying(b, files, proposal, result), initial)
  {
    ChangesSnoc(g, initial, b.changes, ByPatch(proposal.writes));
    AppliedWritesSnoc(b.patches, b.applies, proposal, result);
    SomeAppliedSnoc(b.applies, result);
  }

  lemma LandingExplains(w: World, t: Tally, step: nat, initial: Files)
    requires Transactional(w) && Explained(w.gateway, t.machine.books, initial)
    ensures match ApplyPlanned(w, t, step)
            case Landed(m, _) => Explained(w.gateway, m.books, initial)
            case Ended(f) => Explained(w.gateway, f.machine.books, initial)
  {
    var b := t.machine.books;
    var (outcome, files) := w.writer(step, b.files, t.planned);
    assert AllOrNothing(b.files, t.planned, outcome, files) && (!Applied(outcome) ==> files == b.files);
    if outcome.Answered? {
      ApplyingExplains(w.gateway, b, initial, files, Proposal(step, t.planned), outcome.result);
    }
  }

  ghost predicate NextExplained(g: Gateway, next: Next, initial: Files) {
    match next
    case Continue(m) => Explained(g, m.books, initial)
    case Stop(f) => Explained(g, f.machine.books, initial)
  }

  lemma StepExplains(w: World, m: Machine, step: nat, initial: Files)
    requires Transactional(w) && Explained(w.gateway, m.books, initial)
    ensures NextExplained(w.gateway, RunStep(w, m, step), initial)
  {
    if w.driver(m.progress.fed).Tools? {
      var calls := w.driver(m.progress.fed).calls;
      var t := Tally(Emit(Look(Look(m)), PlanUpdated(|calls|)), [], [], 0, 0, 0);
      CallsExplain(w, t, calls, initial);
      match RunCalls(w, t, calls)
      case Interrupted(_) =>
      case AllRan(done) => LandingExplains(w, done, step, initial);
    }
  }

  lemma {:induction false} RunExplains(w: World, m: Machine, step: nat, budget: nat, initial: Files)
    requires Transactional(w) && Explained(w.gateway, m.books, initial) && step <= budget
    ensures Explained(w.gateway, RunFrom(w, m, step, budget).machine.books, initial)
    decreases budget - step
  {
    if step < budget {
      StepExplains(w, m, step, initial);
      match RunStep(w, m, step)
      case Continue(next) => RunExplains(w, next, step + 1, budget, initial);
      case Stop(_) =>
    }
  }

  /**
   However a run ends, its workspace is the initial one with the executed calls and the applied
   proposals performed in order, and every proposal has exactly one result.
   */
  lemma WorkspaceIsExplained(w: World, files: Files, maxSteps: nat)
    requires Transactional(w)
    ensures Explained(w.gateway, RunLoop(w, files, maxSteps).machine.books, files)
  {
    RunExplains(w, Start(files), 0, Budget(maxSteps), files);
  }

  // ---- Calls that leave the workspace alone -------------------------------------------------------------

  ghost predicate IsQuiet(g: Gateway, change: Change) {
    change.ByCall? ==> forall files: Files :: Execute(g, files, change.tick, change.call).1 == files
  }

  function WriteEach(files: Files, patches: seq<seq<PlannedWrite>>): Files {
    if patches == [] then files
    else
      var before, last := WriteEach(files, patches[..|patches| - 1]), patches[|patches| - 1];
      if AllResolve(last) then WriteAll(before, last) else before
  }

  lemma {:induction false} QuietCallsVanish(g: Gateway, files: Files, changes: seq<Change>)
    requires AllQuiet(g, changes)
    ensures PerformAll(g, files, changes) == WriteEach(files, PatchesIn(changes))
  {
    if changes != [] {
      var init, last := changes[..|changes| - 1], changes[|changes| - 1];
      assert changes == init + [last] && IsQuiet(g, last);
      QuietCallsVanish(g, files, init);
      ChangesSnoc(g, files, init, last);
      if last.ByPatch? {
        assert (PatchesIn(init) + [last.writes])[..|PatchesIn(init)|] == PatchesIn(init);
      }
    }
  }

  /** Reading and planning a patch: the tools that never change the workspace themselves. */
  predicate ReadsOrPlans(tool: Tool) { !IsWrite(tool) || PlansPatch(tool) }

  /** Whatever it has been told, the driver asks for such tools only. */
  ghost predicate OnlyReadsAndPlans(driver: seq<seq<ToolResult>> -> AgentStep) {
    forall fed: seq<seq<ToolResult>> :: driver(fed).Tools? ==> AllReadOrPlan(driver(fed).calls)
  }

  predicate AllReadOrPlan(calls: seq<ToolCall>) {
    forall k :: 0 <= k < |calls| ==> ReadsOrPlans(calls[k].tool)
  }

  ghost predicate AllQuiet(g: Gateway, changes: seq<Change>) {
    forall k :: 0 <= k < |changes| ==> IsQuiet(g, changes[k])
  }

  lemma ReadsAndPlansAreQuiet(g: Gateway, tick: nat, call: ToolCall)
    requires ReadersAreQuiet(g) && ReadsOrPlans(call.tool)
    ensures IsQuiet(g, ByCall(tick, call))
  {
  }

  lemma {:induction false} CallsStayQuiet(w: World, t: Tally, calls: seq<ToolCall>)
    requires ReadersAreQuiet(w.gateway) && AllReadOrPlan(calls)
    requires AllQuiet(w.gateway, t.machine.books.changes)
    ensures match RunCalls(w, t, calls)
            case AllRan(done) => AllQuiet(w.gateway, done.machine.books.changes)
            case Interrupted(m) => AllQuiet(w.gateway, m.books.changes)
    decreases |calls|
  {
    if calls != [] && !w.cancelled(t.machine.looks) {
      var looked := t.(machine := Look(t.machine));
      ReadsAndPlansAreQuiet(w.gateway, t.machine.ticks, calls[0]);
      CallBooks(w, looked, calls[0]);
      CallsStayQuiet(w, RunCall(w, looked, calls[0]), calls[1..]);
    }
  }

  lemma LandingStaysQuiet(w: World, t: Tally, step: nat)
    requires AllQuiet(w.gateway, t.machine.books.changes)
    ensures match ApplyPlanned(w, t, step)
            case Landed(m, _) => AllQuiet(w.gateway, m.books.changes)
            case Ended(f) => AllQuiet(w.gateway, f.machine.books.changes)
  {
  }

  lemma StepStaysQuiet(w: World, m: Machine, step: nat)
    requires ReadersAreQuiet(w.gateway) && OnlyReadsAndPlans(w.driver) && AllQuiet(w.gateway, m.books.changes)
    ensures match RunStep(w, m, step)
            case Continue(next) => AllQuiet(w.gateway, next.books.changes)
            case Stop(f) => AllQuiet(w.gateway, f.machine.books.changes)
  {
    if w.driver(m.progress.fed).Tools? {
      var calls := w.driver(m.progress.fed).calls;
      var t := Tally(Emit(Look(Look(m)), PlanUpdated(|calls|)), [], [], 0, 0, 0);
      CallsStayQuiet(w, t, calls);
      match RunCalls(w, t, calls)
      case Interrupted(_) =>
      case AllRan(done) => LandingStaysQuiet(w, done, step);
    }
  }

  lemma {:induction false} RunStaysQuiet(w: World, m: Machine, step: nat, budget: nat)
    requires ReadersAreQuiet(w.gateway) && OnlyReadsAndPlans(w.driver)
    requires AllQuiet(w.gateway, m.books.changes) && step <= budget
    ensures AllQuiet(w.gateway, RunFrom(w, m, step, budget).machine.books.changes)
    decreases budget - step
  {
    if step < budget {
      StepStaysQuiet(w, m, step);
      match RunStep(w, m, step)
      case Continue(next) => RunStaysQuiet(w, next, step + 1, budget);
      case Stop(_) =>
    }
  }

  /** A driver that only reads and proposes patches leaves the applied proposals, folded in order. */
  lemma QuietRunsAreTheirPatches(w: World, files: Files, maxSteps: nat)
    requires Transactional(w) && ReadersAreQuiet(w.gateway) && OnlyReadsAndPlans(w.driver)
    ensures var b := RunLoop(w, files, maxSteps).machine.books;
            |b.patches| == |b.applies| && b.files == WriteEach(files, AppliedWrites(b.patches, b.applies))
  {
    WorkspaceIsExplained(w, files, maxSteps);
    RunStaysQuiet(w, Start(files), 0, Budget(maxSteps));
    QuietCallsVanish(w.gateway, files, RunLoop(w, files, maxSteps).machine.books.changes);
  }

  // ---- Read-only policies -------------------------------------------------------------------------------

  /** No call of the write class gets past the policy. */
  ghost predicate BlocksWrites(policy: Policy) {
    forall call: ToolCall :: Decide(policy, call).Pass? ==> !IsWrite(call.tool)
  }

  predicate Untouched(b: Books, was: Books) {
    b.files == was.files && SamePatches(b, was)
  }

  lemma BlockedCallDoesNothing(w: World, t: Tally, call: ToolCall)
    requires BlocksWrites(w.gateway.policy) && ReadersAreQuiet(w.gateway)
    ensures Untouched(RunCall(w, t, call).machine.books, t.machine.books)
    ensures RunCall(w, t, call).planned == t.planned
  {
    CallBooks(w, t, call);
    OnlyPassedWritesChange(w.gateway, t.machine.books.files, t.machine.ticks, call);
    OnlyWritesArePlanned(w.gateway, t.machine.books.files, t.machine.ticks, call);
  }

  lemma {:induction false} BlockedCallsDoNothing(w: World, t: Tally, calls: seq<ToolCall>)
    requires BlocksWrites(w.gateway.policy) && ReadersAreQuiet(w.gateway) && t.planned == []
    ensures match RunCalls(w, t, calls)
            case AllRan(done) => Untouched(done.machine.books, t.machine.books) && done.planned == []
            case Interrupted(m) => Untouched(m.books, t.machine.books)
    decreases |calls|
  {
    if calls != [] && !w.cancelled(t.machine.looks) {
      var looked := t.(machine := Look(t.machine));
      BlockedCallDoesNothing(w, looked, calls[0]);
      BlockedCallsDoNothing(w, RunCall(w, looked, calls[0]), calls[1..]);
    }
  }

  lemma StepWritesNothing(w: World, m: Machine, step: nat)
    requires BlocksWrites(w.gateway.policy) && ReadersAreQuiet(w.gateway)
    ensures match RunStep(w, m, step)
            case Continue(next) => Untouched(next.books, m.books)
            case Stop(f) => Untouched(f.machine.books, m.books)
  {
    if w.driver(m.progress.fed).Tools? {
      var calls := w.driver(m.progress.fed).calls;
      var t := Tally(Emit(Look(Look(m)), PlanUpdated(|calls|)), [], [], 0, 0, 0);
      BlockedCallsDoNothing(w, t, calls);
    }
  }

  lemma {:induction false} RunWritesNothing(w: World, m: Machine, step: nat, budget: nat)
    requires BlocksWrites(w.gateway.policy) && ReadersAreQuiet(w.gateway) && step <= budget
    ensures Untouched(RunFrom(w, m, step, budget).machine.books, m.books)
    decreases budget - step
  {
    if step < budget {
      StepWritesNothing(w, m, step);
      match RunStep(w, m, step)
      case Continue(next) => RunWritesNothing(w, next, step + 1, budget);
      case Stop(_) =>
    }
  }

  /**
   Under the read-only policy of any registry, whatever the driver asks for, whatever the writer would
   do and whatever the write-class tools would do to the files, nothing is proposed and the workspace
   stays as it was.
   */
  lemma ReadOnlyRunsLeaveTheWorkspace(w: World, registry: seq<ToolDescriptor>, files: Files, maxSteps: nat)
    requires w.gateway.policy == ReadOnlyPolicy(registry) && ReadersAreQuiet(w.gateway)
    ensures var f := RunLoop(w, files, maxSteps);
            f.machine.books.files == files && f.outcome.patches == [] && f.outcome.applies == []
  {
    EveryTraceIsWellFormed(w, files, maxSteps);
    forall call: ToolCall
      ensures Decide(w.gateway.policy, call).Pass? ==> !IsWrite(call.tool)
    {
      ReadOnlyPolicyBlocksWrites(registry, call);
    }
    RunWritesNothing(w, Start(files), 0, Budget(maxSteps));
  }
}
