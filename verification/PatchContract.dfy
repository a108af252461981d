/** Planned writes, what applying them means, and the promise the transactional writer makes. */
module PatchContract {
  import opened Options
  import opened WorkspacePaths

  /** File contents by target.  Hashes are compared as the contents they digest. */
  type Files = map<Target, string>

  datatype FileOperation = Create | Modify

  /** `target` is what the path guard answered for `path`; it refuses escapes and symlinks. */
  datatype PlannedWrite = PlannedWrite(
    path: string,
    target: Option<Target>,
    expectedBefore: string,
    after: string,
    operation: FileOperation)

  /** The reason codes, one constructor each. */
  datatype Reason =
    | AppliedAll | AppliedJournalWriteDegraded
    | PathLeaseMissing | OperationPrecondition | StalePrecondition
    | ToctouPrecondition | PreApplyReadError | PreApplyRevalidationError
    | IoRolledBack | ReadBackMismatch | ReadBackError | RollbackFailedCritical
    | CrossWorkerPathConflict

  datatype ApplyResult = ApplyResult(
    applied: bool,
    appliedFiles: seq<string>,
    conflictPaths: seq<string>,
    rolledBack: bool,
    reason: Reason)

  /** `Refused` is an error return; `Answered` is an apply result, applied or not. */
  datatype Outcome = Answered(result: ApplyResult) | Refused(message: string)

  predicate Applied(outcome: Outcome) {
    outcome.Answered? && outcome.result.applied
  }

  function Content(files: Files, target: Target): Option<string> {
    if target in files then Some(files[target]) else None
  }

  predicate AllResolve(writes: seq<PlannedWrite>) {
    forall w :: w in writes ==> w.target.Some?
  }

  function TargetOf(w: PlannedWrite): Target
    requires w.target.Some?
  {
    w.target.value
  }

  /** The files with the writes performed in order. */
  function WriteAll(files: Files, writes: seq<PlannedWrite>): Files
    requires AllResolve(writes)
  {
    if writes == [] then files
    else
      var last := writes[|writes| - 1];
      WriteAll(files, writes[..|writes| - 1])[TargetOf(last) := last.after]
  }

  /** The file is as the write expects it: absent for a create, present for a modify, right content. */
  predicate PreimageOk(files: Files, w: PlannedWrite)
    requires w.target.Some?
  {
    && (w.operation.Create? <==> TargetOf(w) !in files)
    && w.expectedBefore == Content(files, TargetOf(w)).GetOr("")
  }

  predicate PreimagesOk(files: Files, writes: seq<PlannedWrite>)
    requires AllResolve(writes)
  {
    forall w :: w in writes ==> PreimageOk(files, w)
  }

  predicate DistinctPaths(writes: seq<PlannedWrite>) {
    forall i, j :: 0 <= i < j < |writes| ==> writes[i].path != writes[j].path
  }

  predicate PathTouched(writes: seq<PlannedWrite>, path: string) {
    exists i :: 0 <= i < |writes| && writes[i].path == path
  }

  /** Paths that are repeated, or that a create finds present or a modify finds absent. */
  function OperationConflicts(files: Files, writes: seq<PlannedWrite>): seq<string>
    requires AllResolve(writes)
  {
    if writes == [] then []
    else
      var before, w := writes[..|writes| - 1], writes[|writes| - 1];
      var earlier := OperationConflicts(files, before);
      var repeated := if PathTouched(before, w.path) then earlier + [w.path] else earlier;
      if w.operation.Create? == (TargetOf(w) in files) then repeated + [w.path] else repeated
  }

  /** Paths whose content is no longer what the plan read. */
  function StalePaths(files: Files, writes: seq<PlannedWrite>): seq<string>
    requires AllResolve(writes)
  {
    if writes == [] then []
    else
      var before, w := writes[..|writes| - 1], writes[|writes| - 1];
      var earlier := StalePaths(files, before);
      if Content(files, TargetOf(w)).GetOr("") != w.expectedBefore then earlier + [w.path] else earlier
  }

  lemma {:induction false} NoConflictsIff(files: Files, writes: seq<PlannedWrite>)
    requires AllResolve(writes)
    ensures OperationConflicts(files, writes) == [] && StalePaths(files, writes) == [] <==>
            DistinctPaths(writes) && PreimagesOk(files, writes)
  {
    if writes != [] {
      var before, w := writes[..|writes| - 1], writes[|writes| - 1];
      assert writes == before + [w];
      NoConflictsIff(files, before);
      DistinctSnoc(before, w);
      PreimagesSnoc(files, before, w);
    }
  }

  lemma PreimagesSnoc(files: Files, before: seq<PlannedWrite>, w: PlannedWrite)
    requires AllResolve(before + [w])
    ensures AllResolve(before) && w.target.Some?
    ensures PreimagesOk(files, before + [w]) <==> PreimagesOk(files, before) && PreimageOk(files, w)
  {
    assert w in before + [w];
    forall x | x in before
      ensures x in before + [w]
    {
    }
  }

  lemma DistinctSnoc(before: seq<PlannedWrite>, w: PlannedWrite)
    ensures DistinctPaths(before + [w]) <==> DistinctPaths(before) && !PathTouched(before, w.path)
  {
    var writes := before + [w];
    assert writes[|before|] == w;
    assert forall i :: 0 <= i < |before| ==> writes[i] == before[i];
  }

  /**
   The writer's promise.  Applied: every pre-image was as expected and every write landed, in order.
   Not applied: nothing changed, unless the result itself reports that rolling back failed.
   */
  ghost predicate AllOrNothing(before: Files, writes: seq<PlannedWrite>, outcome: Outcome, after: Files) {
    && (Applied(outcome) ==>
          && AllResolve(writes) && DistinctPaths(writes) && PreimagesOk(before, writes)
          && after == WriteAll(before, writes))
    && (outcome.Answered? && !outcome.result.applied && !outcome.result.reason.RollbackFailedCritical? ==>
          after == before)
  }

  lemma {:induction false} UntouchedTarget(files: Files, writes: seq<PlannedWrite>, target: Target)
    requires AllResolve(writes)
    requires forall w :: w in writes ==> TargetOf(w) != target
    ensures Content(WriteAll(files, writes), target) == Content(files, target)
  {
    if writes != [] {
      UntouchedTarget(files, writes[..|writes| - 1], target);
    }
  }

  lemma SameContents(a: Files, b: Files)
    requires forall t :: Content(a, t) == Content(b, t)
    ensures a == b
  {
    assert forall t :: t in a <==> Content(a, t).Some?;
    assert forall t :: t in b <==> Content(b, t).Some?;
    assert forall t :: t in a ==> Content(a, t) == Some(a[t]) && Content(b, t) == Some(b[t]);
  }

  /** The last write to a target decides its content. */
  lemma {:induction false} LastWriteWins(files: Files, writes: seq<PlannedWrite>, k: nat)
    requires AllResolve(writes) && k < |writes|
    requires forall i :: k < i < |writes| ==> TargetOf(writes[i]) != TargetOf(writes[k])
    ensures Content(WriteAll(files, writes), TargetOf(writes[k])) == Some(writes[k].after)
  {
    if k < |writes| - 1 {
      LastWriteWins(files, writes[..|writes| - 1], k);
    }
  }
}
