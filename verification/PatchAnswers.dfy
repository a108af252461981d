/**
 What the writer answers, fault by fault, read off the patch and not off the commit loop.

 The first write that does not go through decides the reason and the paths; whether everything before it
 could be taken back decides the rest.
 */
module PatchAnswers {
  import opened Lists
  import opened Options
  import opened PatchContract
  import opened PatchEngine
  import StringOrder
  import opened Text
  import opened WorkspacePaths

  // ---- Rejections ----------------------------------------------------------------------------------------

  predicate Ascending(paths: seq<string>) {
    forall i, j :: 0 <= i < j < |paths| ==> StringOrder.Less(paths[i], paths[j])
  }

  lemma {:induction false} InsertAscending(path: string, ordered: seq<string>)
    requires Ascending(ordered)
    ensures Ascending(InsertPath(path, ordered))
  {
    if ordered != [] && path != ordered[0] {
      StringOrder.Total(path, ordered[0]);
      var rest := ordered[1..];
      if StringOrder.AtMost(path, ordered[0]) {
        forall p | p in rest
          ensures StringOrder.Less(path, p)
        {
          StringOrder.Transitive(path, ordered[0], p);
          if path == p {
            StringOrder.Antisymmetric(path, ordered[0]);
          }
        }
      } else {
        InsertAscending(path, rest);
        LeastInFront(ordered[0], InsertPath(path, rest));
      }
    }
  }

  lemma LeastInFront(least: string, paths: seq<string>)
    requires Ascending(paths) && forall p :: p in paths ==> StringOrder.Less(least, p)
    ensures Ascending([least] + paths)
  {
  }

  lemma {:induction false} TouchedAscending(writes: seq<PlannedWrite>)
    ensures Ascending(TouchedPaths(writes))
  {
    if writes != [] {
      TouchedAscending(writes[..|writes| - 1]);
      InsertAscending(writes[|writes| - 1].path, TouchedPaths(writes[..|writes| - 1]));
    }
  }

  lemma {:induction false} MissingAscending(touched: seq<string>, leased: set<string>)
    requires Ascending(touched)
    ensures Ascending(Missing(touched, leased))
  {
    if touched != [] {
      MissingAscending(touched[1..], leased);
      if touched[0] !in leased {
        LeastInFront(touched[0], Missing(touched[1..], leased));
      }
    }
  }

  /** A lease without an id or a token covers nothing. */
  predicate Void(lease: Lease) { Trim(lease.leaseId) == "" || Trim(lease.fenceToken) == "" }

  /** The paths the lease does not cover. */
  predicate Uncovered(writes: seq<PlannedWrite>, lease: Lease, path: string) {
    PathTouched(writes, path) && (Void(lease) || path !in lease.paths)
  }

  /** An earlier write has taken the path. */
  predicate Repeats(writes: seq<PlannedWrite>, k: nat)
    requires k < |writes|
  {
    exists j :: 0 <= j < k && writes[j].path == writes[k].path
  }

  /** The file is there for a create, or it is not there for a modify. */
  predicate Misplaced(files: Files, w: PlannedWrite)
    requires w.target.Some?
  {
    if w.operation.Create? then w.target.value in files else w.target.value !in files
  }

  function Once(path: string, named: bool): seq<string> { if named then [path] else [] }

  function NamedByOperation(files: Files, writes: seq<PlannedWrite>, k: nat): seq<string>
    requires k < |writes| && writes[k].target.Some?
  {
    Once(writes[k].path, Repeats(writes, k)) + Once(writes[k].path, Misplaced(files, writes[k]))
  }

  function NamedAsStale(files: Files, w: PlannedWrite): seq<string>
    requires w.target.Some?
  {
    Once(w.path, Content(files, w.target.value).GetOr("") != w.expectedBefore)
  }

  /** A path for each repetition and one for each misplaced operation, in the order of the writes. */
  predicate ReportsOperations(files: Files, writes: seq<PlannedWrite>, parts: seq<seq<string>>) {
    && |parts| == |writes|
    && forall k :: 0 <= k < |writes| ==>
         writes[k].target.Some? && parts[k] == NamedByOperation(files, writes, k)
  }

  /** A path for each file that is not as it was read. */
  predicate ReportsStale(files: Files, writes: seq<PlannedWrite>, parts: seq<seq<string>>) {
    && |parts| == |writes|
    && forall k :: 0 <= k < |writes| ==> writes[k].target.Some? && parts[k] == NamedAsStale(files, writes[k])
  }

  lemma RepeatsBefore(writes: seq<PlannedWrite>, n: nat)
    requires n < |writes|
    ensures Repeats(writes, n) <==> PathTouched(writes[..n], writes[n].path)
    ensures forall k :: 0 <= k < n ==> (Repeats(writes[..n], k) <==> Repeats(writes, k))
  {
    if j :| 0 <= j < n && writes[j].path == writes[n].path {
      assert writes[..n][j].path == writes[n].path;
    }
    forall k | 0 <= k < n
      ensures Repeats(writes[..n], k) <==> Repeats(writes, k)
    {
      if j :| 0 <= j < k && writes[j].path == writes[k].path {
        assert writes[..n][j].path == writes[..n][k].path;
      }
    }
  }

  lemma SplitLast(writes: seq<PlannedWrite>) returns (before: seq<PlannedWrite>, w: PlannedWrite)
    requires writes != [] && AllResolve(writes)
    ensures before == writes[..|writes| - 1] && w == writes[|writes| - 1] && writes == before + [w]
    ensures AllResolve(before) && w.target.Some?
  {
    before, w := writes[..|writes| - 1], writes[|writes| - 1];
  }

  lemma OneMoreOperation(files: Files, before: seq<PlannedWrite>, w: PlannedWrite, parts: seq<seq<string>>)
    requires ReportsOperations(files, before, parts) && w.target.Some?
    ensures ReportsOperations(files, before + [w], parts + [NamedByOperation(files, before + [w], |before|)])
  {
    var writes := before + [w];
    RepeatsBefore(writes, |before|);
    assert writes[..|before|] == before;
    forall k | 0 <= k < |before|
      ensures NamedByOperation(files, writes, k) == NamedByOperation(files, before, k)
    {
      assert writes[k] == before[k];
    }
  }

  lemma LastOperation(files: Files, before: seq<PlannedWrite>, w: PlannedWrite)
    requires AllResolve(before + [w]) && w.target.Some? && AllResolve(before)
    ensures OperationConflicts(files, before + [w])
         == OperationConflicts(files, before) + NamedByOperation(files, before + [w], |before|)
  {
    var writes := before + [w];
    RepeatsBefore(writes, |before|);
    assert writes[..|before|] == before;
  }

  lemma {:induction false} OperationsAreReported(files: Files, writes: seq<PlannedWrite>)
    returns (parts: seq<seq<string>>)
    requires AllResolve(writes)
    ensures ReportsOperations(files, writes, parts) && OperationConflicts(files, writes) == Flat(parts)
  {
    parts := [];
    if writes != [] {
      var before, w := SplitLast(writes);
      var earlier := OperationsAreReported(files, before);
      OneMoreOperation(files, before, w, earlier);
      LastOperation(files, before, w);
      parts := earlier + [NamedByOperation(files, before + [w], |before|)];
      FlatSnoc(earlier, NamedByOperation(files, before + [w], |before|));
    }
  }

  lemma OneMoreStale(files: Files, before: seq<PlannedWrite>, w: PlannedWrite, parts: seq<seq<string>>)
    requires ReportsStale(files, before, parts) && w.target.Some?
    ensures ReportsStale(files, before + [w], parts + [NamedAsStale(files, w)])
  {
  }

  lemma LastStale(files: Files, before: seq<PlannedWrite>, w: PlannedWrite)
    requires AllResolve(before + [w]) && w.target.Some? && AllResolve(before)
    ensures StalePaths(files, before + [w]) == StalePaths(files, before) + NamedAsStale(files, w)
  {
    assert (before + [w])[..|before|] == before;
  }

  lemma {:induction false} StaleIsReported(files: Files, writes: seq<PlannedWrite>) returns (parts: seq<seq<string>>)
    requires AllResolve(writes)
    ensures ReportsStale(files, writes, parts) && StalePaths(files, writes) == Flat(parts)
  {
    parts := [];
    if writes != [] {
      var before, w := SplitLast(writes);
      var earlier := StaleIsReported(files, before);
      OneMoreStale(files, before, w, earlier);
      LastStale(files, before, w);
      parts := earlier + [NamedAsStale(files, w)];
      FlatSnoc(earlier, NamedAsStale(files, w));
    }
  }

  /** Not applied, with these paths and this reason. */
  predicate NotApplied(outcome: Outcome, named: seq<string>, conflicts: seq<string>, rolledBack: bool, reason: Reason) {
    && outcome.Answered? && !outcome.result.applied && outcome.result.rolledBack == rolledBack
    && outcome.result.appliedFiles == named && outcome.result.conflictPaths == conflicts
    && outcome.result.reason == reason
  }

  /** A lease that covers too little names what it does not cover, in order. */
  lemma LeaseRejects(files: Files, writes: seq<PlannedWrite>, lease: Lease) returns (conflicts: seq<string>)
    requires AllResolve(writes) && (Void(lease) || exists path :: Uncovered(writes, lease, path))
    ensures NotApplied(Rejection(files, writes, Some(lease)), [], conflicts, false, PathLeaseMissing)
    ensures Ascending(conflicts) && forall path :: path in conflicts <==> Uncovered(writes, lease, path)
  {
    var touched := TouchedPaths(writes);
    TouchedAscending(writes);
    MissingAscending(touched, lease.paths);
    conflicts := if Void(lease) then touched else Missing(touched, lease.paths);
    if !Void(lease) {
      var path :| Uncovered(writes, lease, path);
      assert path in Missing(touched, lease.paths);
    }
  }

  /** Otherwise repeated paths and misplaced operations are named, and if there are none the stale files. */
  lemma WritesReject(files: Files, writes: seq<PlannedWrite>, lease: Option<Lease>)
    returns (operations: seq<seq<string>>, stale: seq<seq<string>>)
    requires AllResolve(writes) && Unleased(TouchedPaths(writes), lease).None?
    ensures ReportsOperations(files, writes, operations) && ReportsStale(files, writes, stale)
    ensures var r := Rejection(files, writes, lease);
            if Flat(operations) != [] then NotApplied(r, [], Flat(operations), false, OperationPrecondition)
            else NotApplied(r, [], Flat(stale), false, StalePrecondition)
  {
    operations := OperationsAreReported(files, writes);
    stale := StaleIsReported(files, writes);
  }

  // ---- The commit ----------------------------------------------------------------------------------------

  /** The first `k` writes go through. */
  ghost predicate GoThrough(writes: seq<PlannedWrite>, k: nat, faults: Faults)
    requires k <= |writes|
  {
    && (forall i :: 0 <= i < k ==> faults.recheck(i).Rechecks? && !faults.replace(i) && faults.readBack(i).Matches?)
    && AliasesHarmless(writes, k)
  }

  /** The paths of the first `k` writes. */
  predicate Names(paths: seq<string>, writes: seq<PlannedWrite>, k: nat)
    requires k <= |writes|
  {
    |paths| == k && forall i :: 0 <= i < k ==> paths[i] == writes[i].path
  }

  /** After a stop: if the first `n` writes can be taken back the reason stands, and otherwise that is the reason. */
  ghost predicate TakenBack(
    outcome: Outcome, n: nat, named: seq<string>, conflicts: seq<string>, reason: Reason, faults: Faults)
  {
    if exists i :: 0 <= i < n && faults.rollback(i)
    then NotApplied(outcome, named, conflicts, true, RollbackFailedCritical)
    else NotApplied(outcome, named, conflicts, true, reason)
  }

  lemma {:induction false} FirstStopDecides(writes: seq<PlannedWrite>, j: nat, k: nat, faults: Faults)
    requires j <= k <= |writes| && GoThrough(writes, k, faults)
    ensures CommitOutcome(writes, j, faults) == CommitOutcome(writes, k, faults)
    decreases k - j
  {
    if j < k {
      assert AliasesHarmless(writes, j + 1);
      FirstStopDecides(writes, j + 1, k, faults);
    }
  }

  /** Every write goes through: all paths are named, and a journal that cannot say so only degrades the answer. */
  lemma AllGoThrough(writes: seq<PlannedWrite>, faults: Faults)
    requires GoThrough(writes, |writes|, faults)
    ensures var outcome := CommitOutcome(writes, 0, faults);
            && Applied(outcome) && Names(outcome.result.appliedFiles, writes, |writes|)
            && outcome.result.conflictPaths == [] && !outcome.result.rolledBack
            && outcome.result.reason == if faults.terminalEvent then AppliedJournalWriteDegraded else AppliedAll
  {
    FirstStopDecides(writes, 0, |writes|, faults);
  }

  /** A stop that the journal cannot record is an error. */
  lemma UnrecordedStop(writes: seq<PlannedWrite>, k: nat, faults: Faults)
    requires k < |writes| && GoThrough(writes, k, faults) && !GoThrough(writes, k + 1, faults) && faults.terminalEvent
    ensures CommitOutcome(writes, 0, faults).Refused?
  {
    FirstStopDecides(writes, 0, k, faults);
  }

  /** A write whose checks cannot be repeated, or meets a file it does not fit, stops the patch before it is made. */
  lemma CheckStops(writes: seq<PlannedWrite>, k: nat, faults: Faults)
    requires k < |writes| && GoThrough(writes, k, faults) && !faults.terminalEvent
    requires faults.recheck(k).Rechecks? ==> !AliasesHarmless(writes, k + 1)
    ensures var outcome, named := CommitOutcome(writes, 0, faults), Paths(writes[..k]);
            var reason := match faults.recheck(k)
                          case GuardFails => PreApplyRevalidationError
                          case ReadFails => PreApplyReadError
                          case Rechecks => ToctouPrecondition;
            var conflicts := if faults.recheck(k).GuardFails? then [] else [writes[k].path];
            && Names(named, writes, k)
            && if k == 0 then NotApplied(outcome, [], conflicts, false, reason)
               else TakenBack(outcome, k, named, conflicts, reason, faults)
  {
    FirstStopDecides(writes, 0, k, faults);
  }

  /** A write that cannot be made stops it too, and names no conflict. */
  lemma ReplaceStops(writes: seq<PlannedWrite>, k: nat, faults: Faults)
    requires k < |writes| && GoThrough(writes, k, faults) && !faults.terminalEvent
    requires faults.recheck(k).Rechecks? && AliasesHarmless(writes, k + 1) && faults.replace(k)
    ensures Names(Paths(writes[..k]), writes, k)
    ensures TakenBack(CommitOutcome(writes, 0, faults), k, Paths(writes[..k]), [], IoRolledBack, faults)
  {
    FirstStopDecides(writes, 0, k, faults);
  }

  /** A write that does not read back is taken back with the others, and named. */
  lemma ReadBackStops(writes: seq<PlannedWrite>, k: nat, faults: Faults)
    requires k < |writes| && GoThrough(writes, k, faults) && !faults.terminalEvent
    requires faults.recheck(k).Rechecks? && AliasesHarmless(writes, k + 1) && !faults.replace(k)
    requires !faults.readBack(k).Matches?
    ensures TakenBack(CommitOutcome(writes, 0, faults), k + 1, [], [writes[k].path],
                      if faults.readBack(k).Mismatches? then ReadBackMismatch else ReadBackError, faults)
  {
    FirstStopDecides(writes, 0, k, faults);
  }

  /** The whole answer: a path that does not resolve or a file that cannot be read is an error before anything else. */
  lemma PreflightComesFirst(files: Files, writes: seq<PlannedWrite>, lease: Option<Lease>, faults: Faults)
    ensures (exists i :: 0 <= i < |writes| && (writes[i].target.None? || faults.preflightRead(i))) ==>
              ApplyOutcome(files, writes, lease, faults).Refused?
    ensures (forall i :: 0 <= i < |writes| ==> writes[i].target.Some? && !faults.preflightRead(i)) ==>
              && AllResolve(writes)
              && ApplyOutcome(files, writes, lease, faults)
              == if !NothingToReject(files, writes, lease) then
                   if faults.rejectedEvent then Refused("journal") else Rejection(files, writes, lease)
                 else if faults.plannedEvent then Refused("journal")
                 else CommitOutcome(writes, 0, faults)
  {
    ScanStops(writes, 0, faults);
  }

  lemma {:induction false} ScanStops(writes: seq<PlannedWrite>, k: nat, faults: Faults)
    requires k <= |writes|
    ensures ScanRefusal(writes, k, faults).None? <==>
            forall i :: k <= i < |writes| ==> writes[i].target.Some? && !faults.preflightRead(i)
    decreases |writes| - k
  {
    if k < |writes| {
      ScanStops(writes, k + 1, faults);
    }
  }
}
