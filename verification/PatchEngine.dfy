/**
 `PatchEngine::apply_inner` for create and modify: preflight, write one by one with revalidation and
 read-back, roll back on any failure.  Disk faults are an oracle; nothing else touches the files
 during one call.
 */
module PatchEngine {
  import opened Options
  import StringOrder
  import opened WorkspacePaths
  import opened PatchContract
  import opened Text

  /** How the checks around one write can go wrong: its file cannot be read, or its path is refused by now. */
  datatype Recheck = Rechecks | ReadFails | GuardFails

  datatype ReadBack = Matches | Mismatches | CannotRead

  /** Which disk operation fails: by write index, and for the journal by event. */
  datatype Faults = Faults(
    preflightRead: nat -> bool,
    recheck: nat -> Recheck,
    replace: nat -> bool,
    readBack: nat -> ReadBack,
    rollback: nat -> bool,
    rejectedEvent: bool,
    plannedEvent: bool,
    terminalEvent: bool)

  /** The lease a patch is applied under. */
  datatype Lease = Lease(leaseId: string, fenceToken: string, paths: set<string>)

  datatype Prepared = Prepared(target: Target, before: Option<string>, operation: FileOperation)

  ghost predicate NoRollbackFault(faults: Faults) {
    forall i: nat :: !faults.rollback(i)
  }

  ghost predicate NoFault(faults: Faults) {
    && NoRollbackFault(faults)
    && !faults.rejectedEvent && !faults.plannedEvent && !faults.terminalEvent
    && forall i: nat ::
         !faults.preflightRead(i) && faults.recheck(i).Rechecks? && !faults.replace(i) && faults.readBack(i).Matches?
  }

  // ---- Rejection before any write -------------------------------------------------------------------

  /** Insertion into an ordered set. */
  function InsertPath(path: string, ordered: seq<string>): (r: seq<string>)
    ensures forall p :: p in r <==> p == path || p in ordered
  {
    if ordered == [] then [path]
    else if path == ordered[0] then ordered
    else if StringOrder.AtMost(path, ordered[0]) then [path] + ordered
    else [ordered[0]] + InsertPath(path, ordered[1..])
  }

  /** The ordered set of all paths a patch touches. */
  function TouchedPaths(writes: seq<PlannedWrite>): (r: seq<string>)
    ensures forall p :: p in r <==> PathTouched(writes, p)
  {
    if writes == [] then []
    else
      var before, w := writes[..|writes| - 1], writes[|writes| - 1];
      assert writes == before + [w];
      assert forall p :: PathTouched(writes, p) <==> PathTouched(before, p) || p == w.path by {
        TouchedSnoc(before, w);
      }
      InsertPath(w.path, TouchedPaths(before))
  }

  lemma TouchedSnoc(before: seq<PlannedWrite>, w: PlannedWrite)
    ensures forall p :: PathTouched(before + [w], p) <==> PathTouched(before, p) || p == w.path
  {
    var writes := before + [w];
    forall p
      ensures PathTouched(writes, p) <==> PathTouched(before, p) || p == w.path
    {
      if PathTouched(before, p) {
        var i :| 0 <= i < |before| && before[i].path == p;
        assert writes[i].path == p;
      }
      assert writes[|before|].path == w.path;
    }
  }

  function Missing(touched: seq<string>, leased: set<string>): (r: seq<string>)
    ensures forall p :: p in r <==> p in touched && p !in leased
  {
    if touched == [] then []
    else (if touched[0] in leased then [] else [touched[0]]) + Missing(touched[1..], leased)
  }

  predicate IsBlank(lease: Lease) {
    Trim(lease.leaseId) == "" || Trim(lease.fenceToken) == ""
  }

  /** `missing_leased_paths`: a lease with a blank id or token covers nothing, not even an empty patch. */
  function Unleased(touched: seq<string>, lease: Option<Lease>): Option<seq<string>> {
    if lease.None? then None
    else if IsBlank(lease.value) then Some(touched)
    else if Missing(touched, lease.value.paths) == [] then None
    else Some(Missing(touched, lease.value.paths))
  }

  predicate Covers(lease: Lease, writes: seq<PlannedWrite>) {
    !IsBlank(lease) && forall w :: w in writes ==> w.path in lease.paths
  }

  /** The lease objects to nothing exactly when there is none or it covers every path. */
  lemma UnleasedIffNotCovered(writes: seq<PlannedWrite>, lease: Option<Lease>)
    ensures Unleased(TouchedPaths(writes), lease).None? <==> (lease.Some? ==> Covers(lease.value, writes))
  {
    if lease.Some? {
      var missing := Missing(TouchedPaths(writes), lease.value.paths);
      assert missing == [] || missing[0] in missing;
      forall w | w in writes
        ensures PathTouched(writes, w.path)
      {
      }
    }
  }

  predicate NothingToReject(files: Files, writes: seq<PlannedWrite>, lease: Option<Lease>)
    requires AllResolve(writes)
  {
    && Unleased(TouchedPaths(writes), lease).None?
    && OperationConflicts(files, writes) == [] && StalePaths(files, writes) == []
  }

  function Rejected(conflicts: seq<string>, reason: Reason): Outcome {
    Answered(ApplyResult(false, [], conflicts, false, reason))
  }

  /** The lease comes first, then operations, then stale content; each names all offending paths. */
  function Rejection(files: Files, writes: seq<PlannedWrite>, lease: Option<Lease>): Outcome
    requires AllResolve(writes)
  {
    var unleased := Unleased(TouchedPaths(writes), lease);
    if unleased.Some? then Rejected(unleased.value, PathLeaseMissing)
    else if OperationConflicts(files, writes) != [] then
      Rejected(OperationConflicts(files, writes), OperationPrecondition)
    else Rejected(StalePaths(files, writes), StalePrecondition)
  }

  // ---- Two spellings of one file in a single patch ------------------------------------------------

  /**
   Two writes to one file under different spellings pass only when the first leaves the content
   that the second expects, and the second does not create.
   */
  predicate HarmlessPair(first: PlannedWrite, second: PlannedWrite) {
    first.target == second.target ==>
      second.operation.Modify? && first.after == second.expectedBefore
  }

  ghost predicate AliasesHarmless(writes: seq<PlannedWrite>, n: nat)
    requires n <= |writes|
  {
    forall i, j :: 0 <= i < j < n ==> HarmlessPair(writes[i], writes[j])
  }

  /** What `revalidate_before_apply` looks at, just before the write. */
  predicate Revalidates(files: Files, w: PlannedWrite)
    requires w.target.Some?
  {
    match w.operation
    case Create => TargetOf(w) !in files
    case Modify => Content(files, TargetOf(w)) == Some(w.expectedBefore)
  }

  /** `revalidate_before_apply`: the conflicting paths and the reason, unless the write may go ahead. */
  function RecheckBefore(files: Files, w: PlannedWrite, recheck: Recheck): Option<(seq<string>, Reason)>
    requires w.target.Some?
  {
    match recheck
    case GuardFails => Some(([], PreApplyRevalidationError))
    case ReadFails => Some(([w.path], PreApplyReadError))
    case Rechecks => if Revalidates(files, w) then None else Some(([w.path], ToctouPrecondition))
  }

  lemma LastAlias(writes: seq<PlannedWrite>, n: nat, k: nat) returns (last: nat)
    requires k < n < |writes| && writes[k].target == writes[n].target
    ensures k <= last < n && writes[last].target == writes[n].target
    ensures forall i :: last < i < n ==> writes[i].target != writes[n].target
  {
    last := n - 1;
    while writes[last].target != writes[n].target
      invariant k <= last < n
      invariant forall i :: last < i < n ==> writes[i].target != writes[n].target
      decreases last
    {
      last := last - 1;
    }
  }

  lemma RevalidatesAfterAlias(before: Files, writes: seq<PlannedWrite>, n: nat, last: nat)
    requires AllResolve(writes) && last < n < |writes|
    requires writes[last].target == writes[n].target
    requires forall i :: last < i < n ==> writes[i].target != writes[n].target
    ensures Revalidates(WriteAll(before, writes[..n]), writes[n]) <==> HarmlessPair(writes[last], writes[n])
  {
    LastWriteWins(before, writes[..n], last);
  }

  /** Revalidation of the next write is exactly the alias condition for it. */
  lemma RevalidatesIffHarmless(before: Files, writes: seq<PlannedWrite>, n: nat)
    requires AllResolve(writes) && n < |writes| && PreimagesOk(before, writes)
    requires AliasesHarmless(writes, n)
    ensures Revalidates(WriteAll(before, writes[..n]), writes[n]) <==> AliasesHarmless(writes, n + 1)
  {
    var w := writes[n];
    if k :| 0 <= k < n && writes[k].target == w.target {
      var last := LastAlias(writes, n, k);
      RevalidatesAfterAlias(before, writes, n, last);
      assert PreimageOk(before, writes[last]) && PreimageOk(before, w);
      forall i | 0 <= i < n && HarmlessPair(writes[last], w)
        ensures HarmlessPair(writes[i], w)
      {
        assert i < last ==> HarmlessPair(writes[i], writes[last]);
      }
    } else {
      UntouchedTarget(before, writes[..n], TargetOf(w));
      assert PreimageOk(before, w);
    }
  }

  /** The patch goes through when nothing fails on disk: exactly these conditions. */
  ghost predicate Admissible(files: Files, writes: seq<PlannedWrite>, lease: Option<Lease>) {
    && AllResolve(writes) && DistinctPaths(writes) && PreimagesOk(files, writes)
    && (lease.Some? ==> Covers(lease.value, writes))
    && AliasesHarmless(writes, |writes|)
  }

  lemma AdmissibleIff(files: Files, writes: seq<PlannedWrite>, lease: Option<Lease>)
    requires AllResolve(writes)
    ensures Admissible(files, writes, lease) <==>
            NothingToReject(files, writes, lease) && AliasesHarmless(writes, |writes|)
    ensures NothingToReject(files, writes, lease) ==> DistinctPaths(writes) && PreimagesOk(files, writes)
  {
    NoConflictsIff(files, writes);
    UnleasedIffNotCovered(writes, lease);
  }

  // ---- The engine -----------------------------------------------------------------------------------

  /** The prepared targets remember the content each file had at preflight. */
  ghost predicate Captures(targets: seq<Prepared>, writes: seq<PlannedWrite>, files: Files)
    requires AllResolve(writes)
  {
    && |targets| == |writes|
    && forall i :: 0 <= i < |writes| ==>
         targets[i] == Prepared(TargetOf(writes[i]), Content(files, TargetOf(writes[i])), writes[i].operation)
  }

  /** Every target that may still differ from its saved content is among the first `n`. */
  ghost predicate RestoredBeyond(files: Files, before: Files, targets: seq<Prepared>, n: nat)
    requires n <= |targets|
  {
    forall t :: Content(files, t) == Content(before, t) || exists k :: 0 <= k < n && targets[k].target == t
  }

  function AfterFailure(touched: bool, rolledBack: bool, applied: seq<string>, conflicts: seq<string>,
                        reason: Reason, faults: Faults): Outcome {
    if faults.terminalEvent then Refused("journal")
    else if touched && !rolledBack then Answered(ApplyResult(false, applied, conflicts, true, RollbackFailedCritical))
    else Answered(ApplyResult(false, applied, conflicts, touched, reason))
  }

  // ---- The verdict ----------------------------------------------------------------------------------

  function Paths(writes: seq<PlannedWrite>): seq<string> {
    seq(|writes|, i requires 0 <= i < |writes| => writes[i].path)
  }

  /** A commit that stops: what is undone, and what the result will name. */
  datatype Stop = Stop(touched: bool, undo: nat, applied: seq<string>, conflicts: seq<string>, reason: Reason)

  /** Why write `k` stops the commit, if everything before it went through. */
  ghost function StopAt(writes: seq<PlannedWrite>, k: nat, faults: Faults): Option<Stop>
    requires k < |writes|
  {
    var done, path := Paths(writes[..k]), writes[k].path;
    match faults.recheck(k)
    case GuardFails => Some(Stop(k > 0, k, done, [], PreApplyRevalidationError))
    case ReadFails => Some(Stop(k > 0, k, done, [path], PreApplyReadError))
    case Rechecks =>
      if !AliasesHarmless(writes, k + 1) then Some(Stop(k > 0, k, done, [path], ToctouPrecondition))
      else if faults.replace(k) then Some(Stop(true, k, done, [], IoRolledBack))
      else
        match faults.readBack(k)
        case Matches => None
        case Mismatches => Some(Stop(true, k + 1, [], [path], ReadBackMismatch))
        case CannotRead => Some(Stop(true, k + 1, [], [path], ReadBackError))
  }

  /** The first `n` targets can all be restored. */
  ghost predicate CanUndo(n: nat, faults: Faults) {
    forall i :: 0 <= i < n ==> !faults.rollback(i)
  }

  ghost function AfterStop(stop: Stop, faults: Faults): Outcome {
    AfterFailure(stop.touched, CanUndo(stop.undo, faults), stop.applied, stop.conflicts, stop.reason, faults)
  }

  /** The first write from `k` on that stops decides; if there is none the patch is applied. */
  ghost function CommitOutcome(writes: seq<PlannedWrite>, k: nat, faults: Faults): Outcome
    requires k <= |writes|
    decreases |writes| - k
  {
    if k == |writes| then
      var reason := if faults.terminalEvent then AppliedJournalWriteDegraded else AppliedAll;
      Answered(ApplyResult(true, Paths(writes), [], false, reason))
    else
      match StopAt(writes, k, faults)
      case Some(stop) => AfterStop(stop, faults)
      case None => CommitOutcome(writes, k + 1, faults)
  }

  /** The first refused path or read error of the read-only pass. */
  function ScanRefusal(writes: seq<PlannedWrite>, k: nat, faults: Faults): (r: Option<Outcome>)
    requires k <= |writes|
    ensures r.Some? ==> r.value.Refused?
    ensures r.None? ==> forall i :: k <= i < |writes| ==> writes[i].target.Some?
    decreases |writes| - k
  {
    if k == |writes| then None
    else if writes[k].target.None? then Some(Refused("path escapes the workspace"))
    else if faults.preflightRead(k) then Some(Refused("preflight_read"))
    else ScanRefusal(writes, k + 1, faults)
  }

  /** The answer of the engine, for every fault. */
  ghost function ApplyOutcome(files: Files, writes: seq<PlannedWrite>, lease: Option<Lease>, faults: Faults): Outcome {
    match ScanRefusal(writes, 0, faults)
    case Some(refusal) => refusal
    case None =>
      if !NothingToReject(files, writes, lease) then
        if faults.rejectedEvent then Refused("journal") else Rejection(files, writes, lease)
      else if faults.plannedEvent then Refused("journal")
      else CommitOutcome(writes, 0, faults)
  }

  /** How many writes go before the first one that meets an earlier write it does not fit. */
  ghost function HarmlessLength(writes: seq<PlannedWrite>, n: nat): (k: nat)
    requires n <= |writes|
    ensures k <= n && AliasesHarmless(writes, k)
    ensures k < n ==> !AliasesHarmless(writes, k + 1)
  {
    if n == 0 || AliasesHarmless(writes, n) then n else HarmlessLength(writes, n - 1)
  }

  /** Without faults: everything is applied, or the first harmful alias is named and all is taken back. */
  ghost function CommitVerdict(writes: seq<PlannedWrite>): Outcome {
    var k := HarmlessLength(writes, |writes|);
    if k == |writes| then Answered(ApplyResult(true, Paths(writes), [], false, AppliedAll))
    else Answered(ApplyResult(false, Paths(writes[..k]), [writes[k].path], true, ToctouPrecondition))
  }

  lemma {:induction false} CommitOutcomeIsVerdict(writes: seq<PlannedWrite>, k: nat, faults: Faults)
    requires NoFault(faults) && k <= HarmlessLength(writes, |writes|)
    ensures CommitOutcome(writes, k, faults) == CommitVerdict(writes)
    decreases |writes| - k
  {
    var h := HarmlessLength(writes, |writes|);
    if k < h {
      assert AliasesHarmless(writes, k + 1);
      CommitOutcomeIsVerdict(writes, k + 1, faults);
    } else if k < |writes| {
      assert !AliasesHarmless(writes, k + 1);
      assert k > 0;
    }
  }

  lemma {:induction false} ScanPasses(writes: seq<PlannedWrite>, k: nat, faults: Faults)
    requires NoFault(faults) && AllResolve(writes) && k <= |writes|
    ensures ScanRefusal(writes, k, faults).None?
    decreases |writes| - k
  {
    if k < |writes| {
      assert writes[k] in writes;
      ScanPasses(writes, k + 1, faults);
    }
  }

  /** Without faults the answer depends on the files, the writes and the lease alone. */
  lemma FaultlessOutcome(files: Files, writes: seq<PlannedWrite>, lease: Option<Lease>, faults: Faults)
    requires NoFault(faults) && AllResolve(writes)
    ensures ApplyOutcome(files, writes, lease, faults)
         == if NothingToReject(files, writes, lease) then CommitVerdict(writes) else Rejection(files, writes, lease)
    ensures Applied(ApplyOutcome(files, writes, lease, faults)) <==> Admissible(files, writes, lease)
  {
    ScanPasses(writes, 0, faults);
    CommitOutcomeIsVerdict(writes, 0, faults);
    AdmissibleIff(files, writes, lease);
  }

  /** What the read-only pass has collected so far. */
  datatype Scanned = Scanned(
    targets: seq<Prepared>,
    touched: seq<string>,
    operationConflicts: seq<string>,
    conflicts: seq<string>)

  function ScanOne(files: Files, s: Scanned, w: PlannedWrite): Scanned
    requires w.target.Some?
  {
    var current := Content(files, w.target.value);
    var repeated := if w.path in s.touched then s.operationConflicts + [w.path] else s.operationConflicts;
    Scanned(
      s.targets + [Prepared(w.target.value, current, w.operation)],
      InsertPath(w.path, s.touched),
      if w.operation.Create? == current.Some? then repeated + [w.path] else repeated,
      if current.GetOr("") != w.expectedBefore then s.conflicts + [w.path] else s.conflicts)
  }

  ghost predicate Describes(s: Scanned, files: Files, writes: seq<PlannedWrite>) {
    && AllResolve(writes) && Captures(s.targets, writes, files)
    && s.touched == TouchedPaths(writes)
    && s.operationConflicts == OperationConflicts(files, writes)
    && s.conflicts == StalePaths(files, writes)
  }

  lemma ScanOneDescribes(files: Files, s: Scanned, done: seq<PlannedWrite>, w: PlannedWrite)
    requires Describes(s, files, done) && w.target.Some?
    ensures Describes(ScanOne(files, s, w), files, done + [w])
  {
    assert (done + [w])[..|done|] == done;
  }

  class Engine {
    var files: Files

    constructor (files: Files)
      ensures this.files == files
    {
      this.files := files;
    }

    method Apply(writes: seq<PlannedWrite>, lease: Option<Lease>, faults: Faults) returns (outcome: Outcome)
      modifies this
      ensures AllOrNothing(old(files), writes, outcome, files)
      ensures NoRollbackFault(faults) && !Applied(outcome) ==> files == old(files)
      ensures Applied(outcome) ==> Admissible(old(files), writes, lease)
      ensures outcome == ApplyOutcome(old(files), writes, lease, faults)
      ensures NoFault(faults) ==> (Applied(outcome) <==> Admissible(old(files), writes, lease))
      ensures NoFault(faults) && AllResolve(writes) ==>
                outcome == if NothingToReject(old(files), writes, lease) then CommitVerdict(writes)
                           else Rejection(old(files), writes, lease)
    {
      if AllResolve(writes) && NoFault(faults) {
        FaultlessOutcome(files, writes, lease, faults);
      }
      var targets, early := Preflight(writes, lease, faults);
      if early.Some? {
        if AllResolve(writes) {
          AdmissibleIff(files, writes, lease);
        }
        return early.value;
      }
      AdmissibleIff(files, writes, lease);
      if faults.plannedEvent {
        return Refused("journal");
      }
      outcome := Commit(writes, targets, faults);
    }

    /** Checks everything before the first write; an early outcome means nothing will be written. */
    method Preflight(writes: seq<PlannedWrite>, lease: Option<Lease>, faults: Faults)
      returns (targets: seq<Prepared>, early: Option<Outcome>)
      ensures early.Some? ==> !Applied(early.value)
      ensures early.Some? ==> early.value == ApplyOutcome(files, writes, lease, faults)
      ensures early.None? ==>
                && AllResolve(writes) && NothingToReject(files, writes, lease) && Captures(targets, writes, files)
                && ScanRefusal(writes, 0, faults).None?
    {
      var scanned;
      scanned, early := Scan(writes, faults);
      targets := scanned.targets;
      if early.Some? {
        return;
      }
      var unleased := Unleased(scanned.touched, lease);
      if unleased.Some? || scanned.operationConflicts != [] || scanned.conflicts != [] {
        early := Some(if faults.rejectedEvent then Refused("journal")
                      else if unleased.Some? then Rejected(unleased.value, PathLeaseMissing)
                      else if scanned.operationConflicts != [] then
                        Rejected(scanned.operationConflicts, OperationPrecondition)
                      else Rejected(scanned.conflicts, StalePrecondition));
      }
    }

    /** The read-only pass over the writes; it fails on the first refused path or read error. */
    method Scan(writes: seq<PlannedWrite>, faults: Faults) returns (scanned: Scanned, failure: Option<Outcome>)
      ensures failure == ScanRefusal(writes, 0, faults)
      ensures failure.None? ==> Describes(scanned, files, writes)
    {
      scanned := Scanned([], [], [], []);
      failure := None;
      ghost var done: seq<PlannedWrite> := [];
      var i := 0;
      while i < |writes|
        invariant 0 <= i <= |writes| && done == writes[..i]
        invariant Describes(scanned, files, done)
        invariant ScanRefusal(writes, 0, faults) == ScanRefusal(writes, i, faults)
      {
        if writes[i].target.None? {
          failure := Some(Refused("path escapes the workspace"));
          return;
        }
        if faults.preflightRead(i) {
          failure := Some(Refused("preflight_read"));
          return;
        }
        ScanOneDescribes(files, scanned, done, writes[i]);
        scanned := ScanOne(files, scanned, writes[i]);
        done := done + [writes[i]];
        i := i + 1;
      }
      assert done == writes;
    }

    /** The write loop; every failure goes through `Abort`. */
    method Commit(writes: seq<PlannedWrite>, targets: seq<Prepared>, faults: Faults) returns (outcome: Outcome)
      requires AllResolve(writes) && Captures(targets, writes, files) && PreimagesOk(files, writes)
      modifies this
      ensures Applied(outcome) ==> files == WriteAll(old(files), writes) && AliasesHarmless(writes, |writes|)
      ensures outcome.Answered? && !outcome.result.applied && !outcome.result.reason.RollbackFailedCritical? ==>
                files == old(files)
      ensures NoRollbackFault(faults) && !Applied(outcome) ==> files == old(files)
      ensures outcome == CommitOutcome(writes, 0, faults)
    {
      ghost var before := files;
      var applied: seq<string> := [];
      assert writes[..0] == [];
      var idx := 0;
      while idx < |writes|
        invariant 0 <= idx <= |writes|
        invariant files == WriteAll(before, writes[..idx])
        invariant AliasesHarmless(writes, idx) && applied == Paths(writes[..idx])
        invariant CommitOutcome(writes, 0, faults) == CommitOutcome(writes, idx, faults)
      {
        var failure := CommitOne(before, writes, targets, idx, applied, faults);
        if failure.Some? {
          return failure.value;
        }
        assert writes[..idx + 1] == writes[..idx] + [writes[idx]];
        applied := applied + [writes[idx].path];
        idx := idx + 1;
      }
      assert writes[..|writes|] == writes;
      var reason := if faults.terminalEvent then AppliedJournalWriteDegraded else AppliedAll;
      outcome := Answered(ApplyResult(true, applied, [], false, reason));
    }

    /** Revalidates, replaces and reads back one file. */
    method CommitOne(ghost before: Files, writes: seq<PlannedWrite>, targets: seq<Prepared>, idx: nat,
                     applied: seq<string>, faults: Faults)
      returns (failure: Option<Outcome>)
      requires AllResolve(writes) && Captures(targets, writes, before) && PreimagesOk(before, writes)
      requires idx < |writes| && files == WriteAll(before, writes[..idx]) && AliasesHarmless(writes, idx)
      requires applied == Paths(writes[..idx])
      modifies this
      ensures failure.None? ==> files == WriteAll(before, writes[..idx + 1]) && AliasesHarmless(writes, idx + 1)
      ensures failure.Some? ==> !Applied(failure.value)
      ensures failure.Some? && failure.value.Answered? && !failure.value.result.reason.RollbackFailedCritical? ==>
                files == before
      ensures failure.Some? && NoRollbackFault(faults) ==> files == before
      ensures failure == match StopAt(writes, idx, faults)
                         case Some(stop) => Some(AfterStop(stop, faults))
                         case None => None
    {
      RevalidatesIffHarmless(before, writes, idx);
      var write := writes[idx];
      var refusal := RecheckBefore(files, write, faults.recheck(idx));
      if refusal.Some? {
        var (conflicts, reason) := refusal.value;
        var outcome := Abort(before, writes, targets, idx, idx > 0, applied, conflicts, reason, faults);
        return Some(outcome);
      }
      if faults.replace(idx) {
        var outcome := Abort(before, writes, targets, idx, true, applied, [], IoRolledBack, faults);
        return Some(outcome);
      }
      assert writes[..idx + 1][..idx] == writes[..idx];
      files := files[targets[idx].target := write.after];
      if !faults.readBack(idx).Matches? {
        var reason := if faults.readBack(idx).Mismatches? then ReadBackMismatch else ReadBackError;
        var outcome := Abort(before, writes, targets, idx + 1, true, [], [write.path], reason, faults);
        return Some(outcome);
      }
      return None;
    }

    method Abort(ghost before: Files, ghost writes: seq<PlannedWrite>, targets: seq<Prepared>, n: nat, touched: bool,
                 applied: seq<string>, conflicts: seq<string>, reason: Reason, faults: Faults)
      returns (outcome: Outcome)
      requires AllResolve(writes) && Captures(targets, writes, before) && PreimagesOk(before, writes)
      requires n <= |writes| && files == WriteAll(before, writes[..n])
      requires (n > 0 ==> touched) && !reason.RollbackFailedCritical?
      modifies this
      ensures !Applied(outcome)
      ensures outcome == AfterStop(Stop(touched, n, applied, conflicts, reason), faults)
      ensures outcome.Answered? && !outcome.result.reason.RollbackFailedCritical? ==> files == before
      ensures NoRollbackFault(faults) ==> files == before
    {
      var rolledBack := Rollback(before, writes, targets, n, faults);
      outcome := AfterFailure(touched, rolledBack, applied, conflicts, reason, faults);
    }

    /** Restores the first `n` targets, last one first; stops at the first disk fault. */
    method Rollback(ghost before: Files, ghost writes: seq<PlannedWrite>, targets: seq<Prepared>, n: nat,
                    faults: Faults)
      returns (restored: bool)
      requires AllResolve(writes) && Captures(targets, writes, before) && PreimagesOk(before, writes)
      requires n <= |writes| && files == WriteAll(before, writes[..n])
      modifies this
      ensures restored ==> files == before
      ensures restored <==> CanUndo(n, faults)
    {
      OnlyTargetsDiffer(before, writes, targets, n);
      var i := n;
      while i > 0
        invariant 0 <= i <= n && RestoredBeyond(files, before, targets, i)
        invariant forall k :: i <= k < n ==> !faults.rollback(k)
      {
        i := i - 1;
        if faults.rollback(i) {
          return false;
        }
        var saved := targets[i];
        ghost var was := files;
        assert PreimageOk(before, writes[i]);
        match saved.operation {
          case Create => files := files - {saved.target};
          case Modify =>
            files := files[saved.target := saved.before.value];
        }
        OneMoreRestored(was, files, before, targets, i);
      }
      SameContents(files, before);
      return true;
    }
  }

  lemma OnlyTargetsDiffer(before: Files, writes: seq<PlannedWrite>, targets: seq<Prepared>, n: nat)
    requires AllResolve(writes) && Captures(targets, writes, before) && n <= |writes|
    ensures RestoredBeyond(WriteAll(before, writes[..n]), before, targets, n)
  {
    forall t
      ensures Content(WriteAll(before, writes[..n]), t) == Content(before, t)
              || exists k :: 0 <= k < n && targets[k].target == t
    {
      if forall k :: 0 <= k < n ==> targets[k].target != t {
        forall w | w in writes[..n]
          ensures TargetOf(w) != t
        {
          var k :| 0 <= k < n && writes[..n][k] == w;
          assert targets[k].target == TargetOf(writes[k]);
        }
        UntouchedTarget(before, writes[..n], t);
      }
    }
  }

  lemma OneMoreRestored(was: Files, now: Files, before: Files, targets: seq<Prepared>, i: nat)
    requires i < |targets| && RestoredBeyond(was, before, targets, i + 1)
    requires Content(now, targets[i].target) == Content(before, targets[i].target)
    requires forall t :: t != targets[i].target ==> Content(now, t) == Content(was, t)
    ensures RestoredBeyond(now, before, targets, i)
  {
  }
}
