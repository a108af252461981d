/** The whole of `run_parallel`, with what it guarantees whatever the workers' schedule. */
module ParallelRun {
  import opened Options
  import Permutations
  import opened WorkspacePaths
  import opened PatchContract
  import opened PatchEngine
  import opened EditContent
  import opened LocalPlanning
  import opened ParallelPlan

  /** Every later occurrence of a path, in order. */
  function RepeatedPaths(writes: seq<PlannedWrite>): seq<string> {
    if writes == [] then []
    else
      var before, w := writes[..|writes| - 1], writes[|writes| - 1];
      var earlier := RepeatedPaths(before);
      if PathTouched(before, w.path) then earlier + [w.path] else earlier
  }

  lemma {:induction false} NothingRepeatedIff(writes: seq<PlannedWrite>)
    ensures RepeatedPaths(writes) == [] <==> DistinctPaths(writes)
  {
    if writes != [] {
      var before, w := writes[..|writes| - 1], writes[|writes| - 1];
      assert writes == before + [w];
      NothingRepeatedIff(before);
      DistinctSnoc(before, w);
    }
  }

  const PathOf := (w: PlannedWrite) => w.path
  const IdOf := (e: Entry) => e.id
  const EntryWrite := (e: Entry) => e.write

  lemma DistinctPathsAreInvariant(a: seq<PlannedWrite>, b: seq<PlannedWrite>)
    requires multiset(a) == multiset(b)
    ensures DistinctPaths(a) <==> DistinctPaths(b)
  {
    Permutations.MapPermutes(PathOf, a, b);
    Permutations.NoRepeatsIsInvariant(Permutations.Map(PathOf, a), Permutations.Map(PathOf, b));
    assert DistinctPaths(a) <==> Permutations.NoRepeats(Permutations.Map(PathOf, a));
    assert DistinctPaths(b) <==> Permutations.NoRepeats(Permutations.Map(PathOf, b));
  }

  lemma DistinctEntryIdsAreInvariant(a: seq<Entry>, b: seq<Entry>)
    requires multiset(a) == multiset(b)
    ensures DistinctEntryIds(a) <==> DistinctEntryIds(b)
  {
    Permutations.MapPermutes(IdOf, a, b);
    Permutations.NoRepeatsIsInvariant(Permutations.Map(IdOf, a), Permutations.Map(IdOf, b));
    assert DistinctEntryIds(a) <==> Permutations.NoRepeats(Permutations.Map(IdOf, a));
    assert DistinctEntryIds(b) <==> Permutations.NoRepeats(Permutations.Map(IdOf, b));
  }

  /** Every packet spells its file canonically. */
  ghost predicate Normalised(packets: seq<Packet>) {
    forall p :: p in packets && p.instruction.Some? && Resolve(InstructionPath(p.instruction.value)).Some? ==>
                  InstructionPath(p.instruction.value) == Canonical(InstructionPath(p.instruction.value))
  }

  predicate CanonicalWrite(w: PlannedWrite) {
    w.target.Some? && w.path == Join(w.target.value)
  }

  lemma {:induction false} PlannedWritesAreCanonical(files: Files, packets: seq<Packet>)
    requires Normalised(packets)
    ensures forall w :: w in PlannedWrites(files, packets) ==> CanonicalWrite(w)
  {
    if packets != [] {
      var before, p := packets[..|packets| - 1], packets[|packets| - 1];
      assert packets == before + [p] && p in packets;
      PlannedWritesAreCanonical(files, before);
    }
  }

  /** Different spellings name different files. */
  predicate OneSpelling(writes: seq<PlannedWrite>) {
    forall u, v :: u in writes && v in writes && u.target == v.target ==> u.path == v.path
  }

  /** Canonical paths are one way to have one spelling per file; a lone odd spelling is another. */
  lemma CanonicalPathsAreOneSpelling(files: Files, packets: seq<Packet>)
    requires Normalised(packets)
    ensures OneSpelling(PlannedWrites(files, packets))
  {
    PlannedWritesAreCanonical(files, packets);
  }

  /** With one spelling per file and no path repeated, no two writes meet. */
  lemma OneSpellingSeparates(writes: seq<PlannedWrite>)
    requires OneSpelling(writes) && DistinctPaths(writes)
    ensures AliasesHarmless(writes, |writes|) && OneAfter(writes)
  {
    forall i, j | 0 <= i < j < |writes|
      ensures writes[i].target != writes[j].target
    {
      assert writes[i] in writes && writes[j] in writes;
    }
  }

  lemma {:induction false} WritesOfEntries(files: Files, packets: seq<Packet>)
    ensures Writes(Entries(files, packets)) == PlannedWrites(files, packets)
  {
    if packets != [] {
      WritesOfEntries(files, packets[..|packets| - 1]);
    }
  }

  lemma WritesPermute(a: seq<Entry>, b: seq<Entry>)
    requires multiset(a) == multiset(b)
    ensures multiset(Writes(a)) == multiset(Writes(b))
  {
    Permutations.MapPermutes(EntryWrite, a, b);
    assert Writes(a) == Permutations.Map(EntryWrite, a);
    assert Writes(b) == Permutations.Map(EntryWrite, b);
  }

  lemma PlannedWritesPermute(files: Files, a: seq<Packet>, b: seq<Packet>)
    requires multiset(a) == multiset(b)
    ensures multiset(PlannedWrites(files, a)) == multiset(PlannedWrites(files, b))
  {
    ArrivalOrderIsForgotten(files, a, b);
    WritesPermute(Entries(files, a), Entries(files, b));
    WritesOfEntries(files, a);
    WritesOfEntries(files, b);
  }

  // ---- Parallel and sequential -----------------------------------------------------------------------

  /** Running the packets one at a time, in any order at all, ends with these files. */
  ghost predicate EveryOrderGives(files: Files, packets: seq<Packet>, after: Files) {
    forall order :: multiset(order) == multiset(packets) ==> RunSequentially(files, order) == after
  }

  /** The same said of what each packet does to the files. */
  lemma EveryOrderHasTheEffect(files: Files, packets: seq<Packet>, after: Files)
    ensures EveryOrderGives(files, packets, after) <==>
            forall order :: multiset(order) == multiset(packets) ==> EffectOfAll(files, order, after)
  {
    forall order | multiset(order) == multiset(packets)
      ensures EffectOfAll(files, order, after) <==> RunSequentially(files, order) == after
    {
      EffectOfAllIsExact(files, order, after);
    }
    if order :| multiset(order) == multiset(packets) && RunSequentially(files, order) != after {
      assert !EffectOfAll(files, order, after);
    }
  }

  /** A patch the engine would let through, holding exactly the planned writes. */
  ghost predicate AdmissiblePlan(files: Files, packets: seq<Packet>, writes: seq<PlannedWrite>) {
    multiset(writes) == multiset(PlannedWrites(files, packets)) && Admissible(files, writes, None)
  }

  lemma AgreeingAliasesAreIdle(files: Files, writes: seq<PlannedWrite>)
    requires AllResolve(writes) && PreimagesOk(files, writes)
    requires AliasesHarmless(writes, |writes|) && OneAfter(writes)
    ensures AliasesIdle(writes)
  {
    forall u, v | u in writes && v in writes && u.target == v.target && u != v
      ensures Idle(u)
    {
      var i :| 0 <= i < |writes| && writes[i] == u;
      var j :| 0 <= j < |writes| && writes[j] == v;
      assert PreimageOk(files, u) && PreimageOk(files, v);
      assert if i < j then HarmlessPair(writes[i], writes[j]) else HarmlessPair(writes[j], writes[i]);
    }
  }

  lemma AgreeingAliasesSuffice(files: Files, packets: seq<Packet>, writes: seq<PlannedWrite>)
    requires AdmissiblePlan(files, packets, writes) && OneAfter(writes)
    ensures EveryOrderGives(files, packets, WriteAll(files, writes))
  {
    AgreeingAliasesAreIdle(files, writes);
    forall order | multiset(order) == multiset(packets)
      ensures RunSequentially(files, order) == WriteAll(files, writes)
    {
      var ordered := PlannedWrites(files, order);
      PlannedWritesPermute(files, order, packets);
      Permutations.SameMembers(writes, ordered);
      DistinctPathsAreInvariant(writes, ordered);
      SequentialIsWriteAll(files, order);
      ArrangementIsIrrelevant(files, writes, ordered);
    }
  }

  /** Which packet planned a write. */
  lemma {:induction false} PlannedBy(files: Files, packets: seq<Packet>, w: PlannedWrite) returns (k: nat)
    requires w in PlannedWrites(files, packets)
    ensures k < |packets| && Plans(files, packets[k]) && WriteOf(files, packets[k]) == w
  {
    k := |packets| - 1;
    if !(Plans(files, packets[k]) && WriteOf(files, packets[k]) == w) {
      k := PlannedBy(files, packets[..k], w);
    }
  }

  lemma AppendIsNotIdle(files: Files, p: Packet)
    requires Plans(files, p) && p.instruction.value.AppendLine?
    ensures !Idle(WriteOf(files, p))
  {
    var w := WriteOf(files, p);
    assert |w.after| > |w.expectedBefore|;
  }

  /** A packet whose plan was idle writes the same content whenever it runs. */
  lemma IdlePacketWritesAgain(files: Files, p: Packet, now: Files)
    requires Plans(files, p) && Idle(WriteOf(files, p)) && PreimageOk(files, WriteOf(files, p))
    requires TargetOf(WriteOf(files, p)) in now
    ensures Content(RunPacket(now, p), TargetOf(WriteOf(files, p))) == Some(WriteOf(files, p).after)
  {
    if p.instruction.value.AppendLine? {
      AppendIsNotIdle(files, p);
    }
  }

  lemma PacketMovedLast(files: Files, packets: seq<Packet>, k: nat) returns (order: seq<Packet>)
    requires k < |packets| && Plans(files, packets[k])
    requires Idle(WriteOf(files, packets[k])) && PreimageOk(files, WriteOf(files, packets[k]))
    ensures multiset(order) == multiset(packets)
    ensures Content(RunSequentially(files, order), TargetOf(WriteOf(files, packets[k])))
         == Some(WriteOf(files, packets[k]).after)
  {
    var p, others := packets[k], packets[..k] + packets[k + 1..];
    order := others + [p];
    assert packets == packets[..k] + [p] + packets[k + 1..];
    assert order[..|others|] == others;
    PacketsKeepFiles(files, others, TargetOf(WriteOf(files, p)));
    IdlePacketWritesAgain(files, p, RunSequentially(files, others));
  }

  /** Two harmless writes that disagree: the earlier is idle and the later is the last on its file. */
  lemma DisagreeingAliases(files: Files, writes: seq<PlannedWrite>, i: nat, j: nat)
    requires AllResolve(writes) && PreimagesOk(files, writes) && AliasesHarmless(writes, |writes|)
    requires i < j < |writes| && writes[i].target == writes[j].target && writes[i].after != writes[j].after
    ensures Idle(writes[i])
    ensures Content(WriteAll(files, writes), TargetOf(writes[j])) == Some(writes[j].after)
  {
    assert PreimageOk(files, writes[i]) && PreimageOk(files, writes[j]) && HarmlessPair(writes[i], writes[j]);
    forall l | j < l < |writes|
      ensures TargetOf(writes[l]) != TargetOf(writes[j])
    {
      assert PreimageOk(files, writes[l]) && HarmlessPair(writes[j], writes[l]) && HarmlessPair(writes[i], writes[l]);
    }
    LastWriteWins(files, writes, j);
  }

  lemma DisagreeingAliasesShow(files: Files, packets: seq<Packet>, writes: seq<PlannedWrite>)
    requires AdmissiblePlan(files, packets, writes) && !OneAfter(writes)
    ensures !EveryOrderGives(files, packets, WriteAll(files, writes))
  {
    var u, v :| u in writes && v in writes && u.target == v.target && u.after != v.after;
    var x :| 0 <= x < |writes| && writes[x] == u;
    var y :| 0 <= y < |writes| && writes[y] == v;
    var i, j := if x < y then x else y, if x < y then y else x;
    DisagreeingAliases(files, writes, i, j);
    Permutations.SameMembers(writes, PlannedWrites(files, packets));
    assert writes[i] in writes && PreimageOk(files, writes[i]);
    var k := PlannedBy(files, packets, writes[i]);
    var order := PacketMovedLast(files, packets, k);
  }

  /**
   Parallel equals sequential, exactly: what the engine writes is what the packets leave when run one
   at a time, each planned on the files it finds, in any order, if and only if no two of the planned
   writes put different contents into one file.
   */
  lemma ParallelEqualsSequential(files: Files, packets: seq<Packet>, writes: seq<PlannedWrite>)
    requires AdmissiblePlan(files, packets, writes)
    ensures EveryOrderGives(files, packets, WriteAll(files, writes)) <==> OneAfter(PlannedWrites(files, packets))
  {
    Permutations.SameMembers(writes, PlannedWrites(files, packets));
    if OneAfter(writes) {
      AgreeingAliasesSuffice(files, packets, writes);
    } else {
      DisagreeingAliasesShow(files, packets, writes);
    }
  }

  /** A fresh plan is stale only when it replaces a file that does not exist. */
  lemma FreshPlanFits(files: Files, p: Packet)
    requires Plans(files, p)
    ensures PreimageOk(files, WriteOf(files, p)) <==>
            !(p.instruction.value.ReplaceContent? && Resolve(p.instruction.value.path).value !in files)
  {
  }

  function Replace(id: string, path: string, value: string): Packet {
    Packet(id, ".", Some(ReplaceContent(path, value)))
  }

  /**
   Without canonical spelling the order can show: two packets that name one file differently pass
   the arbiter, and running them one at a time ends differently in the two orders.
   */
  lemma AliasesEscapeTheArbiter(piece: string, kept: string, next: string)
    requires PlainPiece(piece) && kept != next
    ensures var files := map[[piece] := kept];
            var a, b := Replace("a", "./" + piece, kept), Replace("b", piece, next);
            && Plans(files, a) && Plans(files, b)
            && Admissible(files, [WriteOf(files, a), WriteOf(files, b)], None)
            && RunSequentially(files, [a, b]) != RunSequentially(files, [b, a])
  {
    TwoSpellingsOneFile(piece);
    CanonicalPathResolvesToItself([piece]);
    assert Join([piece]) == piece;
    AliasesDisagree(map[[piece] := kept], "./" + piece, piece, [piece], kept, next);
  }

  /** Two spellings of one file: one packet puts back what is there, the other replaces it. */
  lemma AliasesDisagree(files: Files, one: string, other: string, target: Target, kept: string, next: string)
    requires Resolve(one) == Resolve(other) == Some(target) && one != other
    requires target in files && files[target] == kept && kept != next
    ensures var a, b := Replace("a", one, kept), Replace("b", other, next);
            && Plans(files, a) && Plans(files, b)
            && Admissible(files, [WriteOf(files, a), WriteOf(files, b)], None)
            && RunSequentially(files, [a, b]) != RunSequentially(files, [b, a])
  {
    var a, b := Replace("a", one, kept), Replace("b", other, next);
    ReplacePlans(files, "a", one, kept, target);
    ReplacePlans(files, "b", other, next, target);
    ReplacePlans(files[target := next], "a", one, kept, target);
    RunTwo(files, a, b);
    RunTwo(files, b, a);
    assert files[target := kept] == files;
    assert RunSequentially(files, [a, b])[target] == next && RunSequentially(files, [b, a])[target] == kept;
  }

  lemma ReplacePlans(files: Files, id: string, path: string, value: string, target: Target)
    requires Resolve(path) == Some(target) && target in files
    ensures var p := Replace(id, path, value);
            && Plans(files, p) && WriteOf(files, p) == PlannedWrite(path, Some(target), files[target], value, Modify)
            && RunPacket(files, p) == files[target := value]
  {
  }

  lemma RunTwo(files: Files, a: Packet, b: Packet)
    ensures RunSequentially(files, [a, b]) == RunPacket(RunPacket(files, a), b)
  {
    assert [a, b][..1] == [a] && [a][..0] == [];
    assert RunSequentially(files, [a]) == RunPacket(RunSequentially(files, []), a);
  }

  // ---- The method -------------------------------------------------------------------------------------

  /** A worker schedule: some permutation of the chunk. */
  method Interleave(chunk: seq<Packet>) returns (order: seq<Packet>)
    ensures multiset(order) == multiset(chunk)
  {
    order := [];
    var rest := chunk;
    while rest != []
      invariant multiset(order) + multiset(rest) == multiset(chunk)
      decreases |rest|
    {
      var i :| 0 <= i < |rest|;
      assert rest == rest[..i] + [rest[i]] + rest[i + 1..];
      order := order + [rest[i]];
      rest := rest[..i] + rest[i + 1..];
    }
  }

  /** The workers of one chunk plan their packets and push the results in their own order. */
  method PushChunk(files: Files, order: seq<Packet>, planned: seq<Entry>, errors: seq<Failure>)
    returns (planned': seq<Entry>, errors': seq<Failure>)
    ensures planned' == planned + Entries(files, order)
    ensures errors' == errors + Failures(files, order)
  {
    planned', errors' := planned, errors;
    var i := 0;
    while i < |order|
      invariant 0 <= i <= |order|
      invariant planned' == planned + Entries(files, order[..i])
      invariant errors' == errors + Failures(files, order[..i])
    {
      var packet := order[i];
      assert order[..i + 1][..i] == order[..i];
      if packet.instruction.Some? {
        match PlanLocalEdit(files, packet.instruction.value) {
          case Ok(write) => planned' := planned' + [Entry(packet.id, write)];
          case Err(error) => errors' := errors' + [Failure(packet.id, error)];
        }
      }
      i := i + 1;
    }
    assert order[..|order|] == order;
  }

  /** What the workers leave behind, in whatever order they pushed. */
  method PlanAll(files: Files, packets: seq<Packet>, maxConcurrency: nat)
    returns (planned: seq<Entry>, errors: seq<Failure>)
    ensures multiset(planned) == multiset(Entries(files, packets))
    ensures multiset(errors) == multiset(Failures(files, packets))
  {
    var max := if maxConcurrency < 1 then 1 else maxConcurrency;
    planned, errors := [], [];
    ghost var arrived: seq<Packet> := [];
    var start := 0;
    while start < |packets|
      invariant 0 <= start <= |packets|
      invariant multiset(arrived) == multiset(packets[..start])
      invariant planned == Entries(files, arrived) && errors == Failures(files, arrived)
    {
      var end := if start + max < |packets| then start + max else |packets|;
      var order := Interleave(packets[start..end]);
      assert packets[..end] == packets[..start] + packets[start..end];
      EntriesAppend(files, arrived, order);
      planned, errors := PushChunk(files, order, planned, errors);
      arrived := arrived + order;
      start := end;
    }
    assert packets[..|packets|] == packets;
    ArrivalOrderIsForgotten(files, arrived, packets);
  }

  method FindRepeats(entries: seq<Entry>) returns (repeated: seq<string>)
    ensures repeated == RepeatedPaths(Writes(entries))
  {
    repeated := [];
    var seen: set<string> := {};
    var writes := Writes(entries);
    var i := 0;
    while i < |entries|
      invariant 0 <= i <= |entries|
      invariant forall p :: p in seen <==> PathTouched(writes[..i], p)
      invariant repeated == RepeatedPaths(writes[..i])
    {
      assert writes[..i + 1] == writes[..i] + [writes[i]] && writes[..i + 1][..i] == writes[..i];
      TouchedSnoc(writes[..i], writes[i]);
      if entries[i].write.path in seen {
        repeated := repeated + [entries[i].write.path];
      }
      seen := seen + {entries[i].write.path};
      i := i + 1;
    }
    assert writes[..|writes|] == writes;
  }

  predicate SharedWorkspace(packets: seq<Packet>) {
    forall i :: 0 <= i < |packets| ==> packets[i].workspace == packets[0].workspace
  }

  /** The arbiter's answer on one arrangement of the planned writes. */
  ghost function ArbiterOutcome(before: Files, writes: seq<PlannedWrite>, faults: Faults): Outcome {
    if RepeatedPaths(writes) != [] then
      Answered(ApplyResult(false, [], RepeatedPaths(writes), false, CrossWorkerPathConflict))
    else ApplyOutcome(before, writes, None, faults)
  }

  /** What the run gives back for an answer: an error of the writer ends it. */
  ghost predicate Gives(r: Result, outcome: Outcome) {
    match outcome
    case Refused(message) => r == WriterError(message)
    case Answered(result) => r.Finished? && r.outcome.apply == result
  }

  /** The plan as the arbiter sees it when no two packets share an id. */
  function ArbiterPlan(files: Files, packets: seq<Packet>): seq<PlannedWrite> {
    Writes(Sorted(Entries(files, packets)))
  }

  /** The planned entries as the arbiter sees them; with distinct ids there is only one such order. */
  ghost predicate ArbiterOrder(sorted: seq<Entry>, files: Files, packets: seq<Packet>) {
    SortedById(sorted) && multiset(sorted) == multiset(Entries(files, packets))
  }

  /** Refuses shared paths, and otherwise hands the sorted plan to the engine as one patch. */
  method Arbitrate(ghost packets: seq<Packet>, sorted: seq<Entry>, engine: Engine, faults: Faults)
    returns (outcome: Outcome)
    requires ArbiterOrder(sorted, engine.files, packets)
    modifies engine
    ensures outcome == ArbiterOutcome(old(engine.files), Writes(sorted), faults)
    ensures !DistinctPaths(Writes(sorted)) ==>
              && outcome.Answered? && !Applied(outcome) && outcome.result.reason == CrossWorkerPathConflict
              && engine.files == old(engine.files)
    ensures outcome.Answered? && !Applied(outcome) && !outcome.result.reason.RollbackFailedCritical? ==>
              engine.files == old(engine.files)
    ensures Applied(outcome) ==>
              AdmissiblePlan(old(engine.files), packets, Writes(sorted))
              && engine.files == WriteAll(old(engine.files), Writes(sorted))
    ensures NoFault(faults) ==>
              outcome.Answered? && (Applied(outcome) <==> Admissible(old(engine.files), Writes(sorted), None))
  {
    var repeated := FindRepeats(sorted);
    var writes := Writes(sorted);
    SortedPlanFacts(engine.files, packets, sorted);
    if NoFault(faults) {
      FaultlessOutcome(engine.files, writes, None, faults);
    }
    if repeated != [] {
      return Answered(ApplyResult(false, [], repeated, false, CrossWorkerPathConflict));
    }
    outcome := engine.Apply(writes, None, faults);
  }

  method RunParallel(packets: seq<Packet>, maxConcurrency: nat, engine: Engine, faults: Faults) returns (r: Result)
    modifies engine
    ensures r.MixedWorkspaces? <==> !SharedWorkspace(packets)
    ensures r.MixedWorkspaces? ==> engine.files == old(engine.files)
    // Tallies and errors do not depend on the schedule or the concurrency.
    ensures r.Finished? ==> Tallies(r.outcome.plannedPerPacket, Entries(old(engine.files), packets))
    ensures r.Finished? ==> multiset(r.outcome.errors) == multiset(Failures(old(engine.files), packets))
    // A path planned twice leaves the files alone; otherwise the patch is all or nothing.
    ensures SharedWorkspace(packets) && !DistinctPaths(PlannedWrites(old(engine.files), packets)) ==>
              r.Finished? && r.outcome.apply.reason == CrossWorkerPathConflict && engine.files == old(engine.files)
    ensures r.Finished? && !r.outcome.apply.applied && !r.outcome.apply.reason.RollbackFailedCritical? ==>
              engine.files == old(engine.files)
    // With distinct ids the whole answer depends on the files, the packets and the faults only.
    ensures SharedWorkspace(packets) && DistinctIds(packets) ==> Promised(r, old(engine.files), packets, faults)
    ensures r.Finished? && r.outcome.apply.applied && DistinctIds(packets) ==>
              engine.files == WriteAll(old(engine.files), ArbiterPlan(old(engine.files), packets))
    // Applied means: as if run one at a time, in any order, unless two writes disagree on one file.
    ensures r.Finished? && r.outcome.apply.applied ==>
              (EveryOrderGives(old(engine.files), packets, engine.files) <==>
                 OneAfter(PlannedWrites(old(engine.files), packets)))
    // Without disk faults the patch goes through exactly when the engine admits the sorted plan.
    ensures NoFault(faults) && SharedWorkspace(packets) ==>
              r.Finished? && exists sorted ::
                (ArbiterOrder(sorted, old(engine.files), packets)
                 && (r.outcome.apply.applied <==> Admissible(old(engine.files), Writes(sorted), None)))
    // With one spelling per file: exactly when no path repeats and every plan fits.
    ensures NoFault(faults) && SharedWorkspace(packets) && OneSpelling(PlannedWrites(old(engine.files), packets)) ==>
              r.Finished? &&
              (r.outcome.apply.applied <==>
                 DistinctPaths(PlannedWrites(old(engine.files), packets))
                 && PreimagesOk(old(engine.files), PlannedWrites(old(engine.files), packets)))
  {
    ghost var before := engine.files;
    if i :| 0 <= i < |packets| && packets[i].workspace != packets[0].workspace {
      return MixedWorkspaces(packets[i].id);
    }
    var planned, errors := PlanAll(engine.files, packets, maxConcurrency);
    var sorted := SortById(planned);
    var plannedPerPacket := CountPerPacket(sorted);
    SameTally(plannedPerPacket, sorted, Entries(before, packets));
    var outcome := Arbitrate(packets, sorted, engine, faults);
    SortedPlanFacts(before, packets, sorted);
    if Applied(outcome) {
      ParallelEqualsSequential(before, packets, Writes(sorted));
    }
    match outcome {
      case Refused(message) => r := WriterError(message);
      case Answered(result) => r := Finished(ParallelOutcome(result, plannedPerPacket, errors));
    }
  }

  /** What a run promises to give back when no two packets share an id. */
  ghost predicate Promised(r: Result, files: Files, packets: seq<Packet>, faults: Faults) {
    && Gives(r, ArbiterOutcome(files, ArbiterPlan(files, packets), faults))
    && (r.Finished? ==>
          && Tallies(r.outcome.plannedPerPacket, Entries(files, packets))
          && multiset(r.outcome.errors) == multiset(Failures(files, packets)))
  }

  /** So two runs can differ in the order of the errors only, whatever their schedules and concurrency. */
  lemma ScheduleNeverShows(a: Result, b: Result, files: Files, packets: seq<Packet>, faults: Faults)
    requires Promised(a, files, packets, faults) && Promised(b, files, packets, faults)
    ensures a.Finished? <==> b.Finished?
    ensures a.Finished? ==>
              && a.outcome.apply == b.outcome.apply && a.outcome.plannedPerPacket == b.outcome.plannedPerPacket
              && multiset(a.outcome.errors) == multiset(b.outcome.errors)
    ensures !a.Finished? ==> a == b
  {
    if a.Finished? && b.Finished? {
      TallyIsUnique(a.outcome.plannedPerPacket, b.outcome.plannedPerPacket, Entries(files, packets));
    }
  }

  /** One packet on its own: plan it on the current files and hand the plan to the engine. */
  method RunOne(p: Packet, engine: Engine, faults: Faults)
    modifies engine
    ensures NoFault(faults) ==> engine.files == RunPacket(old(engine.files), p)
    ensures NoFault(faults) ==> Effect(old(engine.files), p, engine.files)
  {
    PacketHasEffect(engine.files, p);
    if p.instruction.Some? {
      match PlanLocalEdit(engine.files, p.instruction.value) {
        case Ok(write) =>
          SingleWriteIsAdmissible(engine.files, write);
          var _ := engine.Apply([write], None, faults);
        case Err(_) =>
      }
    }
  }

  lemma SingleWriteIsAdmissible(files: Files, w: PlannedWrite)
    requires w.target.Some?
    ensures Admissible(files, [w], None) <==> PreimageOk(files, w)
    ensures AllResolve([w]) && WriteAll(files, [w]) == files[TargetOf(w) := w.after]
  {
    assert w in [w] && [w][..0] == [];
  }

  /** The sequential meaning of a list of packets is what the engine does with them one at a time. */
  method RunEach(packets: seq<Packet>, engine: Engine, faults: Faults)
    modifies engine
    ensures NoFault(faults) ==> engine.files == RunSequentially(old(engine.files), packets)
    ensures NoFault(faults) ==> EffectOfAll(old(engine.files), packets, engine.files)
  {
    SequentialRunHasEffect(engine.files, packets);
    ghost var before := engine.files;
    var i := 0;
    while i < |packets|
      invariant 0 <= i <= |packets|
      invariant NoFault(faults) ==> engine.files == RunSequentially(before, packets[..i])
    {
      assert packets[..i + 1][..i] == packets[..i];
      RunOne(packets[i], engine, faults);
      i := i + 1;
    }
    assert packets[..|packets|] == packets;
  }

  lemma SameTally(counts: seq<Count>, a: seq<Entry>, b: seq<Entry>)
    requires Tallies(counts, a) && multiset(a) == multiset(b)
    ensures Tallies(counts, b)
  {
    forall id
      ensures CountOf(a, id) == CountOf(b, id)
    {
      CountFromMultiset(a, b, id);
    }
  }

  /** Everything the arbiter needs to know about the sorted plan. */
  lemma SortedPlanFacts(files: Files, packets: seq<Packet>, sorted: seq<Entry>)
    requires SortedById(sorted) && multiset(sorted) == multiset(Entries(files, packets))
    ensures var writes := Writes(sorted);
            && multiset(writes) == multiset(PlannedWrites(files, packets))
            && AllResolve(writes)
            && (DistinctPaths(writes) <==> DistinctPaths(PlannedWrites(files, packets)))
            && (RepeatedPaths(writes) == [] <==> DistinctPaths(writes))
            && (PreimagesOk(files, writes) <==> PreimagesOk(files, PlannedWrites(files, packets)))
            && (OneSpelling(PlannedWrites(files, packets)) && DistinctPaths(writes) ==>
                  AliasesHarmless(writes, |writes|))
    ensures DistinctIds(packets) ==> Writes(sorted) == ArbiterPlan(files, packets)
  {
    var writes, plan := Writes(sorted), PlannedWrites(files, packets);
    WritesPermute(sorted, Entries(files, packets));
    WritesOfEntries(files, packets);
    Permutations.SameMembers(writes, plan);
    DistinctPathsAreInvariant(writes, plan);
    NothingRepeatedIff(writes);
    if OneSpelling(plan) && DistinctPaths(writes) {
      OneSpellingSeparates(writes);
    }
    if DistinctIds(packets) {
      EntryIds(files, packets);
      DistinctEntryIdsAreInvariant(Entries(files, packets), sorted);
      SortedIsSorted(Entries(files, packets));
      SortIsUnique(sorted, Sorted(Entries(files, packets)));
    }
  }
}
