/** Single-file planning of local instructions, and the sequential meaning of a list of packets. */
module LocalPlanning {
  import opened Options
  import opened WorkspacePaths
  import opened PatchContract
  import opened Text

  datatype Instruction =
    | CreateFile(path: string, value: string)
    | ReplaceContent(path: string, value: string)
    | AppendLine(path: string, value: string)
    | Steps

  /** A packet's prompt is already decoded; `None` is a prompt without an instruction. */
  datatype Packet = Packet(id: string, workspace: string, instruction: Option<Instruction>)

  datatype PlanError = PathEscape(path: string) | AlreadyExists(path: string) | NotSingleFile

  datatype Planned = Ok(write: PlannedWrite) | Err(error: PlanError)

  /** A multi-step instruction has no single path. */
  function InstructionPath(i: Instruction): string {
    if i.Steps? then "" else i.path
  }

  /** `plan_local_edit`: reads one file, writes nothing. */
  function PlanLocalEdit(files: Files, i: Instruction): (r: Planned)
    ensures r.Ok? ==> r.write.path == InstructionPath(i)
                      && r.write.target == Resolve(InstructionPath(i)) && r.write.target.Some?
  {
    var path := InstructionPath(i);
    var target := Resolve(path);
    if target.None? then Err(PathEscape(path))
    else
      var current := Content(files, target.value);
      var before := current.GetOr("");
      match i
      case CreateFile(_, value) =>
        if current.Some? then Err(AlreadyExists(path))
        else Ok(PlannedWrite(path, target, before, value, Create))
      case ReplaceContent(_, value) =>
        Ok(PlannedWrite(path, target, before, value, Modify))
      case AppendLine(_, value) =>
        var operation := if before == "" && current.None? then Create else Modify;
        Ok(PlannedWrite(path, target, before, WithFinalNewline(before) + value + "\n", operation))
      case Steps => Err(NotSingleFile)
  }

  predicate Plans(files: Files, p: Packet) {
    p.instruction.Some? && PlanLocalEdit(files, p.instruction.value).Ok?
  }

  predicate Fails(files: Files, p: Packet) {
    p.instruction.Some? && PlanLocalEdit(files, p.instruction.value).Err?
  }

  function WriteOf(files: Files, p: Packet): PlannedWrite
    requires Plans(files, p)
  {
    PlanLocalEdit(files, p.instruction.value).write
  }

  /** The writes of the packets that can be planned, in packet order. */
  function PlannedWrites(files: Files, packets: seq<Packet>): (r: seq<PlannedWrite>)
    ensures AllResolve(r)
  {
    if packets == [] then []
    else
      var earlier, p := PlannedWrites(files, packets[..|packets| - 1]), packets[|packets| - 1];
      if Plans(files, p) then earlier + [WriteOf(files, p)] else earlier
  }

  // ---- One packet after the other -------------------------------------------------------------------

  /** Plan the packet on the current files and write it, if the writer accepts it. */
  function RunPacket(files: Files, p: Packet): Files {
    if Plans(files, p) && PreimageOk(files, WriteOf(files, p))
    then files[TargetOf(WriteOf(files, p)) := WriteOf(files, p).after]
    else files
  }

  function RunSequentially(files: Files, packets: seq<Packet>): Files {
    if packets == [] then files
    else RunPacket(RunSequentially(files, packets[..|packets| - 1]), packets[|packets| - 1])
  }

  /** A write that leaves its existing file as it is. */
  predicate Idle(w: PlannedWrite) {
    w.operation.Modify? && w.after == w.expectedBefore
  }

  /** Different writes meet on one file only if all of them leave it as it is. */
  predicate AliasesIdle(writes: seq<PlannedWrite>) {
    forall u, v :: u in writes && v in writes && u.target == v.target ==> u == v || Idle(u)
  }

  /** All writes to one file write the same content. */
  predicate OneAfter(writes: seq<PlannedWrite>) {
    forall u, v :: u in writes && v in writes && u.target == v.target ==> u.after == v.after
  }

  lemma {:induction false} WritesKeepFiles(files: Files, writes: seq<PlannedWrite>, target: Target)
    requires AllResolve(writes) && target in files
    ensures target in WriteAll(files, writes)
  {
    if writes != [] {
      WritesKeepFiles(files, writes[..|writes| - 1], target);
    }
  }

  lemma {:induction false} PacketsKeepFiles(files: Files, packets: seq<Packet>, target: Target)
    requires target in files
    ensures target in RunSequentially(files, packets)
  {
    if packets != [] {
      PacketsKeepFiles(files, packets[..|packets| - 1], target);
    }
  }

  /** Planning looks at one file only, so unrelated writes do not change a plan. */
  lemma PlanIsLocal(a: Files, b: Files, i: Instruction)
    requires Resolve(InstructionPath(i)).Some? ==>
               Content(a, Resolve(InstructionPath(i)).value) == Content(b, Resolve(InstructionPath(i)).value)
    ensures PlanLocalEdit(a, i) == PlanLocalEdit(b, i)
  {
  }

  /** A packet that could not be planned still cannot after other packets have written. */
  lemma FailureIsStable(files: Files, writes: seq<PlannedWrite>, p: Packet)
    requires AllResolve(writes) && !Plans(files, p)
    ensures !Plans(WriteAll(files, writes), p)
  {
    if p.instruction.Some? && p.instruction.value.CreateFile? && Resolve(p.instruction.value.path).Some? {
      WritesKeepFiles(files, writes, Resolve(p.instruction.value.path).value);
    }
  }

  /** Writes that put back what is there, or go elsewhere, do not show at `target`. */
  lemma {:induction false} IdleKeepsContent(files: Files, writes: seq<PlannedWrite>, target: Target)
    requires AllResolve(writes)
    requires forall u :: u in writes && TargetOf(u) == target ==> Content(files, target) == Some(u.after)
    ensures Content(WriteAll(files, writes), target) == Content(files, target)
  {
    if writes != [] {
      assert writes[|writes| - 1] in writes;
      IdleKeepsContent(files, writes[..|writes| - 1], target);
    }
  }

  lemma NextTargetIsUnchanged(files: Files, writes: seq<PlannedWrite>, w: PlannedWrite)
    requires AllResolve(writes + [w]) && PreimagesOk(files, writes + [w])
    requires DistinctPaths(writes + [w]) && AliasesIdle(writes + [w])
    ensures AllResolve(writes) && w.target.Some?
    ensures Content(WriteAll(files, writes), TargetOf(w)) == Content(files, TargetOf(w))
  {
    var all := writes + [w];
    PreimagesSnoc(files, writes, w);
    assert w in all;
    forall u | u in writes && TargetOf(u) == TargetOf(w)
      ensures Content(files, TargetOf(w)) == Some(u.after)
    {
      var k :| 0 <= k < |writes| && writes[k] == u;
      assert all[k] == u && all[|writes|] == w && u in all;
      assert Idle(u) && PreimageOk(files, u);
    }
    IdleKeepsContent(files, writes, TargetOf(w));
  }

  /** When writes to one file are idle, planning everything up front and re-planning each time agree. */
  lemma {:induction false} SequentialIsWriteAll(files: Files, packets: seq<Packet>)
    requires DistinctPaths(PlannedWrites(files, packets)) && AliasesIdle(PlannedWrites(files, packets))
    requires PreimagesOk(files, PlannedWrites(files, packets))
    ensures RunSequentially(files, packets) == WriteAll(files, PlannedWrites(files, packets))
    decreases |packets|, 1
  {
    if packets != [] {
      var before, p := packets[..|packets| - 1], packets[|packets| - 1];
      var writes := PlannedWrites(files, before);
      if Plans(files, p) {
        NextPacket(files, before, p);
      } else {
        SequentialIsWriteAll(files, before);
        FailureIsStable(files, writes, p);
      }
    }
  }

  lemma NextPacket(files: Files, before: seq<Packet>, p: Packet)
    requires Plans(files, p)
    requires var all := PlannedWrites(files, before) + [WriteOf(files, p)];
             DistinctPaths(all) && AliasesIdle(all) && AllResolve(all) && PreimagesOk(files, all)
    ensures RunPacket(RunSequentially(files, before), p)
         == WriteAll(files, PlannedWrites(files, before) + [WriteOf(files, p)])
    decreases |before| + 1, 0
  {
    var writes, w := PlannedWrites(files, before), WriteOf(files, p);
    DistinctSnoc(writes, w);
    PreimagesSnoc(files, writes, w);
    NextTargetIsUnchanged(files, writes, w);
    SequentialIsWriteAll(files, before);
    PlanIsLocal(files, WriteAll(files, writes), p.instruction.value);
    assert (writes + [w])[..|writes|] == writes;
  }

  // ---- Order does not matter ----------------------------------------------------------------------------

  /** The last write to a file in a list is one of its writes to that file. */
  lemma {:induction false} SomeWriteWins(files: Files, writes: seq<PlannedWrite>, target: Target)
    returns (w: PlannedWrite)
    requires AllResolve(writes) && exists u :: u in writes && TargetOf(u) == target
    ensures w in writes && TargetOf(w) == target
    ensures Content(WriteAll(files, writes), target) == Some(w.after)
  {
    var before, last := writes[..|writes| - 1], writes[|writes| - 1];
    assert writes == before + [last];
    if TargetOf(last) == target {
      w := last;
    } else {
      w := SomeWriteWins(files, before, target);
    }
  }

  /** Writes that agree on every file commute. */
  lemma ArrangementIsIrrelevant(files: Files, a: seq<PlannedWrite>, b: seq<PlannedWrite>)
    requires AllResolve(a) && AllResolve(b) && OneAfter(a)
    requires forall w :: w in a <==> w in b
    ensures WriteAll(files, a) == WriteAll(files, b)
  {
    forall t
      ensures Content(WriteAll(files, a), t) == Content(WriteAll(files, b), t)
    {
      if w :| w in a && TargetOf(w) == t {
        var u := SomeWriteWins(files, a, t);
        var v := SomeWriteWins(files, b, t);
      } else {
        UntouchedTarget(files, a, t);
        UntouchedTarget(files, b, t);
      }
    }
    SameContents(WriteAll(files, a), WriteAll(files, b));
  }
}
