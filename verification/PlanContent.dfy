/** What the packets of a parallel run contribute: one plan or one failure each, said of their instructions. */
module PlanContent {
  import opened EditContent
  import opened Lists
  import opened LocalPlanning
  import opened Options
  import opened ParallelPlan
  import opened ParallelRun
  import opened PatchAnswers
  import opened PatchContract
  import opened WorkspacePaths

  predicate PlansPacket(files: Files, p: Packet, e: Entry) {
    && p.instruction.Some? && !p.instruction.value.Steps?
    && var target := Resolve(p.instruction.value.path);
       target.Some? && e.id == p.id && PlansEdit(files, p.instruction.value, target.value, e.write)
  }

  /** A path outside the workspace comes first; then a file that is there already, and steps, which have no path. */
  predicate FailsPacket(files: Files, p: Packet, f: Failure) {
    && f.id == p.id && p.instruction.Some?
    && match p.instruction.value
       case Steps => f.error == if Resolve("").None? then PathEscape("") else NotSingleFile
       case CreateFile(path, _) =>
         (match Resolve(path)
          case None => f.error == PathEscape(path)
          case Some(target) => target in files && f.error == AlreadyExists(path))
       case ReplaceContent(path, _) => Resolve(path).None? && f.error == PathEscape(path)
       case AppendLine(path, _) => Resolve(path).None? && f.error == PathEscape(path)
  }

  /** A packet without an instruction contributes nothing, any other one plan or one failure. */
  predicate Contributes(files: Files, p: Packet, plans: seq<Entry>, failures: seq<Failure>) {
    if p.instruction.None? then plans == [] && failures == []
    else
      || (|plans| == 1 && failures == [] && PlansPacket(files, p, plans[0]))
      || (plans == [] && |failures| == 1 && FailsPacket(files, p, failures[0]))
  }

  lemma PacketContributes(files: Files, p: Packet)
    ensures Contributes(files, p, Entries(files, [p]), Failures(files, [p]))
  {
    assert [p][..0] == [] && Entries(files, []) == [] && Failures(files, []) == [];
    if p.instruction.Some? && !p.instruction.value.Steps? {
      PlanningIs(files, p.instruction.value);
    }
  }

  /** Plans and failures are what the packets contribute, in packet order. */
  lemma {:induction false} EveryPacketIsAccountedFor(files: Files, packets: seq<Packet>)
    returns (plans: seq<seq<Entry>>, failures: seq<seq<Failure>>)
    ensures Entries(files, packets) == Flat(plans) && Failures(files, packets) == Flat(failures)
    ensures |plans| == |packets| == |failures|
    ensures forall i :: 0 <= i < |packets| ==> Contributes(files, packets[i], plans[i], failures[i])
  {
    plans, failures := [], [];
    if packets != [] {
      var before, p := packets[..|packets| - 1], packets[|packets| - 1];
      assert packets == before + [p];
      plans, failures := EveryPacketIsAccountedFor(files, before);
      EntriesAppend(files, before, [p]);
      PacketContributes(files, p);
      FlatSnoc(plans, Entries(files, [p]));
      FlatSnoc(failures, Failures(files, [p]));
      plans, failures := plans + [Entries(files, [p])], failures + [Failures(files, [p])];
    }
  }

  // ---- What the arbiter counts and refuses ---------------------------------------------------------------

  function Ids(entries: seq<Entry>): seq<string> {
    seq(|entries|, i requires 0 <= i < |entries| => entries[i].id)
  }

  /** The count of a packet is how often its id stands in the plan. */
  lemma {:induction false} CountIsOccurrences(entries: seq<Entry>, id: string)
    ensures CountOf(entries, id) == multiset(Ids(entries))[id]
  {
    if entries != [] {
      var before, last := entries[..|entries| - 1], entries[|entries| - 1];
      CountIsOccurrences(before, id);
      assert Ids(entries) == Ids(before) + [last.id];
    }
  }

  predicate ReportsRepetitions(writes: seq<PlannedWrite>, parts: seq<seq<string>>) {
    && |parts| == |writes|
    && forall k :: 0 <= k < |writes| ==> parts[k] == Once(writes[k].path, Repeats(writes, k))
  }

  lemma OneMoreRepetition(before: seq<PlannedWrite>, w: PlannedWrite, parts: seq<seq<string>>)
    requires ReportsRepetitions(before, parts)
    ensures ReportsRepetitions(before + [w], parts + [Once(w.path, Repeats(before + [w], |before|))])
  {
    var writes := before + [w];
    RepeatsBefore(writes, |before|);
    assert writes[..|before|] == before;
    forall k | 0 <= k < |before|
      ensures Repeats(writes, k) <==> Repeats(before, k)
    {
    }
  }

  lemma LastRepetition(before: seq<PlannedWrite>, w: PlannedWrite)
    ensures RepeatedPaths(before + [w]) == RepeatedPaths(before) + Once(w.path, Repeats(before + [w], |before|))
  {
    var writes := before + [w];
    RepeatsBefore(writes, |before|);
    assert writes[..|before|] == before;
  }

  /** A path is refused once for every write whose path an earlier one has, in the order of the writes. */
  lemma {:induction false} RepetitionsAreNamed(writes: seq<PlannedWrite>) returns (parts: seq<seq<string>>)
    ensures RepeatedPaths(writes) == Flat(parts) && ReportsRepetitions(writes, parts)
  {
    parts := [];
    if writes != [] {
      var before, w := writes[..|writes| - 1], writes[|writes| - 1];
      assert writes == before + [w];
      var earlier := RepetitionsAreNamed(before);
      OneMoreRepetition(before, w, earlier);
      LastRepetition(before, w);
      FlatSnoc(earlier, Once(w.path, Repeats(writes, |before|)));
      parts := earlier + [Once(w.path, Repeats(writes, |before|))];
    }
  }
}
