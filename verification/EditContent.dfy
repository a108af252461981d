/**
 What local edits write, said of the files and the texts themselves.

 `Effect` is the meaning of one packet and `Proposes` that of one patch call; neither mentions the
 planning functions.
 */
module EditContent {
  import opened AgentGateway
  import opened LineMapping
  import opened LocalPlanning
  import opened Options
  import opened PatchContract
  import opened Text
  import opened WorkspacePaths

  // ---- Appending a line ----------------------------------------------------------------------------------

  /** The lines of a text, each ended by a newline except perhaps the last; carriage returns stay. */
  function Rows(s: string): seq<string>
    decreases |s|
  {
    if s == "" then []
    else if LineLength(s) == |s| then [s]
    else [s[..LineLength(s)]] + Rows(s[LineLength(s) + 1..])
  }

  /** The old text, then a newline if it lacks one, then the new line with its own. */
  function Appended(was: string, value: string): string {
    if was == "" || was[|was| - 1] == '\n' then was + value + "\n" else was + "\n" + value + "\n"
  }

  lemma RowThen(line: string, rest: string)
    requires '\n' !in line
    ensures Rows(line + ("\n" + rest)) == [line] + Rows(rest)
  {
    var s := line + ("\n" + rest);
    LineLengthIs(line, "\n" + rest);
    assert s[..|line|] == line && s[|line| + 1..] == rest;
  }

  lemma JoinsBehind(line: string, rest: string, more: string)
    ensures (line + ("\n" + rest)) + more == line + ("\n" + (rest + more))
  {
  }

  lemma AppendedBehind(line: string, rest: string, value: string)
    ensures Appended(line + ("\n" + rest), value) == line + ("\n" + Appended(rest, value))
  {
    var was := line + ("\n" + rest);
    JoinsBehind(line, rest, value);
    JoinsBehind(line, rest + value, "\n");
    JoinsBehind(line, rest, "\n");
    JoinsBehind(line, rest + "\n", value);
    JoinsBehind(line, rest + "\n" + value, "\n");
    assert was[|was| - 1] == if rest == "" then '\n' else rest[|rest| - 1];
  }

  lemma RowsOfLine(line: string)
    requires '\n' !in line
    ensures Rows(line) == if line == "" then [] else [line]
  {
    LineLengthIs(line, "");
    assert line + "" == line;
  }

  lemma RowsOfOne(line: string, value: string)
    requires '\n' !in line && '\n' !in value
    ensures Rows(Appended(line, value)) == Rows(line) + [value]
  {
    RowsOfLine(line);
    RowThen(value, "");
    AppendedToLine(line, value);
    if line != "" {
      RowThen(line, value + ("\n" + ""));
    }
  }

  lemma AppendedToLine(line: string, value: string)
    requires '\n' !in line
    ensures Appended(line, value)
         == if line == "" then value + ("\n" + "") else line + ("\n" + (value + ("\n" + "")))
  {
    assert line != "" ==> line[|line| - 1] in line;
    assert "\n" + "" == "\n";
    assert line + "\n" + value + "\n" == line + ("\n" + (value + "\n"));
  }

  lemma {:induction false} RowsOfAppended(was: string, value: string)
    requires '\n' !in value
    ensures Rows(Appended(was, value)) == Rows(was) + [value]
    decreases |was|
  {
    var n := LineLength(was);
    if n == |was| {
      assert was[..n] == was;
      RowsOfOne(was, value);
    } else {
      var line, rest := was[..n], was[n + 1..];
      assert was == line + ("\n" + rest);
      AppendedBehind(line, rest, value);
      RowThen(line, rest);
      RowThen(line, Appended(rest, value));
      RowsOfAppended(rest, value);
    }
  }

  /** Appending keeps the old text in front. */
  lemma AppendedExtends(was: string, value: string)
    ensures was <= Appended(was, value)
    ensures WithFinalNewline(was) + value + "\n" == Appended(was, value)
  {
  }

  // ---- One packet ----------------------------------------------------------------------------------------

  predicate OthersStay(files: Files, after: Files, target: Target) {
    && (forall t :: t in after && t != target ==> t in files && after[t] == files[t])
    && (forall t :: t in files && t != target ==> t in after)
  }

  /** A create writes where nothing is, a replacement where something is, and an appended line always. */
  predicate EditedTo(i: Instruction, was: Option<string>, now: Option<string>) {
    match i
    case CreateFile(_, value) => now == if was.None? then Some(value) else was
    case ReplaceContent(_, value) => now == if was.Some? then Some(value) else None
    case AppendLine(_, value) => now == Some(Appended(was.GetOr(""), value))
    case Steps => now == was
  }

  /** What a packet does to the files when nothing fails on disk. */
  predicate Effect(files: Files, p: Packet, after: Files) {
    if p.instruction.None? || p.instruction.value.Steps? || Resolve(p.instruction.value.path).None? then after == files
    else
      var target := Resolve(p.instruction.value.path).value;
      OthersStay(files, after, target) && EditedTo(p.instruction.value, Content(files, target), Content(after, target))
  }

  /** The effect leaves no choice. */
  lemma EffectIsExact(files: Files, p: Packet, a: Files, b: Files)
    requires Effect(files, p, a) && Effect(files, p, b)
    ensures a == b
  {
    if p.instruction.Some? && !p.instruction.value.Steps? && Resolve(p.instruction.value.path).Some? {
      var target := Resolve(p.instruction.value.path).value;
      forall t
        ensures Content(a, t) == Content(b, t)
      {
        assert t != target ==> Content(a, t) == Content(files, t) == Content(b, t);
      }
      SameContents(a, b);
    }
  }

  lemma PacketHasEffect(files: Files, p: Packet)
    ensures Effect(files, p, RunPacket(files, p))
  {
    if p.instruction.Some? && p.instruction.value.AppendLine? && Resolve(p.instruction.value.path).Some? {
      var target := Resolve(p.instruction.value.path).value;
      AppendedExtends(Content(files, target).GetOr(""), p.instruction.value.value);
    }
  }

  /** One packet after the other. */
  ghost predicate EffectOfAll(files: Files, packets: seq<Packet>, after: Files) {
    if packets == [] then after == files
    else
      var before, p := packets[..|packets| - 1], packets[|packets| - 1];
      exists now :: EffectOfAll(files, before, now) && Effect(now, p, after)
  }

  lemma {:induction false} SequentialRunHasEffect(files: Files, packets: seq<Packet>)
    ensures EffectOfAll(files, packets, RunSequentially(files, packets))
  {
    if packets != [] {
      var before, p := packets[..|packets| - 1], packets[|packets| - 1];
      SequentialRunHasEffect(files, before);
      PacketHasEffect(RunSequentially(files, before), p);
    }
  }

  /** And that leaves no choice either. */
  lemma {:induction false} EffectOfAllIsExact(files: Files, packets: seq<Packet>, after: Files)
    ensures EffectOfAll(files, packets, after) <==> after == RunSequentially(files, packets)
  {
    SequentialRunHasEffect(files, packets);
    if packets != [] && EffectOfAll(files, packets, after) {
      var before, p := packets[..|packets| - 1], packets[|packets| - 1];
      var now :| EffectOfAll(files, before, now) && Effect(now, p, after);
      EffectOfAllIsExact(files, before, now);
      PacketHasEffect(now, p);
      EffectIsExact(now, p, RunPacket(now, p), after);
    }
  }

  /** A plan for a path that resolves: what it found, what it writes, and whether as a new file. */
  predicate PlansEdit(files: Files, i: Instruction, target: Target, w: PlannedWrite)
    requires !i.Steps?
  {
    var was := Content(files, target);
    && w.path == i.path && w.target == Some(target) && w.expectedBefore == was.GetOr("")
    && match i
       case CreateFile(_, value) => was.None? && w.after == value && w.operation.Create?
       case ReplaceContent(_, value) => w.after == value && w.operation.Modify?
       case AppendLine(_, value) =>
         w.after == Appended(was.GetOr(""), value) && (w.operation.Create? <==> was.None?)
  }

  /** Planning fails on a path outside the workspace, on creating what exists, and on nothing else. */
  lemma PlanningIs(files: Files, i: Instruction)
    requires !i.Steps?
    ensures var planned := PlanLocalEdit(files, i);
            if Resolve(i.path).None? then planned == Planned.Err(PathEscape(i.path))
            else if i.CreateFile? && Resolve(i.path).value in files then planned == Planned.Err(AlreadyExists(i.path))
            else planned.Ok? && PlansEdit(files, i, Resolve(i.path).value, planned.write)
  {
    if i.AppendLine? && Resolve(i.path).Some? {
      AppendedExtends(Content(files, Resolve(i.path).value).GetOr(""), i.value);
    }
  }

  // ---- One patch call ------------------------------------------------------------------------------------

  /** A proposed patch writes its text, a diff patch appends it as a line; both say what they found. */
  predicate Proposes(g: Gateway, files: Files, target: Target, call: ToolCall, w: PlannedWrite) {
    var was := Content(files, target);
    && w.path == call.path && w.target == g.resolve(call.path) && w.expectedBefore == was.GetOr("")
    && (w.operation.Create? <==> was.None?)
    && w.after == if call.tool.ProposePatch? then call.text else Appended(was.GetOr(""), call.text)
  }

  /** A patch call that is let through proposes its write, unless the file there is not safe text. */
  lemma PatchCallsPropose(g: Gateway, files: Files, tick: nat, call: ToolCall)
    requires PlansPatch(call.tool) && Decide(g.policy, call).Pass? && g.authorise(call.path).Granted?
    ensures var target := g.authorise(call.path).target;
            var (e, after) := Execute(g, files, tick, call);
            && after == files
            && if target in files && g.unsafeText(target) then e == Execution.Err("blocked_existing_file_not_safe_text")
               else e.Ok? && e.receipt.PlannedWriteReceipt? && Proposes(g, files, target, call, e.receipt.write)
  {
    AppendedExtends(Content(files, g.authorise(call.path).target).GetOr(""), call.text);
  }

  /** Every other call that is let through passes on what its service answered. */
  lemma ServedCallsPassOn(g: Gateway, files: Files, tick: nat, call: ToolCall)
    requires !PlansPatch(call.tool) && Decide(g.policy, call).Pass? && g.authorise(call.path).Granted?
    ensures var (e, after) := Execute(g, files, tick, call);
            var (service, left) := g.serve(tick, files, call);
            && after == left
            && match service
               case Answer(result) => e.Ok? && e.receipt.Read? && e.receipt.result == result
               case Artifact(assetId) => e.Ok? && e.receipt.ImageArtifact? && e.receipt.assetId == assetId
               case Inspection(summary) => e.Ok? && e.receipt.ImageInspection? && e.receipt.summary == summary
               case Error(message) => e.Err? && e.message == message
  {
  }

  /** A call that is not let through fails with the reason and leaves the files alone. */
  lemma RefusedCallsFail(g: Gateway, files: Files, tick: nat, call: ToolCall)
    ensures Decide(g.policy, call).Block? ==>
              Execute(g, files, tick, call) == (Execution.Err(Decide(g.policy, call).reason), files)
    ensures Decide(g.policy, call).Pass? && g.authorise(call.path).Denied? ==>
              Execute(g, files, tick, call) == (Execution.Err(g.authorise(call.path).message), files)
  {
  }
}
