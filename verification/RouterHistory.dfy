/** What a reachable router state says about the history that produced it. */
module RouterHistory {
  import opened LineSplitter
  import opened Options
  import opened RouterState

  /** The operation registers, finishes or cancels this very id. */
  predicate Resets(op: Op, id: Id) {
    match op
    case Register(i, _, _) => i == id
    case Finish(i) => i == id
    case Cancel(i) => i == id
    case Deliver(_) => false
  }

  predicate Addresses(op: Op, id: Id) {
    op.Deliver? && op.line.requestId == Some(id)
  }

  predicate IsTerminalFor(op: Op, id: Id) {
    Addresses(op, id) && op.line.isTerminal
  }

  /** `ops[k]` registered `id` and nothing has touched the registration since. */
  ghost predicate OpenSince(ops: seq<Op>, id: Id, k: nat) {
    && k < |ops|
    && ops[k].Register? && ops[k].id == id
    && forall j :: k < j < |ops| ==> !Resets(ops[j], id)
  }

  lemma {:induction false} PendingIffOpen(ops: seq<Op>, id: Id)
    ensures id in Run(ops).pending <==> exists k :: OpenSince(ops, id, k)
  {
    if ops != [] {
      var n := |ops| - 1;
      var before, last := ops[..n], ops[n];
      PendingIffOpen(before, id);
      if Resets(last, id) {
        if last.Register? {
          assert OpenSince(ops, id, n);
        }
      } else {
        forall k | OpenSince(before, id, k)
          ensures OpenSince(ops, id, k)
        {
        }
        forall k | OpenSince(ops, id, k)
          ensures OpenSince(before, id, k)
        {
        }
      }
    }
  }

  lemma StepSetsFlags(st: State, op: Op, id: Id)
    requires Inv(st) && id in st.pending && !Resets(op, id)
    ensures id in Step(st, op).pending
    ensures Step(st, op).pending[id].isComplete <==> st.pending[id].isComplete || IsTerminalFor(op, id)
    ensures Step(st, op).pending[id].sawRequestEvent <==> st.pending[id].sawRequestEvent || Addresses(op, id)
  {
    if Addresses(op, id) {
      assert Matched(st, op.line) == Some(id);
    }
  }

  ghost predicate TerminalAfter(ops: seq<Op>, id: Id, k: nat) {
    exists j :: k < j < |ops| && IsTerminalFor(ops[j], id)
  }

  ghost predicate AddressedAfter(ops: seq<Op>, id: Id, k: nat) {
    exists j :: k < j < |ops| && Addresses(ops[j], id)
  }

  lemma AfterOneMore(before: seq<Op>, op: Op, id: Id, k: nat)
    requires k < |before|
    ensures TerminalAfter(before + [op], id, k) <==> TerminalAfter(before, id, k) || IsTerminalFor(op, id)
    ensures AddressedAfter(before + [op], id, k) <==> AddressedAfter(before, id, k) || Addresses(op, id)
  {
    var ops := before + [op];
    assert ops[|before|] == op;
    forall j | k < j < |before|
      ensures ops[j] == before[j]
    {
    }
  }

  /**
   A pending request is complete exactly when a terminal marker carrying its id has arrived since
   its latest registration, and has been seen exactly when some line carrying its id has.
   */
  lemma {:induction false} CompleteIffTerminalArrived(ops: seq<Op>, id: Id, k: nat)
    requires OpenSince(ops, id, k)
    ensures id in Run(ops).pending
    ensures Run(ops).pending[id].isComplete <==> TerminalAfter(ops, id, k)
    ensures Run(ops).pending[id].sawRequestEvent <==> AddressedAfter(ops, id, k)
  {
    var n := |ops| - 1;
    var before := ops[..n];
    if k < n {
      assert OpenSince(before, id, k);
      CompleteIffTerminalArrived(before, id, k);
      RunKeepsInv(before);
      StepSetsFlags(Run(before), ops[n], id);
      assert ops == before + [ops[n]];
      AfterOneMore(before, ops[n], id, k);
    }
  }

  /** The texts of the lines the router matched to `id` after `ops[k]`, except its own terminal markers. */
  ghost function MatchedTexts(ops: seq<Op>, id: Id, k: nat): seq<Bytes>
    requires k < |ops|
  {
    if |ops| == k + 1 then []
    else
      var before, last := ops[..|ops| - 1], ops[|ops| - 1];
      var earlier := MatchedTexts(before, id, k);
      if last.Deliver? && Matched(Run(before), last.line) == Some(id) && !IsTerminalFor(last, id)
      then earlier + [last.line.text] else earlier
  }

  /** A pending request holds exactly those lines, in order, under the kind and run it registered with. */
  lemma {:induction false} CollectsItsMatchedLines(ops: seq<Op>, id: Id, k: nat)
    requires OpenSince(ops, id, k)
    ensures id in Run(ops).pending
    ensures var r := Run(ops).pending[id];
            r.lines == MatchedTexts(ops, id, k) && r.kind == ops[k].kind && r.runId == ops[k].runId
  {
    var n := |ops| - 1;
    var before := ops[..n];
    if k < n {
      assert OpenSince(before, id, k);
      CollectsItsMatchedLines(before, id, k);
      RunKeepsInv(before);
      assert ResponseOk(Run(before), id, Run(before).pending[id]);
    }
  }
}
