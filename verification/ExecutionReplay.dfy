/** Closed forms of the entries, delivering events again, and what the sequence number of a run means. */
module ExecutionReplay {
  import opened JsonValues
  import opened Options
  import opened ExecutionProjection

  // ---- Closed forms of one entry after its events ---------------------------------------------------

  function StateAfter(state: string, es: seq<Event>): string {
    if es == [] then state else RunState(es[|es| - 1].kind).GetOr(StateAfter(state, es[..|es| - 1]))
  }

  function MaxSequence(low: nat, es: seq<Event>): nat {
    if es == [] then low else Max(MaxSequence(low, es[..|es| - 1]), es[|es| - 1].sequence)
  }

  function Evidence(es: seq<Event>): set<string> {
    if es == [] then {} else Evidence(es[..|es| - 1]) + EvidenceOf(es[|es| - 1])
  }

  predicate AllAddress(es: seq<Event>, key: Key) {
    forall e :: e in es ==> Addresses(e, key)
  }

  lemma OneRunEvent(m: Maps, e: Event, run: string)
    requires e.runId == run
    ensures Get(Apply(m, e).runMap, run) == Some(NextRun(Get(m.runMap, run), e))
  {
  }

  lemma {:induction false} RunAfter(m: Maps, es: seq<Event>, run: string)
    requires es != [] && AllAddress(es, RunKey(run))
    ensures run in ApplyAll(m, es).runMap
    ensures var was := Get(m.runMap, run).GetOr(RunRecord(run, "unknown", 0, "", {}));
            ApplyAll(m, es).runMap[run] == RunRecord(
              was.id, StateAfter(was.state, es), MaxSequence(was.lastSequence, es),
              Message(es[|es| - 1]), was.evidenceRefs + Evidence(es))
  {
    var before, last := es[..|es| - 1], es[|es| - 1];
    assert es == before + [last] && last in es;
    if before != [] {
      RunAfter(m, before, run);
    }
    OneRunEvent(ApplyAll(m, before), last, run);
  }

  lemma {:induction false} ItemAfter(m: Maps, es: seq<Event>, id: string)
    requires es != [] && AllAddress(es, ItemKey(id))
    ensures id in ApplyAll(m, es).queueMap
    ensures var was := Get(m.queueMap, id).GetOr(QueueItem(id, es[0].runId, "queued", Priority(es[0].payload), 0));
            ApplyAll(m, es).queueMap[id] == QueueItem(
              was.id, was.runId, FieldString(es[|es| - 1].payload, "to").GetOr(StateForWorkKind(es[|es| - 1].kind)),
              was.priority, MaxSequence(was.lastSequence, es))
  {
    var before, last := es[..|es| - 1], es[|es| - 1];
    assert es == before + [last] && last in es;
    if before != [] {
      ItemAfter(m, before, id);
    }
  }

  /** The last event of an approval decides the whole record. */
  lemma LastApprovalWins(m: Maps, es: seq<Event>, id: string)
    requires es != [] && AllAddress(es, ApprovalKey(id))
    ensures var last := es[|es| - 1];
            && id in ApplyAll(m, es).approvalMap
            && ApplyAll(m, es).approvalMap[id] == Approval(
                 id, last.runId, FieldString(last.payload, "scope").GetOr("unknown"),
                 FieldString(last.payload, "state").GetOr("pending"), last.sequence)
  {
    assert es[|es| - 1] in es;
  }

  /** The last event of a steering message decides the whole record. */
  lemma LastSteeringWins(m: Maps, es: seq<Event>, id: string)
    requires es != [] && AllAddress(es, SteeringKey(id))
    ensures var last := es[|es| - 1];
            && id in ApplyAll(m, es).steeringMap
            && ApplyAll(m, es).steeringMap[id] == Steering(
                 id, last.runId, FieldString(last.payload, "message").GetOr(""),
                 FieldString(last.payload, "target_id"), last.sequence)
  {
    assert es[|es| - 1] in es;
  }

  /** A second pass over the same events moves none of the folds. */
  lemma {:induction false} FoldsAbsorb(state: string, low: nat, es: seq<Event>)
    ensures StateAfter(StateAfter(state, es), es) == StateAfter(state, es)
    ensures MaxSequence(MaxSequence(low, es), es) == MaxSequence(low, es)
  {
    StateForgets(StateAfter(state, es), state, es);
    MaxSequenceIsMax(low, es);
    MaxSequenceIsMax(MaxSequence(low, es), es);
  }

  /** Either the events fix the state whatever it was, or they leave it alone. */
  lemma {:induction false} StateForgets(a: string, b: string, es: seq<Event>)
    ensures StateAfter(a, es) == StateAfter(b, es) || (StateAfter(a, es) == a && StateAfter(b, es) == b)
  {
    if es != [] {
      StateForgets(a, b, es[..|es| - 1]);
    }
  }

  /** `MaxSequence` is the least upper bound of the start value and the events' sequences. */
  lemma {:induction false} MaxSequenceIsMax(low: nat, es: seq<Event>)
    ensures low <= MaxSequence(low, es)
    ensures forall e :: e in es ==> e.sequence <= MaxSequence(low, es)
    ensures MaxSequence(low, es) == low || exists e :: e in es && e.sequence == MaxSequence(low, es)
  {
    if es != [] {
      var before, last := es[..|es| - 1], es[|es| - 1];
      assert es == before + [last];
      MaxSequenceIsMax(low, before);
      assert last in es && forall e :: e in before ==> e in es;
    }
  }

  // ---- At-least-once delivery -------------------------------------------------------------------------

  lemma ReplayOwnEvents(m: Maps, es: seq<Event>, key: Key)
    requires AllAddress(es, key)
    ensures SameEntry(ApplyAll(ApplyAll(m, es), es), ApplyAll(m, es), key)
  {
    if es != [] {
      var once := ApplyAll(m, es);
      var last := es[|es| - 1];
      assert last in es;
      match key
      case RunKey(id) =>
        RunAfter(m, es, id);
        RunAfter(once, es, id);
        var was := Get(m.runMap, id).GetOr(RunRecord(id, "unknown", 0, "", {}));
        FoldsAbsorb(was.state, was.lastSequence, es);
        assert was.evidenceRefs + Evidence(es) + Evidence(es) == was.evidenceRefs + Evidence(es);
      case ItemKey(id) =>
        ItemAfter(m, es, id);
        ItemAfter(once, es, id);
        var was := Get(m.queueMap, id).GetOr(QueueItem(id, es[0].runId, "queued", Priority(es[0].payload), 0));
        FoldsAbsorb("", was.lastSequence, es);
      case ApprovalKey(id) =>
      case SteeringKey(id) =>
    }
  }

  /** Applying a suffix a second time changes none of the four maps, from any starting maps. */
  lemma SuffixReplayIsNoOp(m: Maps, xs: seq<Event>, ys: seq<Event>)
    ensures ApplyAll(m, xs + ys + ys) == ApplyAll(m, xs + ys)
  {
    ApplyAllAppend(m, xs, ys);
    ApplyAllAppend(m, xs + ys, ys);
    var start := ApplyAll(m, xs);
    forall key
      ensures SameEntry(ApplyAll(ApplyAll(start, ys), ys), ApplyAll(start, ys), key)
    {
      var own := Select(ys, key);
      SelectMembers(ys, key);
      OnlyOwnEventsMatter(start, ys, key);
      OnlyOwnEventsMatter(ApplyAll(start, ys), ys, key);
      SameStartSameEntry(ApplyAll(start, ys), ApplyAll(start, own), own, key);
      ReplayOwnEvents(start, own, key);
    }
    SameEntriesSameMaps(ApplyAll(ApplyAll(start, ys), ys), ApplyAll(start, ys));
  }

  lemma {:induction false} SameStartSameEntry(a: Maps, b: Maps, es: seq<Event>, key: Key)
    requires SameEntry(a, b, key)
    ensures SameEntry(ApplyAll(a, es), ApplyAll(b, es), key)
  {
    if es != [] {
      SameStartSameEntry(a, b, es[..|es| - 1], key);
      ApplyIsLocal(ApplyAll(a, es[..|es| - 1]), ApplyAll(b, es[..|es| - 1]), es[|es| - 1], key);
    }
  }

  // ---- The sequence number of a run -------------------------------------------------------------------

  /** The sequence recorded for a run is the greatest one applied to it since the maps were empty. */
  lemma {:induction false} LatestSequenceIsGreatest(es: seq<Event>, run: string)
    ensures run in ApplyAll(EMPTY, es).runMap <==> exists e :: e in es && e.runId == run
    ensures run in ApplyAll(EMPTY, es).runMap ==>
              && (forall e :: e in es && e.runId == run ==> e.sequence <= ApplyAll(EMPTY, es).runMap[run].lastSequence)
              && (exists e :: e in es && e.runId == run && e.sequence == ApplyAll(EMPTY, es).runMap[run].lastSequence)
  {
    var own := Select(es, RunKey(run));
    SelectMembers(es, RunKey(run));
    OnlyOwnEventsMatter(EMPTY, es, RunKey(run));
    assert own == [] || own[0] in own;
    if own != [] {
      RunAfter(EMPTY, own, run);
      MaxSequenceIsMax(0, own);
    }
  }
}
