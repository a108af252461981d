/** What one event does to the four maps, in terms of its payload and of the names events have on the wire. */
module ExecutionEvents {
  import opened ExecutionProjection
  import opened JsonValues
  import opened Options

  // ---- States and wire names -----------------------------------------------------------------------------

  /** The kind is one of the named ones and is written with this prefix and this rest. */
  predicate WrittenAs(kind: EventKind, prefix: string, rest: string) {
    !kind.OtherKind? && RawValue(kind) == prefix + rest
  }

  lemma SameRest(prefix: string, a: string, b: string)
    requires prefix + a == prefix + b
    ensures a == b
  {
    assert (prefix + a)[|prefix|..] == a && (prefix + b)[|prefix|..] == b;
  }

  /** Only run events are written with an `r` and only work items with a `w`. */
  lemma FirstLetters(kind: EventKind)
    requires !kind.OtherKind?
    ensures RawValue(kind) != ""
    ensures RawValue(kind)[0] == 'r' <==>
            kind.RunStarted? || kind.RunPaused? || kind.RunResumed? || kind.RunCancelled? || kind.RunCompleted?
    ensures RawValue(kind)[0] == 'w' <==>
            kind.WorkItemQueued? || kind.WorkItemLeased? || kind.WorkItemRunning? || kind.WorkItemCompleted?
  {
  }

  /** A run is in the state its event names; started and resumed runs are running. */
  lemma RunEventsNameTheState(kind: EventKind, rest: string)
    requires WrittenAs(kind, "run_", rest)
    ensures RunState(kind) == Some(if rest == "started" || rest == "resumed" then "running" else rest)
  {
    FirstLetters(kind);
    assert ("run_" + rest)[0] == 'r';
    SameRest("run_", rest, if kind.RunStarted? then "started" else if kind.RunPaused? then "paused"
                           else if kind.RunResumed? then "resumed" else if kind.RunCancelled? then "cancelled"
                           else "completed");
  }

  /** A work item is in the state its event names; only a running or a completed one says something of its run. */
  lemma WorkEventsNameTheState(kind: EventKind, rest: string)
    requires WrittenAs(kind, "work_item_", rest)
    ensures StateForWorkKind(kind) == rest
    ensures RunState(kind) == if rest == "running" then Some("running")
                              else if rest == "completed" then Some("verifying") else None
  {
    FirstLetters(kind);
    assert ("work_item_" + rest)[0] == 'w';
    SameRest("work_item_", rest, if kind.WorkItemQueued? then "queued" else if kind.WorkItemLeased? then "leased"
                                 else if kind.WorkItemRunning? then "running" else "completed");
  }

  /** A verified run goes on verifying, a failed verification blocks it, and a snapshot shows; other kinds leave it. */
  lemma OtherEventsAndTheState(raw: string)
    ensures RunState(VerificationPassed) == RunState(WorkItemCompleted)
    ensures RawValue(VerificationPassed) == "verification_passed"
    ensures RawValue(VerificationFailed) == "verification_failed"
    ensures RawValue(SnapshotWritten) == "snapshot_written" && RawValue(OtherKind(raw)) == raw
    ensures RunState(VerificationFailed) == Some("blocked") && RunState(SnapshotWritten) == Some("snapshot")
    ensures RunState(OtherKind(raw)) == None && StateForWorkKind(OtherKind(raw)) == "unknown"
    ensures StateForWorkKind(RunCancelled) == "cancelled"
  {
  }

  // ---- The payload ---------------------------------------------------------------------------------------

  predicate Says(payload: Json, key: string, text: string) {
    payload.JObject? && key in payload.fields && payload.fields[key] == JString(text)
  }

  predicate Mute(payload: Json, key: string) {
    payload.JObject? && key in payload.fields ==> !payload.fields[key].JString?
  }

  /** What the payload says under the key, or the text that stands in for it. */
  predicate SaysOr(payload: Json, key: string, otherwise: string, text: string) {
    Says(payload, key, text) || (Mute(payload, key) && text == otherwise)
  }

  /** A number's whole part, towards zero; nothing else is a priority. */
  predicate PriorityOf(payload: Json, n: int) {
    if payload.JObject? && "priority" in payload.fields then
      match payload.fields["priority"]
      case JInteger(m) => n == m
      case JFraction(x) => if x < 0.0 then -1.0 < x - n as real <= 0.0 else 0.0 <= x - n as real < 1.0
      case _ => n == 0
    else n == 0
  }

  // ---- One event -----------------------------------------------------------------------------------------

  predicate Latest(was: nat, e: Event, now: nat) {
    now >= was && now >= e.sequence && (now == was || now == e.sequence)
  }

  ghost predicate RunUpdated(was: Option<RunRecord>, e: Event, now: RunRecord) {
    var before := was.GetOr(RunRecord(e.runId, "unknown", 0, "", {}));
    && now.id == before.id && now.state == RunState(e.kind).GetOr(before.state)
    && Latest(before.lastSequence, e, now.lastSequence)
    && SaysOr(e.payload, "message", RawValue(e.kind), now.lastMessage)
    && (forall r :: r in now.evidenceRefs <==> r in before.evidenceRefs || r in e.evidenceRefs)
  }

  predicate ItemUpdated(was: Option<QueueItem>, e: Event, id: string, now: QueueItem) {
    && (match was
        case Some(item) => now.id == item.id && now.runId == item.runId && now.priority == item.priority
        case None => now.id == id && now.runId == e.runId && PriorityOf(e.payload, now.priority))
    && SaysOr(e.payload, "to", StateForWorkKind(e.kind), now.state)
    && Latest(if was.Some? then was.value.lastSequence else 0, e, now.lastSequence)
  }

  predicate ApprovalSet(e: Event, id: string, now: Approval) {
    && now.id == id && now.runId == e.runId && now.lastSequence == e.sequence
    && SaysOr(e.payload, "scope", "unknown", now.scope) && SaysOr(e.payload, "state", "pending", now.state)
  }

  predicate SteeringSet(e: Event, id: string, now: Steering) {
    && now.id == id && now.runId == e.runId && now.lastSequence == e.sequence
    && SaysOr(e.payload, "message", "", now.message)
    && (match now.targetId
        case Some(target) => Says(e.payload, "target_id", target)
        case None => Mute(e.payload, "target_id"))
  }

  /** One event updates its run and no other. */
  lemma OneEventOnRuns(m: Maps, e: Event)
    ensures var now := Apply(m, e).runMap;
            && e.runId in now && RunUpdated(Get(m.runMap, e.runId), e, now[e.runId])
            && forall id :: id != e.runId ==> Get(now, id) == Get(m.runMap, id)
  {
  }

  /** It updates the item, sets the approval and sets the steering message it names, and no others. */
  lemma OneEventOnItems(m: Maps, e: Event, id: string)
    ensures var now := Apply(m, e).queueMap;
            if Says(e.payload, "work_item_id", id)
            then id in now && ItemUpdated(Get(m.queueMap, id), e, id, now[id]) else Get(now, id) == Get(m.queueMap, id)
  {
  }

  lemma OneEventOnApprovals(m: Maps, e: Event, id: string)
    ensures var now := Apply(m, e).approvalMap;
            if Says(e.payload, "approval_id", id)
            then id in now && ApprovalSet(e, id, now[id]) else Get(now, id) == Get(m.approvalMap, id)
  {
  }

  lemma OneEventOnSteering(m: Maps, e: Event, id: string)
    ensures var now := Apply(m, e).steeringMap;
            if Says(e.payload, "steering_id", id)
            then id in now && SteeringSet(e, id, now[id]) else Get(now, id) == Get(m.steeringMap, id)
  {
  }
}
