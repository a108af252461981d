/**
 The read model of `ExecutionStore` as a fold over execution events.

 `Apply` is one event; the lemmas compare incremental application with the sorted replay of
 `rebuild`, and show that delivering a suffix twice changes nothing.
 */
module ExecutionProjection {
  import opened JsonValues
  import opened Options
  import Permutations
  import StringOrder

  datatype EventKind =
    | RunStarted | RunPaused | RunResumed | RunCancelled | RunCompleted
    | WorkItemQueued | WorkItemLeased | WorkItemRunning | WorkItemCompleted
    | VerificationPassed | VerificationFailed | SnapshotWritten
    | OtherKind(raw: string)

  function RawValue(kind: EventKind): string {
    match kind
    case RunStarted => "run_started"
    case RunPaused => "run_paused"
    case RunResumed => "run_resumed"
    case RunCancelled => "run_cancelled"
    case RunCompleted => "run_completed"
    case WorkItemQueued => "work_item_queued"
    case WorkItemLeased => "work_item_leased"
    case WorkItemRunning => "work_item_running"
    case WorkItemCompleted => "work_item_completed"
    case VerificationPassed => "verification_passed"
    case VerificationFailed => "verification_failed"
    case SnapshotWritten => "snapshot_written"
    case OtherKind(raw) => raw
  }

  datatype Event = Event(runId: string, sequence: nat, kind: EventKind, payload: Json, evidenceRefs: seq<string>)

  /** `evidenceRefs` is always stored sorted and without duplicates, that is, as a set. */
  datatype RunRecord = RunRecord(
    id: string, state: string, lastSequence: nat, lastMessage: string, evidenceRefs: set<string>)
  datatype QueueItem = QueueItem(id: string, runId: string, state: string, priority: int, lastSequence: nat)
  datatype Approval = Approval(id: string, runId: string, scope: string, state: string, lastSequence: nat)
  datatype Steering = Steering(id: string, runId: string, message: string, targetId: Option<string>, lastSequence: nat)

  datatype Maps = Maps(
    runMap: map<string, RunRecord>,
    queueMap: map<string, QueueItem>,
    approvalMap: map<string, Approval>,
    steeringMap: map<string, Steering>)

  const EMPTY := Maps(map[], map[], map[], map[])

  // ---- Reading a payload -------------------------------------------------------------------------

  /** `Int(_: Double)` truncates toward zero. */
  function Truncate(x: real): int {
    if x >= 0.0 then x.Floor else -((-x).Floor)
  }

  function Priority(payload: Json): int {
    match Field(payload, "priority")
    case Some(JInteger(n)) => n
    case Some(JFraction(x)) => Truncate(x)
    case _ => 0
  }

  function ItemId(e: Event): Option<string> { FieldString(e.payload, "work_item_id") }
  function ApprovalId(e: Event): Option<string> { FieldString(e.payload, "approval_id") }
  function SteeringId(e: Event): Option<string> { FieldString(e.payload, "steering_id") }

  function Max(a: nat, b: nat): nat { if a < b then b else a }

  // ---- One event ---------------------------------------------------------------------------------

  /** The run state an event kind sets, if it sets one. */
  function RunState(kind: EventKind): Option<string> {
    match kind
    case RunStarted => Some("running")
    case RunPaused => Some("paused")
    case RunResumed => Some("running")
    case RunCancelled => Some("cancelled")
    case RunCompleted => Some("completed")
    case WorkItemRunning => Some("running")
    case WorkItemCompleted => Some("verifying")
    case VerificationPassed => Some("verifying")
    case VerificationFailed => Some("blocked")
    case SnapshotWritten => Some("snapshot")
    case _ => None
  }

  function StateForWorkKind(kind: EventKind): string {
    match kind
    case WorkItemQueued => "queued"
    case WorkItemLeased => "leased"
    case WorkItemRunning => "running"
    case WorkItemCompleted => "completed"
    case RunCancelled => "cancelled"
    case _ => "unknown"
  }

  function Message(e: Event): string {
    FieldString(e.payload, "message").GetOr(RawValue(e.kind))
  }

  function EvidenceOf(e: Event): set<string> {
    set r | r in e.evidenceRefs
  }

  function NextRun(known: Option<RunRecord>, e: Event): RunRecord {
    var run := known.GetOr(RunRecord(e.runId, "unknown", 0, "", {}));
    run.(lastSequence := Max(run.lastSequence, e.sequence),
         lastMessage := Message(e),
         evidenceRefs := run.evidenceRefs + EvidenceOf(e),
         state := RunState(e.kind).GetOr(run.state))
  }

  function NextItem(known: Option<QueueItem>, e: Event, id: string): QueueItem {
    var item := known.GetOr(QueueItem(id, e.runId, "queued", Priority(e.payload), 0));
    item.(state := FieldString(e.payload, "to").GetOr(StateForWorkKind(e.kind)),
          lastSequence := Max(item.lastSequence, e.sequence))
  }

  function NextApproval(e: Event, id: string): Approval {
    Approval(id, e.runId, FieldString(e.payload, "scope").GetOr("unknown"),
             FieldString(e.payload, "state").GetOr("pending"), e.sequence)
  }

  function NextSteering(e: Event, id: string): Steering {
    Steering(id, e.runId, FieldString(e.payload, "message").GetOr(""), FieldString(e.payload, "target_id"), e.sequence)
  }

  function Get<T>(m: map<string, T>, key: string): Option<T> {
    if key in m then Some(m[key]) else None
  }

  function Apply(m: Maps, e: Event): Maps {
    Maps(
      m.runMap[e.runId := NextRun(Get(m.runMap, e.runId), e)],
      match ItemId(e)
        case Some(id) => m.queueMap[id := NextItem(Get(m.queueMap, id), e, id)]
        case None => m.queueMap,
      match ApprovalId(e)
        case Some(id) => m.approvalMap[id := NextApproval(e, id)]
        case None => m.approvalMap,
      match SteeringId(e)
        case Some(id) => m.steeringMap[id := NextSteering(e, id)]
        case None => m.steeringMap)
  }

  function ApplyAll(m: Maps, es: seq<Event>): Maps {
    if es == [] then m else Apply(ApplyAll(m, es[..|es| - 1]), es[|es| - 1])
  }

  lemma {:induction false} ApplyAllAppend(m: Maps, a: seq<Event>, b: seq<Event>)
    ensures ApplyAll(m, a + b) == ApplyAll(ApplyAll(m, a), b)
    decreases |b|
  {
    if b == [] {
      assert a + b == a;
    } else {
      assert (a + b)[..|a + b| - 1] == a + b[..|b| - 1];
      ApplyAllAppend(m, a, b[..|b| - 1]);
    }
  }

  // ---- Each key depends only on its own events ----------------------------------------------------

  /** The entry an event addresses in one of the four maps. */
  datatype Key = RunKey(id: string) | ItemKey(id: string) | ApprovalKey(id: string) | SteeringKey(id: string)

  predicate Addresses(e: Event, key: Key) {
    match key
    case RunKey(id) => e.runId == id
    case ItemKey(id) => ItemId(e) == Some(id)
    case ApprovalKey(id) => ApprovalId(e) == Some(id)
    case SteeringKey(id) => SteeringId(e) == Some(id)
  }

  function Select(es: seq<Event>, key: Key): seq<Event> {
    if es == [] then []
    else
      Select(es[..|es| - 1], key) + if Addresses(es[|es| - 1], key) then [es[|es| - 1]] else []
  }

  /** Two map states hold the same entry under `key`. */
  predicate SameEntry(a: Maps, b: Maps, key: Key) {
    match key
    case RunKey(id) => Get(a.runMap, id) == Get(b.runMap, id)
    case ItemKey(id) => Get(a.queueMap, id) == Get(b.queueMap, id)
    case ApprovalKey(id) => Get(a.approvalMap, id) == Get(b.approvalMap, id)
    case SteeringKey(id) => Get(a.steeringMap, id) == Get(b.steeringMap, id)
  }

  lemma SameEntriesSameMaps(a: Maps, b: Maps)
    requires forall key :: SameEntry(a, b, key)
    ensures a == b
  {
    forall id
      ensures Get(a.runMap, id) == Get(b.runMap, id) && Get(a.queueMap, id) == Get(b.queueMap, id)
      ensures Get(a.approvalMap, id) == Get(b.approvalMap, id) && Get(a.steeringMap, id) == Get(b.steeringMap, id)
    {
      assert SameEntry(a, b, RunKey(id)) && SameEntry(a, b, ItemKey(id));
      assert SameEntry(a, b, ApprovalKey(id)) && SameEntry(a, b, SteeringKey(id));
    }
    SameGets(a.runMap, b.runMap);
    SameGets(a.queueMap, b.queueMap);
    SameGets(a.approvalMap, b.approvalMap);
    SameGets(a.steeringMap, b.steeringMap);
  }

  lemma SameGets<T>(a: map<string, T>, b: map<string, T>)
    requires forall id :: Get(a, id) == Get(b, id)
    ensures a == b
  {
    assert forall id :: id in a <==> Get(a, id).Some?;
    assert forall id :: id in b <==> Get(b, id).Some?;
    assert forall id :: id in a ==> Get(a, id) == Some(a[id]) && Get(b, id) == Some(b[id]);
  }

  lemma ApplyIsLocal(a: Maps, b: Maps, e: Event, key: Key)
    requires SameEntry(a, b, key)
    ensures SameEntry(Apply(a, e), Apply(b, e), key)
    ensures !Addresses(e, key) ==> SameEntry(Apply(a, e), a, key)
  {
  }

  /** Under one key, a whole history amounts to the events that address the key. */
  lemma {:induction false} OnlyOwnEventsMatter(m: Maps, es: seq<Event>, key: Key)
    ensures SameEntry(ApplyAll(m, es), ApplyAll(m, Select(es, key)), key)
  {
    if es != [] {
      var before, e := es[..|es| - 1], es[|es| - 1];
      OnlyOwnEventsMatter(m, before, key);
      var own := Select(before, key);
      ApplyIsLocal(ApplyAll(m, before), ApplyAll(m, own), e, key);
      if Addresses(e, key) {
        assert (own + [e])[..|own|] == own;
      } else {
        assert own + [] == own;
      }
    }
  }

  // ---- Live application agrees with replay ---------------------------------------------------------

  /** Each run's events appear in strictly increasing sequence order; runs may interleave freely. */
  ghost predicate InRunOrder(es: seq<Event>) {
    forall i, j :: 0 <= i < j < |es| && es[i].runId == es[j].runId ==> es[i].sequence < es[j].sequence
  }

  /** The comparator `rebuild` sorts by. */
  predicate Precedes(a: Event, b: Event) {
    if a.runId == b.runId then a.sequence < b.sequence else StringOrder.Less(a.runId, b.runId)
  }

  ghost predicate Sorted(es: seq<Event>) {
    forall i, j :: 0 <= i < j < |es| ==> !Precedes(es[j], es[i])
  }

  /** Work items, approvals and steering messages each belong to one run. */
  ghost predicate OneRunPerKey(es: seq<Event>) {
    forall a, b, key :: a in es && b in es && Addresses(a, key) && Addresses(b, key) ==> a.runId == b.runId
  }

  lemma {:induction false} SelectMembers(es: seq<Event>, key: Key)
    ensures forall e :: e in Select(es, key) <==> e in es && Addresses(e, key)
  {
    if es != [] {
      SelectMembers(es[..|es| - 1], key);
      assert es == es[..|es| - 1] + [es[|es| - 1]];
    }
  }

  lemma {:induction false} SelectCounts(es: seq<Event>, key: Key, e: Event)
    ensures multiset(Select(es, key))[e] == if Addresses(e, key) then multiset(es)[e] else 0
  {
    if es != [] {
      SelectCounts(es[..|es| - 1], key, e);
      assert es == es[..|es| - 1] + [es[|es| - 1]];
    }
  }

  /** Selecting the events of one run keeps their relative order. */
  lemma {:induction false} SelectStrict(es: seq<Event>, run: string)
    requires InRunOrder(es)
    ensures forall i, j :: 0 <= i < j < |Select(es, RunKey(run))| ==>
                             Select(es, RunKey(run))[i].sequence < Select(es, RunKey(run))[j].sequence
  {
    if es != [] {
      var before, last := es[..|es| - 1], es[|es| - 1];
      SelectStrict(before, run);
      SelectMembers(before, RunKey(run));
      var own := Select(before, RunKey(run));
      forall i | 0 <= i < |own| && last.runId == run
        ensures own[i].sequence < last.sequence
      {
        assert own[i] in own;
        var k :| 0 <= k < |before| && before[k] == own[i];
      }
    }
  }

  lemma {:induction false} SelectWeak(es: seq<Event>, run: string)
    requires Sorted(es)
    ensures forall i, j :: 0 <= i < j < |Select(es, RunKey(run))| ==>
                             Select(es, RunKey(run))[i].sequence <= Select(es, RunKey(run))[j].sequence
  {
    if es != [] {
      var before, last := es[..|es| - 1], es[|es| - 1];
      SelectWeak(before, run);
      SelectMembers(before, RunKey(run));
      var own := Select(before, RunKey(run));
      forall i | 0 <= i < |own| && last.runId == run
        ensures own[i].sequence <= last.sequence
      {
        assert own[i] in own;
        var k :| 0 <= k < |before| && before[k] == own[i];
        assert !Precedes(es[|es| - 1], es[k]);
      }
    }
  }

  lemma HeadsAgree(a: seq<Event>, b: seq<Event>)
    requires a != [] && b != [] && multiset(a) == multiset(b)
    requires forall i, j :: 0 <= i < j < |a| ==> a[i].sequence < a[j].sequence
    requires forall i, j :: 0 <= i < j < |b| ==> b[i].sequence <= b[j].sequence
    ensures a[0] == b[0]
  {
    assert a[0] in multiset(b) && b[0] in multiset(a);
    var k :| 0 <= k < |a| && a[k] == b[0];
    var l :| 0 <= l < |b| && b[l] == a[0];
  }

  /** A strictly and a weakly increasing arrangement of the same events are the same arrangement. */
  lemma {:induction false} SortedArrangementIsUnique(a: seq<Event>, b: seq<Event>)
    requires multiset(a) == multiset(b)
    requires forall i, j :: 0 <= i < j < |a| ==> a[i].sequence < a[j].sequence
    requires forall i, j :: 0 <= i < j < |b| ==> b[i].sequence <= b[j].sequence
    ensures a == b
    decreases |a|
  {
    Permutations.SameLength(a, b);
    if a != [] {
      HeadsAgree(a, b);
      Permutations.SameTails(a, b);
      SortedArrangementIsUnique(a[1..], b[1..]);
      assert a == [a[0]] + a[1..] && b == [b[0]] + b[1..];
    }
  }

  lemma SameRunHistory(live: seq<Event>, sorted: seq<Event>, run: string)
    requires InRunOrder(live) && Sorted(sorted) && multiset(live) == multiset(sorted)
    ensures Select(live, RunKey(run)) == Select(sorted, RunKey(run))
  {
    var a, b := Select(live, RunKey(run)), Select(sorted, RunKey(run));
    forall e
      ensures multiset(a)[e] == multiset(b)[e]
    {
      SelectCounts(live, RunKey(run), e);
      SelectCounts(sorted, RunKey(run), e);
    }
    SelectStrict(live, run);
    SelectWeak(sorted, run);
    SortedArrangementIsUnique(a, b);
  }

  /** When only one run addresses a key, its events can be selected by run first. */
  lemma {:induction false} SelectThroughRun(es: seq<Event>, key: Key, run: string)
    requires forall e :: e in es && Addresses(e, key) ==> e.runId == run
    ensures Select(es, key) == Select(Select(es, RunKey(run)), key)
  {
    if es != [] {
      var before, last := es[..|es| - 1], es[|es| - 1];
      assert es == before + [last];
      SelectThroughRun(before, key, run);
      var ofRun := Select(before, RunKey(run));
      if last.runId == run {
        assert (ofRun + [last])[..|ofRun|] == ofRun;
      } else {
        assert ofRun + [] == ofRun;
      }
    }
  }

  lemma SameKeyHistory(live: seq<Event>, sorted: seq<Event>, key: Key)
    requires InRunOrder(live) && Sorted(sorted) && multiset(live) == multiset(sorted)
    requires OneRunPerKey(live)
    ensures Select(live, key) == Select(sorted, key)
  {
    SelectMembers(live, key);
    SelectMembers(sorted, key);
    forall e
      ensures e in sorted <==> e in live
    {
      assert e in multiset(sorted) <==> e in multiset(live);
    }
    var a, b := Select(live, key), Select(sorted, key);
    assert (a == [] || a[0] in a) && (b == [] || b[0] in b);
    if exists e :: e in live && Addresses(e, key) {
      var e :| e in live && Addresses(e, key);
      SelectThroughRun(live, key, e.runId);
      SelectThroughRun(sorted, key, e.runId);
      SameRunHistory(live, sorted, e.runId);
    }
  }

  /**
   Events applied as they arrive, in any interleaving of the runs, give the same four maps as
   sorting all of them and replaying, from any common starting point.
   */
  lemma LiveEqualsReplay(m: Maps, live: seq<Event>, sorted: seq<Event>)
    requires InRunOrder(live) && OneRunPerKey(live)
    requires Sorted(sorted) && multiset(sorted) == multiset(live)
    ensures ApplyAll(m, live) == ApplyAll(m, sorted)
  {
    forall key
      ensures SameEntry(ApplyAll(m, live), ApplyAll(m, sorted), key)
    {
      OnlyOwnEventsMatter(m, live, key);
      OnlyOwnEventsMatter(m, sorted, key);
      SameKeyHistory(live, sorted, key);
    }
    SameEntriesSameMaps(ApplyAll(m, live), ApplyAll(m, sorted));
  }
}
