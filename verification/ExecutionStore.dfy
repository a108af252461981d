/** The Swift store: the four maps updated in place, and the run list published from them. */
module ExecutionStore {
  import opened Options
  import StringOrder
  import opened ExecutionProjection
  import opened ExecutionReplay

  /** Sorted with the most recent first; equal sequences may come in either order. */
  ghost predicate Descending<T(!new)>(s: seq<T>, recency: T -> nat) {
    forall i, j :: 0 <= i < j < |s| ==> recency(s[i]) >= recency(s[j])
  }

  /** `map.values.sorted { $0 > $1 }` */
  method SortedByRecency<T(!new)>(m: map<string, T>, recency: T -> nat) returns (s: seq<T>)
    ensures Descending(s, recency) && |s| == |m|
    ensures forall v :: v in s <==> exists id :: id in m && m[id] == v
  {
    s := [];
    var todo := m.Keys;
    while todo != {}
      invariant todo <= m.Keys && |s| + |todo| == |m.Keys|
      invariant Descending(s, recency)
      invariant forall v :: v in s <==> exists id :: id in m && id !in todo && m[id] == v
      decreases todo
    {
      var id :| id in todo;
      ghost var before, wasTodo := s, todo;
      todo := todo - {id};
      s := InsertByRecency(s, m[id], recency);
      forall v
        ensures v in s <==> exists k :: k in m && k !in todo && m[k] == v
      {
        if v in before {
          var k :| k in m && k !in wasTodo && m[k] == v;
        }
      }
    }
  }

  function InsertByRecency<T(!new)>(s: seq<T>, v: T, recency: T -> nat): (r: seq<T>)
    requires Descending(s, recency)
    ensures Descending(r, recency) && |r| == |s| + 1
    ensures forall x :: x in r <==> x == v || x in s
  {
    if s == [] || recency(s[0]) <= recency(v) then [v] + s
    else
      var tail := InsertByRecency(s[1..], v, recency);
      assert forall i :: 0 <= i < |tail| ==> tail[i] in tail && (tail[i] == v || tail[i] in s[1..]);
      [s[0]] + tail
  }

  /** The maps are those of applying the events live, in any order that keeps the order within each run. */
  ghost predicate ReplaysEveryLiveOrder(m: Maps, events: seq<Event>) {
    forall live :: multiset(live) == multiset(events) && InRunOrder(live) && OneRunPerKey(live) ==>
      m == ApplyAll(EMPTY, live)
  }

  lemma SortedReplayCovers(events: seq<Event>, sorted: seq<Event>)
    requires multiset(sorted) == multiset(events) && Sorted(sorted)
    ensures ReplaysEveryLiveOrder(ApplyAll(EMPTY, sorted), events)
  {
    forall live | multiset(live) == multiset(events) && InRunOrder(live) && OneRunPerKey(live)
      ensures ApplyAll(EMPTY, sorted) == ApplyAll(EMPTY, live)
    {
      LiveEqualsReplay(EMPTY, live, sorted);
    }
  }

  class Store {
    var runMap: map<string, RunRecord>
    var queueMap: map<string, QueueItem>
    var approvalMap: map<string, Approval>
    var steeringMap: map<string, Steering>
    var runs: seq<RunRecord>
    /** Everything applied since the store was created or last rebuilt. */
    ghost var history: seq<Event>

    ghost function Contents(): Maps
      reads this
    {
      Maps(runMap, queueMap, approvalMap, steeringMap)
    }

    ghost predicate MapsFollowHistory()
      reads this
    {
      Contents() == ApplyAll(EMPTY, history)
    }

    ghost predicate Valid()
      reads this
    {
      MapsFollowHistory() && forall v :: v in runs <==> exists id :: id in runMap && runMap[id] == v
    }

    constructor ()
      ensures Valid() && Contents() == EMPTY && history == []
    {
      runMap, queueMap, approvalMap, steeringMap := map[], map[], map[], map[];
      runs, history := [], [];
    }

    method Apply(event: Event)
      requires MapsFollowHistory()
      modifies this
      ensures Valid() && history == old(history) + [event]
      ensures Contents() == ExecutionProjection.Apply(old(Contents()), event)
      ensures |runs| == |runMap| && Descending(runs, (r: RunRecord) => r.lastSequence)
    {
      ApplyAllAppend(EMPTY, history, [event]);
      assert [event][..0] == [];
      assert ApplyAll(ApplyAll(EMPTY, history), [event]) == ExecutionProjection.Apply(ApplyAll(EMPTY, history), event);
      ApplyToMaps(event);
      history := history + [event];
      Publish();
    }

    method Publish()
      requires MapsFollowHistory()
      modifies this`runs
      ensures Valid() && |runs| == |runMap| && Descending(runs, (r: RunRecord) => r.lastSequence)
    {
      runs := SortedByRecency(runMap, (r: RunRecord) => r.lastSequence);
    }

    method ApplyToMaps(event: Event)
      modifies this`runMap, this`queueMap, this`approvalMap, this`steeringMap
      ensures Contents() == ExecutionProjection.Apply(old(Contents()), event)
    {
      runMap := runMap[event.runId := NextRun(Get(runMap, event.runId), event)];
      match ItemId(event) {
        case Some(id) => queueMap := queueMap[id := NextItem(Get(queueMap, id), event, id)];
        case None =>
      }
      match ApprovalId(event) {
        case Some(id) => approvalMap := approvalMap[id := NextApproval(event, id)];
        case None =>
      }
      match SteeringId(event) {
        case Some(id) => steeringMap := steeringMap[id := NextSteering(event, id)];
        case None =>
      }
    }

    /** Afterwards the maps are those of any live application of the same events in run order. */
    method Rebuild(events: seq<Event>)
      modifies this
      ensures Valid() && multiset(history) == multiset(events) && Sorted(history)
      ensures ReplaysEveryLiveOrder(Contents(), events)
    {
      var sorted := SortEvents(events);
      Clear();
      var i := 0;
      while i < |sorted|
        invariant 0 <= i <= |sorted| && MapsFollowHistory() && history == sorted[..i]
      {
        Apply(sorted[i]);
        i := i + 1;
      }
      assert sorted[..|sorted|] == sorted;
      Publish();
      SortedReplayCovers(events, sorted);
    }

    method Clear()
      modifies this`runMap, this`queueMap, this`approvalMap, this`steeringMap, this`history
      ensures MapsFollowHistory() && history == []
    {
      runMap, queueMap, approvalMap, steeringMap := map[], map[], map[], map[];
      history := [];
    }

    method LatestSequence(runId: string) returns (sequence: nat)
      requires Valid()
      ensures forall e :: e in history && e.runId == runId ==> e.sequence <= sequence
      ensures if exists e :: e in history && e.runId == runId
              then exists e :: e in history && e.runId == runId && e.sequence == sequence
              else sequence == 0
    {
      LatestSequenceIsGreatest(history, runId);
      if runId in runMap {
        return runMap[runId].lastSequence;
      }
      var i := 0;
      while i < |runs|
        invariant 0 <= i <= |runs|
        invariant forall j :: 0 <= j < i ==> runs[j].id != runId
      {
        if runs[i].id == runId {
          var r := runs[i];
          assert r in runs;
          var id :| id in runMap && runMap[id] == r;
          RecordsCarryTheirKey(history, id);
          return r.lastSequence;
        }
        i := i + 1;
      }
      return 0;
    }
  }

  lemma RecordsCarryTheirKey(es: seq<Event>, run: string)
    requires run in ApplyAll(EMPTY, es).runMap
    ensures ApplyAll(EMPTY, es).runMap[run].id == run
  {
    var own := Select(es, RunKey(run));
    SelectMembers(es, RunKey(run));
    OnlyOwnEventsMatter(EMPTY, es, RunKey(run));
    if own != [] {
      RunAfter(EMPTY, own, run);
    }
  }

  predicate InOrder(a: Event, b: Event) {
    !Precedes(b, a)
  }

  lemma InOrderTransitive(a: Event, b: Event, c: Event)
    requires InOrder(a, b) && InOrder(b, c)
    ensures InOrder(a, c)
  {
    StringOrder.Total(a.runId, b.runId);
    StringOrder.Total(b.runId, c.runId);
    StringOrder.Total(a.runId, c.runId);
    if a.runId != b.runId || b.runId != c.runId {
      StringOrder.Transitive(a.runId, b.runId, c.runId);
      if StringOrder.AtMost(c.runId, a.runId) {
        StringOrder.Antisymmetric(a.runId, c.runId);
        StringOrder.Antisymmetric(a.runId, b.runId);
      }
    }
  }

  lemma InOrderTotal(a: Event, b: Event)
    ensures InOrder(a, b) || InOrder(b, a)
  {
    if StringOrder.AtMost(a.runId, b.runId) && StringOrder.AtMost(b.runId, a.runId) {
      StringOrder.Antisymmetric(a.runId, b.runId);
    }
  }

  /** `sorted(by:)`; callers may rely only on the order and the contents. */
  method SortEvents(events: seq<Event>) returns (sorted: seq<Event>)
    ensures Sorted(sorted) && multiset(sorted) == multiset(events)
  {
    sorted := [];
    var i := 0;
    while i < |events|
      invariant 0 <= i <= |events|
      invariant Sorted(sorted) && multiset(sorted) == multiset(events[..i])
    {
      assert events[..i + 1] == events[..i] + [events[i]];
      sorted := InsertEvent(sorted, events[i]);
      i := i + 1;
    }
    assert events[..|events|] == events;
  }

  method InsertEvent(sorted: seq<Event>, e: Event) returns (r: seq<Event>)
    requires Sorted(sorted)
    ensures Sorted(r) && multiset(r) == multiset(sorted) + multiset{e}
  {
    var k := 0;
    while k < |sorted| && !Precedes(e, sorted[k])
      invariant 0 <= k <= |sorted|
      invariant forall i :: 0 <= i < k ==> InOrder(sorted[i], e)
    {
      k := k + 1;
    }
    forall j | k <= j < |sorted|
      ensures InOrder(e, sorted[j])
    {
      InOrderTotal(e, sorted[k]);
      if k < j {
        InOrderTransitive(e, sorted[k], sorted[j]);
      }
    }
    assert sorted == sorted[..k] + sorted[k..];
    r := sorted[..k] + [e] + sorted[k..];
  }
}
