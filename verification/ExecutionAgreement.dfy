/**
 Exactly when live application agrees with replay.

 If two runs share a work item, approval or steering id, then moving one run to the front or to the
 back of the live order changes which run the shared entry belongs to, so some order disagrees.
 */
module ExecutionAgreement {
  import opened Options
  import opened ExecutionProjection
  import opened ExecutionReplay
  import StringOrder

  // ---- The run an entry belongs to ------------------------------------------------------------------

  /** The run recorded in the entry under `key`. */
  function OwnerOf(m: Maps, key: Key): Option<string> {
    match key
    case RunKey(id) => if id in m.runMap then Some(m.runMap[id].id) else None
    case ItemKey(id) => if id in m.queueMap then Some(m.queueMap[id].runId) else None
    case ApprovalKey(id) => if id in m.approvalMap then Some(m.approvalMap[id].runId) else None
    case SteeringKey(id) => if id in m.steeringMap then Some(m.steeringMap[id].runId) else None
  }

  /** Whether the last event of a key decides whose entry it is, rather than the first. */
  predicate LastDecides(key: Key) { key.ApprovalKey? || key.SteeringKey? }

  function Deciding(own: seq<Event>, key: Key): Event
    requires own != []
  {
    if LastDecides(key) then own[|own| - 1] else own[0]
  }

  /** An item belongs to the run that named it first, an approval or steering id to the one that did last. */
  lemma OwnerAfter(es: seq<Event>, key: Key)
    requires es != [] && AllAddress(es, key)
    ensures OwnerOf(ApplyAll(EMPTY, es), key) == Some(Deciding(es, key).runId)
  {
    assert es[0] in es;
    match key
    case RunKey(id) => RunAfter(EMPTY, es, id);
    case ItemKey(id) => ItemAfter(EMPTY, es, id);
    case ApprovalKey(id) => LastApprovalWins(EMPTY, es, id);
    case SteeringKey(id) => LastSteeringWins(EMPTY, es, id);
  }

  lemma OwnerIsFromOwnEvents(es: seq<Event>, key: Key)
    requires Select(es, key) != []
    ensures OwnerOf(ApplyAll(EMPTY, es), key) == Some(Deciding(Select(es, key), key).runId)
  {
    SelectMembers(es, key);
    OnlyOwnEventsMatter(EMPTY, es, key);
    OwnerAfter(Select(es, key), key);
  }

  // ---- Moving one run to either end -------------------------------------------------------------------

  function OtherRuns(es: seq<Event>, run: string): seq<Event> {
    if es == [] then []
    else if es[|es| - 1].runId == run then OtherRuns(es[..|es| - 1], run)
    else OtherRuns(es[..|es| - 1], run) + [es[|es| - 1]]
  }

  function OfRun(es: seq<Event>, run: string): seq<Event> { Select(es, RunKey(run)) }

  /** The run's own events all first, or all last; every other order is kept. */
  function Moved(es: seq<Event>, run: string, first: bool): seq<Event> {
    if first then OfRun(es, run) + OtherRuns(es, run) else OtherRuns(es, run) + OfRun(es, run)
  }

  lemma {:induction false} OtherRunsKeepOrder(es: seq<Event>, run: string)
    ensures forall e :: e in OtherRuns(es, run) <==> e in es && e.runId != run
    ensures InRunOrder(es) ==> InRunOrder(OtherRuns(es, run))
  {
    if es != [] {
      var before, last := es[..|es| - 1], es[|es| - 1];
      assert es == before + [last];
      OtherRunsKeepOrder(before, run);
      var others := OtherRuns(before, run);
      if InRunOrder(es) {
        forall i | 0 <= i < |others| && others[i].runId == last.runId
          ensures others[i].sequence < last.sequence
        {
          assert others[i] in others;
          var k :| 0 <= k < |before| && before[k] == others[i];
        }
      }
    }
  }

  lemma {:induction false} RunsSplit(es: seq<Event>, run: string)
    ensures multiset(OfRun(es, run)) + multiset(OtherRuns(es, run)) == multiset(es)
  {
    if es != [] {
      RunsSplit(es[..|es| - 1], run);
      assert es == es[..|es| - 1] + [es[|es| - 1]];
    }
  }

  lemma ConcatInRunOrder(a: seq<Event>, b: seq<Event>)
    requires InRunOrder(a) && InRunOrder(b)
    requires forall x, y :: x in a && y in b ==> x.runId != y.runId
    ensures InRunOrder(a + b)
  {
    forall i, j | 0 <= i < |a| && 0 <= j < |b|
      ensures a[i].runId != b[j].runId
    {
      assert a[i] in a && b[j] in b;
    }
  }

  lemma MovedIsALiveOrder(es: seq<Event>, run: string, first: bool)
    requires InRunOrder(es)
    ensures IsLiveOrder(Moved(es, run, first), es)
  {
    var own, others := OfRun(es, run), OtherRuns(es, run);
    RunsSplit(es, run);
    OtherRunsKeepOrder(es, run);
    SelectMembers(es, RunKey(run));
    SelectStrict(es, run);
    assert InRunOrder(own);
    if first {
      ConcatInRunOrder(own, others);
    } else {
      ConcatInRunOrder(others, own);
    }
  }

  lemma {:induction false} SelectAppend(a: seq<Event>, b: seq<Event>, key: Key)
    ensures Select(a + b, key) == Select(a, key) + Select(b, key)
    decreases |b|
  {
    if b == [] {
      assert a + b == a;
    } else {
      assert (a + b)[..|a + b| - 1] == a + b[..|b| - 1];
      SelectAppend(a, b[..|b| - 1], key);
    }
  }

  lemma MovedDeciding(es: seq<Event>, run: string, key: Key)
    requires Select(OfRun(es, run), key) != []
    ensures Select(Moved(es, run, !LastDecides(key)), key) != []
    ensures Deciding(Select(Moved(es, run, !LastDecides(key)), key), key) == Deciding(Select(OfRun(es, run), key), key)
  {
    SelectAppend(OfRun(es, run), OtherRuns(es, run), key);
    SelectAppend(OtherRuns(es, run), OfRun(es, run), key);
  }

  /** Moved to the deciding end, a run owns every entry one of its events addresses. */
  lemma MovedRunOwns(es: seq<Event>, e: Event, key: Key)
    requires e in es && Addresses(e, key)
    ensures OwnerOf(ApplyAll(EMPTY, Moved(es, e.runId, !LastDecides(key))), key) == Some(e.runId)
  {
    var own := OfRun(es, e.runId);
    SelectMembers(es, RunKey(e.runId));
    SelectMembers(own, key);
    assert e in Select(own, key);
    assert Deciding(Select(own, key), key) in Select(own, key);
    MovedDeciding(es, e.runId, key);
    OwnerIsFromOwnEvents(Moved(es, e.runId, !LastDecides(key)), key);
  }

  // ---- The exact condition ------------------------------------------------------------------------------

  /** `live` delivers the same events, each run's in sequence order. */
  ghost predicate IsLiveOrder(live: seq<Event>, es: seq<Event>) {
    multiset(live) == multiset(es) && InRunOrder(live)
  }

  ghost predicate EveryLiveOrderAgrees(es: seq<Event>) {
    forall live :: IsLiveOrder(live, es) ==> ApplyAll(EMPTY, live) == ApplyAll(EMPTY, es)
  }

  lemma SharedKeyDisagrees(es: seq<Event>, a: Event, b: Event, key: Key)
    requires InRunOrder(es) && a in es && b in es && a.runId != b.runId
    requires Addresses(a, key) && Addresses(b, key)
    ensures !EveryLiveOrderAgrees(es)
  {
    var first := !LastDecides(key);
    MovedRunOwns(es, a, key);
    MovedRunOwns(es, b, key);
    MovedIsALiveOrder(es, a.runId, first);
    MovedIsALiveOrder(es, b.runId, first);
    assert ApplyAll(EMPTY, Moved(es, a.runId, first)) != ApplyAll(EMPTY, Moved(es, b.runId, first));
  }

  lemma OneRunPerKeySuffices(es: seq<Event>)
    requires InRunOrder(es) && Sorted(es) && OneRunPerKey(es)
    ensures EveryLiveOrderAgrees(es)
  {
    forall live | IsLiveOrder(live, es)
      ensures ApplyAll(EMPTY, live) == ApplyAll(EMPTY, es)
    {
      forall e ensures e in live <==> e in es {
        assert e in multiset(live) <==> e in multiset(es);
      }
      LiveEqualsReplay(EMPTY, live, es);
    }
  }

  /**
   The replayed events agree with every live order of the same events exactly when every work item,
   approval and steering id belongs to one run.
   */
  lemma AgreesIffOneRunPerKey(es: seq<Event>)
    requires InRunOrder(es) && Sorted(es)
    ensures EveryLiveOrderAgrees(es) <==> OneRunPerKey(es)
  {
    if OneRunPerKey(es) {
      OneRunPerKeySuffices(es);
    } else {
      var a, b, key :| a in es && b in es && Addresses(a, key) && Addresses(b, key) && a.runId != b.runId;
      SharedKeyDisagrees(es, a, b, key);
    }
  }

  /** The smallest disagreement: two runs naming one id, arriving against the order of the run ids. */
  lemma SharedKeyBreaksReplay(a: Event, b: Event, key: Key)
    requires StringOrder.Less(a.runId, b.runId) && Addresses(a, key) && Addresses(b, key)
    ensures InRunOrder([b, a]) && Sorted([a, b]) && multiset([b, a]) == multiset([a, b])
    ensures ApplyAll(EMPTY, [b, a]) != ApplyAll(EMPTY, [a, b])
  {
    if StringOrder.AtMost(b.runId, a.runId) {
      StringOrder.Antisymmetric(a.runId, b.runId);
    }
    OwnerAfter([a, b], key);
    OwnerAfter([b, a], key);
  }
}
