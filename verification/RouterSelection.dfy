/**
 The owner selection as the Swift code writes it: filter, sort and scan the dictionary's values in
 whatever order the dictionary yields them.  The result is `Owner`, so that order never shows.
 */
module RouterSelection {
  import opened Options
  import opened RouterState

  function SameRun(values: seq<Response>, run: Id): (r: seq<Response>)
    ensures forall v :: v in r <==> v in values && InRun(v, run)
  {
    if values == [] then []
    else (if InRun(values[0], run) then [values[0]] else []) + SameRun(values[1..], run)
  }

  function Accepted(values: seq<Response>): (r: seq<Response>)
    ensures forall v :: v in r <==> v in values && v.sawRequestEvent
  {
    if values == [] then []
    else (if values[0].sawRequestEvent then [values[0]] else []) + Accepted(values[1..])
  }

  ghost predicate Sorted(values: seq<Response>) {
    forall i, j :: 0 <= i < j < |values| ==> values[i].registeredAt <= values[j].registeredAt
  }

  function Insert(v: Response, sorted: seq<Response>): (r: seq<Response>)
    requires Sorted(sorted)
    ensures Sorted(r) && (forall x :: x in r <==> x == v || x in sorted)
  {
    if sorted == [] || v.registeredAt <= sorted[0].registeredAt then [v] + sorted
    else
      var tail := Insert(v, sorted[1..]);
      assert forall i :: 0 <= i < |tail| ==> tail[i] in tail && (tail[i] == v || tail[i] in sorted[1..]);
      [sorted[0]] + tail
  }

  function SortByRegistration(values: seq<Response>): (r: seq<Response>)
    ensures Sorted(r) && (forall v :: v in r <==> v in values)
  {
    if values == [] then [] else Insert(values[0], SortByRegistration(values[1..]))
  }

  /** The comparator of `max(by:)`: older line first, older registration first on a tie. */
  predicate LessRecent(left: Response, right: Response) {
    if left.lastLineOrder == right.lastLineOrder
    then left.registeredAt < right.registeredAt
    else left.lastLineOrder < right.lastLineOrder
  }

  function MostRecent(values: seq<Response>): (r: Option<Response>)
    ensures r.None? <==> values == []
    ensures r.Some? ==> r.value in values && forall v :: v in values ==> !LessRecent(r.value, v)
    decreases |values|
  {
    if values == [] then None
    else
      var last := values[|values| - 1];
      var before := MostRecent(values[..|values| - 1]);
      assert values == values[..|values| - 1] + [last];
      if before.None? || LessRecent(before.value, last) then Some(last) else before
  }

  function FirstRunStart(values: seq<Response>): (r: Option<Response>)
    requires Sorted(values)
    ensures r.None? <==> forall v :: v in values ==> v.kind != RUN_START
    ensures r.Some? ==> r.value in values && r.value.kind == RUN_START
                        && forall v :: v in values && v.kind == RUN_START ==> r.value.registeredAt <= v.registeredAt
  {
    if values == [] then None
    else if values[0].kind == RUN_START then Some(values[0])
    else
      assert forall v :: v in values[1..] ==> v in values;
      FirstRunStart(values[1..])
  }

  function First(values: seq<Response>): Option<Response> {
    if values == [] then None else Some(values[0])
  }

  function Pick(sameRun: seq<Response>): Option<Response>
    requires Sorted(sameRun)
  {
    OrElse(MostRecent(Accepted(sameRun)), OrElse(FirstRunStart(sameRun), First(sameRun)))
  }

  /** The selection of `matchedPendingIds` over one enumeration of the dictionary. */
  function Select(values: seq<Response>, run: Id): Option<Id> {
    var owner := Pick(SortByRegistration(SameRun(values, run)));
    if owner.Some? then Some(owner.value.requestId) else None
  }

  /** `values` lists the dictionary in some order. */
  ghost predicate Enumerates(values: seq<Response>, pending: map<Id, Response>) {
    && (forall id :: id in pending ==> pending[id] in values)
    && (forall v :: v in values ==> v.requestId in pending && pending[v.requestId] == v)
  }

  /** `sameRun` lists the pending responses of the run. */
  ghost predicate ListsRun(sameRun: seq<Response>, pending: map<Id, Response>, run: Id) {
    && (forall id :: id in pending && InRun(pending[id], run) ==> pending[id] in sameRun)
    && (forall v :: v in sameRun ==> InRun(v, run) && v.requestId in pending && pending[v.requestId] == v)
  }

  lemma PickIsOwner(pending: map<Id, Response>, sameRun: seq<Response>, run: Id)
    requires ListsRun(sameRun, pending, run) && Sorted(sameRun) && sameRun != []
    ensures Pick(sameRun).Some? && IsOwner(pending, run, Pick(sameRun).value.requestId)
  {
    var accepted := Accepted(sameRun);
    assert sameRun[0] in sameRun && (accepted == [] || accepted[0] in accepted);
    if SomeAccepted(pending, run) {
      var id :| id in pending && InRun(pending[id], run) && pending[id].sawRequestEvent;
      assert pending[id] in accepted;
    }
  }

  lemma SelectedIsOwner(st: State, values: seq<Response>, run: Id)
    requires Inv(st) && Enumerates(values, st.pending)
    requires exists id :: id in st.pending && InRun(st.pending[id], run)
    ensures Select(values, run).Some? && IsOwner(st.pending, run, Select(values, run).value)
  {
    var sameRun := SortByRegistration(SameRun(values, run));
    var id :| id in st.pending && InRun(st.pending[id], run);
    assert st.pending[id] in sameRun;
    PickIsOwner(st.pending, sameRun, run);
  }

  /** Whatever order the dictionary enumerates in, the selected owner is the same. */
  lemma SelectionIgnoresDictionaryOrder(st: State, values: seq<Response>, run: Id)
    requires Inv(st) && Enumerates(values, st.pending)
    ensures Select(values, run) == Owner(st.pending, run)
  {
    if exists id :: id in st.pending && InRun(st.pending[id], run) {
      SelectedIsOwner(st, values, run);
      OwnerIsUnique(st, run, Select(values, run).value, Owner(st.pending, run).value);
    } else {
      assert SortByRegistration(SameRun(values, run)) == [];
    }
  }

  /** The equal-recency arm of the comparator is dead: accepted responses never tie. */
  lemma RecencyNeverTies(st: State, values: seq<Response>, run: Id, a: Response, b: Response)
    requires Inv(st) && Enumerates(values, st.pending)
    requires a in Accepted(SameRun(values, run)) && b in Accepted(SameRun(values, run)) && a != b
    ensures a.lastLineOrder != b.lastLineOrder
  {
    assert NumberedApart(st.pending, a.requestId, b.requestId);
  }
}
