/**
 `run_parallel`: packets are planned by concurrent workers, one arbiter sorts, refuses shared paths
 and applies the rest as one patch.  Workers push under a lock, so a chunk's pushes arrive in some
 permutation of the chunk; every result below holds for all of them.
 */
module ParallelPlan {
  import Permutations
  import StringOrder
  import opened PatchContract
  import opened LocalPlanning

  datatype Entry = Entry(id: string, write: PlannedWrite)
  datatype Failure = Failure(id: string, error: PlanError)
  datatype Count = Count(id: string, count: nat)

  datatype ParallelOutcome = ParallelOutcome(apply: ApplyResult, plannedPerPacket: seq<Count>, errors: seq<Failure>)

  datatype Result = Finished(outcome: ParallelOutcome) | MixedWorkspaces(packet: string) | WriterError(message: string)

  function Entries(files: Files, packets: seq<Packet>): seq<Entry> {
    if packets == [] then []
    else
      var earlier, p := Entries(files, packets[..|packets| - 1]), packets[|packets| - 1];
      if Plans(files, p) then earlier + [Entry(p.id, WriteOf(files, p))] else earlier
  }

  function Failures(files: Files, packets: seq<Packet>): seq<Failure> {
    if packets == [] then []
    else
      var earlier, p := Failures(files, packets[..|packets| - 1]), packets[|packets| - 1];
      if Fails(files, p) then earlier + [Failure(p.id, PlanLocalEdit(files, p.instruction.value).error)] else earlier
  }

  function Writes(entries: seq<Entry>): (r: seq<PlannedWrite>)
    ensures |r| == |entries| && forall i :: 0 <= i < |r| ==> r[i] == entries[i].write
  {
    seq(|entries|, i requires 0 <= i < |entries| => entries[i].write)
  }

  // ---- The arrival order is forgotten ---------------------------------------------------------------

  lemma {:induction false} EntriesAppend(files: Files, a: seq<Packet>, b: seq<Packet>)
    ensures Entries(files, a + b) == Entries(files, a) + Entries(files, b)
    ensures Failures(files, a + b) == Failures(files, a) + Failures(files, b)
    decreases |b|
  {
    if b == [] {
      assert a + b == a;
    } else {
      assert (a + b)[..|a + b| - 1] == a + b[..|b| - 1];
      EntriesAppend(files, a, b[..|b| - 1]);
    }
  }

  /** What one packet adds does not depend on where it stands. */
  lemma OneMorePacket(files: Files, x: seq<Packet>, p: Packet, y: seq<Packet>)
    ensures multiset(Entries(files, x + [p] + y)) == multiset(Entries(files, x + y)) + multiset(Entries(files, [p]))
    ensures multiset(Failures(files, x + [p] + y)) == multiset(Failures(files, x + y)) + multiset(Failures(files, [p]))
  {
    EntriesAppend(files, x + [p], y);
    EntriesAppend(files, x, [p]);
    EntriesAppend(files, x, y);
  }

  lemma {:induction false} ArrivalOrderIsForgotten(files: Files, a: seq<Packet>, b: seq<Packet>)
    requires multiset(a) == multiset(b)
    ensures multiset(Entries(files, a)) == multiset(Entries(files, b))
    ensures multiset(Failures(files, a)) == multiset(Failures(files, b))
    decreases |a|
  {
    Permutations.SameLength(a, b);
    if a != [] {
      var before, p := a[..|a| - 1], a[|a| - 1];
      var k := Permutations.MatchLast(a, b);
      ArrivalOrderIsForgotten(files, before, b[..k] + b[k + 1..]);
      OneMorePacket(files, before, p, []);
      assert before + [p] + [] == a && before + [] == before;
      OneMorePacket(files, b[..k], p, b[k + 1..]);
    }
  }

  // ---- Sorting by packet id ---------------------------------------------------------------------------

  ghost predicate SortedById(entries: seq<Entry>) {
    forall i, j :: 0 <= i < j < |entries| ==> StringOrder.AtMost(entries[i].id, entries[j].id)
  }

  ghost predicate DistinctIds(packets: seq<Packet>) {
    forall i, j :: 0 <= i < j < |packets| ==> packets[i].id != packets[j].id
  }

  ghost predicate DistinctEntryIds(entries: seq<Entry>) {
    forall i, j :: 0 <= i < j < |entries| ==> entries[i].id != entries[j].id
  }

  /** Behind every entry with an id that is not greater, so equal ids keep their order. */
  function Inserted(sorted: seq<Entry>, e: Entry): seq<Entry> {
    if sorted == [] || !StringOrder.AtMost(sorted[0].id, e.id) then [e] + sorted
    else [sorted[0]] + Inserted(sorted[1..], e)
  }

  /** `sort_by` on the packet id, which is stable. */
  function Sorted(entries: seq<Entry>): seq<Entry> {
    if entries == [] then [] else Inserted(Sorted(entries[..|entries| - 1]), entries[|entries| - 1])
  }

  lemma {:induction false} InsertedMembers(sorted: seq<Entry>, e: Entry)
    ensures multiset(Inserted(sorted, e)) == multiset(sorted) + multiset{e}
  {
    if sorted != [] {
      InsertedMembers(sorted[1..], e);
      assert sorted == [sorted[0]] + sorted[1..];
    }
  }

  predicate NoneBefore(first: Entry, entries: seq<Entry>) {
    forall x :: x in entries ==> StringOrder.AtMost(first.id, x.id)
  }

  lemma PrependedIsSorted(first: Entry, rest: seq<Entry>)
    requires SortedById(rest) && NoneBefore(first, rest)
    ensures SortedById([first] + rest)
  {
  }

  lemma FrontInsertion(sorted: seq<Entry>, e: Entry)
    requires sorted != [] && SortedById(sorted) && !StringOrder.AtMost(sorted[0].id, e.id)
    ensures NoneBefore(e, sorted)
  {
    StringOrder.Total(sorted[0].id, e.id);
    forall j | 0 < j < |sorted|
      ensures StringOrder.AtMost(e.id, sorted[j].id)
    {
      StringOrder.Transitive(e.id, sorted[0].id, sorted[j].id);
    }
  }

  lemma {:induction false} InsertedIsSorted(sorted: seq<Entry>, e: Entry)
    requires SortedById(sorted)
    ensures SortedById(Inserted(sorted, e))
  {
    if sorted != [] && StringOrder.AtMost(sorted[0].id, e.id) {
      var first, rest := sorted[0], Inserted(sorted[1..], e);
      InsertedIsSorted(sorted[1..], e);
      InsertedMembers(sorted[1..], e);
      forall x | x in rest
        ensures StringOrder.AtMost(first.id, x.id)
      {
        assert x in multiset(rest);
      }
      PrependedIsSorted(first, rest);
    } else if sorted != [] {
      FrontInsertion(sorted, e);
      PrependedIsSorted(e, sorted);
    }
  }

  lemma {:induction false} SortedIsSorted(entries: seq<Entry>)
    ensures SortedById(Sorted(entries)) && multiset(Sorted(entries)) == multiset(entries)
  {
    if entries != [] {
      var before, e := entries[..|entries| - 1], entries[|entries| - 1];
      assert entries == before + [e];
      SortedIsSorted(before);
      InsertedIsSorted(Sorted(before), e);
      InsertedMembers(Sorted(before), e);
    }
  }

  lemma {:induction false} InsertedAt(sorted: seq<Entry>, e: Entry, k: nat)
    requires k <= |sorted|
    requires forall i :: 0 <= i < k ==> StringOrder.AtMost(sorted[i].id, e.id)
    requires k < |sorted| ==> !StringOrder.AtMost(sorted[k].id, e.id)
    ensures Inserted(sorted, e) == sorted[..k] + [e] + sorted[k..]
  {
    if k > 0 {
      InsertedAt(sorted[1..], e, k - 1);
      assert [sorted[0]] + (sorted[1..][..k - 1] + [e] + sorted[1..][k - 1..]) == sorted[..k] + [e] + sorted[k..];
    }
  }

  method SortById(entries: seq<Entry>) returns (sorted: seq<Entry>)
    ensures sorted == Sorted(entries)
    ensures SortedById(sorted) && multiset(sorted) == multiset(entries)
  {
    sorted := [];
    var i := 0;
    while i < |entries|
      invariant 0 <= i <= |entries|
      invariant sorted == Sorted(entries[..i])
    {
      assert entries[..i + 1][..i] == entries[..i];
      sorted := InsertById(sorted, entries[i]);
      i := i + 1;
    }
    assert entries[..|entries|] == entries;
    SortedIsSorted(entries);
  }

  method InsertById(sorted: seq<Entry>, e: Entry) returns (r: seq<Entry>)
    ensures r == Inserted(sorted, e)
  {
    var k := 0;
    while k < |sorted| && StringOrder.AtMost(sorted[k].id, e.id)
      invariant 0 <= k <= |sorted|
      invariant forall i :: 0 <= i < k ==> StringOrder.AtMost(sorted[i].id, e.id)
    {
      k := k + 1;
    }
    InsertedAt(sorted, e, k);
    r := sorted[..k] + [e] + sorted[k..];
  }

  /** With distinct packet ids there is only one sorted arrangement. */
  lemma {:induction false} SortIsUnique(a: seq<Entry>, b: seq<Entry>)
    requires SortedById(a) && SortedById(b) && DistinctEntryIds(a) && multiset(a) == multiset(b)
    ensures a == b
    decreases |a|
  {
    Permutations.SameLength(a, b);
    if a != [] {
      SameHead(a, b);
      Permutations.SameTails(a, b);
      SortIsUnique(a[1..], b[1..]);
      assert a == [a[0]] + a[1..] && b == [b[0]] + b[1..];
    }
  }

  lemma SameHead(a: seq<Entry>, b: seq<Entry>)
    requires a != [] && b != []
    requires SortedById(a) && SortedById(b) && DistinctEntryIds(a) && multiset(a) == multiset(b)
    ensures a[0] == b[0]
  {
    assert a[0] in multiset(b) && b[0] in multiset(a);
    var k :| 0 <= k < |a| && a[k] == b[0];
    var l :| 0 <= l < |b| && b[l] == a[0];
    if k > 0 && l > 0 {
      StringOrder.Antisymmetric(a[0].id, a[k].id);
    }
  }

  lemma {:induction false} EntryIds(files: Files, packets: seq<Packet>)
    requires DistinctIds(packets)
    ensures DistinctEntryIds(Entries(files, packets))
    ensures forall e :: e in Entries(files, packets) ==> exists i :: 0 <= i < |packets| && packets[i].id == e.id
  {
    if packets != [] {
      var before, p := packets[..|packets| - 1], packets[|packets| - 1];
      EntryIds(files, before);
      forall e | e in Entries(files, packets)
        ensures exists i :: 0 <= i < |packets| && packets[i].id == e.id
      {
        if e in Entries(files, before) {
          var i :| 0 <= i < |before| && before[i].id == e.id;
          assert packets[i].id == e.id;
        } else {
          assert packets[|packets| - 1].id == e.id;
        }
      }
      var entries := Entries(files, before);
      forall i | 0 <= i < |entries|
        ensures entries[i].id != p.id
      {
        assert entries[i] in entries;
      }
    }
  }

  // ---- Writes per packet --------------------------------------------------------------------------------

  function CountOf(entries: seq<Entry>, id: string): nat {
    if entries == [] then 0
    else CountOf(entries[..|entries| - 1], id) + if entries[|entries| - 1].id == id then 1 else 0
  }

  ghost predicate Ascending(counts: seq<Count>) {
    forall i, j :: 0 <= i < j < |counts| ==> StringOrder.Less(counts[i].id, counts[j].id)
  }

  predicate HasRow(counts: seq<Count>, id: string) {
    exists i :: 0 <= i < |counts| && counts[i].id == id
  }

  ghost predicate RowsCount(counts: seq<Count>, entries: seq<Entry>) {
    forall c :: c in counts ==> c.count == CountOf(entries, c.id) && c.count > 0
  }

  /** One row per packet with planned writes, in id order. */
  ghost predicate Tallies(counts: seq<Count>, entries: seq<Entry>) {
    Ascending(counts) && RowsCount(counts, entries) && forall id :: CountOf(entries, id) > 0 ==> HasRow(counts, id)
  }

  /** `*counts.entry(id).or_insert(0) += 1` on an ordered map. */
  method Bump(counts: seq<Count>, ghost entries: seq<Entry>, e: Entry) returns (r: seq<Count>)
    requires Tallies(counts, entries)
    ensures Tallies(r, entries + [e])
  {
    ghost var all := entries + [e];
    assert all[..|entries|] == entries;
    assert forall id :: CountOf(all, id) == CountOf(entries, id) + if id == e.id then 1 else 0;
    var k := 0;
    while k < |counts| && StringOrder.Less(counts[k].id, e.id)
      invariant 0 <= k <= |counts|
      invariant forall i :: 0 <= i < k ==> StringOrder.Less(counts[i].id, e.id)
    {
      k := k + 1;
    }
    if k < |counts| && counts[k].id == e.id {
      r := counts[k := Count(e.id, counts[k].count + 1)];
      BumpedInPlace(counts, entries, e, k, r);
    } else {
      r := counts[..k] + [Count(e.id, 1)] + counts[k..];
      InsertionAscends(counts, Count(e.id, 1), k);
      InsertionRows(counts, Count(e.id, 1), k);
      BumpedByInsertion(counts, entries, e, r);
    }
  }

  lemma BumpedInPlace(counts: seq<Count>, entries: seq<Entry>, e: Entry, k: nat, r: seq<Count>)
    requires Tallies(counts, entries) && k < |counts| && counts[k].id == e.id
    requires r == counts[k := Count(e.id, counts[k].count + 1)]
    requires forall id :: CountOf(entries + [e], id) == CountOf(entries, id) + if id == e.id then 1 else 0
    ensures Tallies(r, entries + [e])
  {
    assert forall i :: 0 <= i < |r| ==> r[i].id == counts[i].id;
    assert counts[k] in counts;
    forall c | c in r
      ensures c.count == CountOf(entries + [e], c.id) && c.count > 0
    {
      var i :| 0 <= i < |r| && r[i] == c;
      assert counts[i] in counts;
      if i != k {
        assert counts[i].id != counts[k].id;
      }
    }
    forall id | CountOf(entries + [e], id) > 0
      ensures HasRow(r, id)
    {
      if id == e.id {
        assert r[k].id == id;
      } else {
        var i :| 0 <= i < |counts| && counts[i].id == id;
        assert r[i].id == id;
      }
    }
  }

  lemma InsertionAscends(counts: seq<Count>, c: Count, k: nat)
    requires Ascending(counts) && k <= |counts|
    requires forall i :: 0 <= i < k ==> StringOrder.Less(counts[i].id, c.id)
    requires k < |counts| ==> !StringOrder.Less(counts[k].id, c.id) && counts[k].id != c.id
    ensures Ascending(counts[..k] + [c] + counts[k..])
    ensures !HasRow(counts, c.id)
  {
    forall j | k <= j < |counts|
      ensures StringOrder.Less(c.id, counts[j].id)
    {
      StringOrder.Total(c.id, counts[k].id);
      if k < j {
        LessTransitive(c.id, counts[k].id, counts[j].id);
      }
    }
  }

  lemma InsertionRows(counts: seq<Count>, c: Count, k: nat)
    requires k <= |counts|
    ensures forall x :: x in counts[..k] + [c] + counts[k..] <==> x in counts || x == c
    ensures forall id :: HasRow(counts, id) || id == c.id ==> HasRow(counts[..k] + [c] + counts[k..], id)
  {
    var r := counts[..k] + [c] + counts[k..];
    assert counts == counts[..k] + counts[k..];
    assert r[k] == c;
    forall id | HasRow(counts, id)
      ensures HasRow(r, id)
    {
      var i :| 0 <= i < |counts| && counts[i].id == id;
      assert r[if i < k then i else i + 1].id == id;
    }
  }

  lemma BumpedByInsertion(counts: seq<Count>, entries: seq<Entry>, e: Entry, r: seq<Count>)
    requires Tallies(counts, entries) && !HasRow(counts, e.id)
    requires Ascending(r) && forall x :: x in r <==> x in counts || x == Count(e.id, 1)
    requires forall id :: HasRow(counts, id) || id == e.id ==> HasRow(r, id)
    requires forall id :: CountOf(entries + [e], id) == CountOf(entries, id) + if id == e.id then 1 else 0
    ensures Tallies(r, entries + [e])
  {
    assert CountOf(entries, e.id) == 0;
    forall c | c in counts
      ensures c.id != e.id
    {
    }
  }

  lemma LessTransitive(a: string, b: string, c: string)
    requires StringOrder.Less(a, b) && StringOrder.Less(b, c)
    ensures StringOrder.Less(a, c)
  {
    StringOrder.Transitive(a, b, c);
    if a == c {
      StringOrder.Antisymmetric(a, b);
    }
  }

  lemma TalliedRow(counts: seq<Count>, entries: seq<Entry>, id: string) returns (i: nat)
    requires Tallies(counts, entries) && CountOf(entries, id) > 0
    ensures i < |counts| && counts[i] == Count(id, CountOf(entries, id))
  {
    assert HasRow(counts, id);
    i :| 0 <= i < |counts| && counts[i].id == id;
    assert counts[i] in counts;
  }

  /** The next rows of two tallies agree: each occurs in the other, and both lists ascend. */
  lemma SameNextRow(a: seq<Count>, b: seq<Count>, entries: seq<Entry>, k: nat)
    requires Tallies(a, entries) && Tallies(b, entries)
    requires k < |a| && k <= |b| && forall m :: 0 <= m < k ==> a[m] == b[m]
    ensures k < |b| && a[k] == b[k]
  {
    assert a[k] in a;
    var i := TalliedRow(b, entries, a[k].id);
    assert i >= k && b[k] in b;
    var j := TalliedRow(a, entries, b[k].id);
    if k < i && k < j {
      StringOrder.Antisymmetric(a[k].id, b[k].id);
    }
  }

  lemma {:induction false} SameRows(a: seq<Count>, b: seq<Count>, entries: seq<Entry>, k: nat)
    requires Tallies(a, entries) && Tallies(b, entries) && k <= |a|
    ensures k <= |b| && forall m :: 0 <= m < k ==> a[m] == b[m]
  {
    if k > 0 {
      SameRows(a, b, entries, k - 1);
      SameNextRow(a, b, entries, k - 1);
    }
  }

  /** There is only one tally of the same entries. */
  lemma TallyIsUnique(a: seq<Count>, b: seq<Count>, entries: seq<Entry>)
    requires Tallies(a, entries) && Tallies(b, entries)
    ensures a == b
  {
    SameRows(a, b, entries, |a|);
    SameRows(b, a, entries, |b|);
  }

  method CountPerPacket(entries: seq<Entry>) returns (counts: seq<Count>)
    ensures Tallies(counts, entries)
  {
    counts := [];
    var i := 0;
    while i < |entries|
      invariant 0 <= i <= |entries| && Tallies(counts, entries[..i])
    {
      assert entries[..i + 1] == entries[..i] + [entries[i]];
      counts := Bump(counts, entries[..i], entries[i]);
      i := i + 1;
    }
    assert entries[..|entries|] == entries;
  }

  lemma {:induction false} CountFromMultiset(a: seq<Entry>, b: seq<Entry>, id: string)
    requires multiset(a) == multiset(b)
    ensures CountOf(a, id) == CountOf(b, id)
    decreases |a|
  {
    Permutations.SameLength(a, b);
    if a != [] {
      var before, e := a[..|a| - 1], a[|a| - 1];
      var k := Permutations.MatchLast(a, b);
      CountFromMultiset(before, b[..k] + b[k + 1..], id);
      CountAppend(b[..k] + [e], b[k + 1..], id);
      CountAppend(b[..k], [e], id);
      CountAppend(b[..k], b[k + 1..], id);
    }
  }

  lemma {:induction false} CountAppend(a: seq<Entry>, b: seq<Entry>, id: string)
    ensures CountOf(a + b, id) == CountOf(a, id) + CountOf(b, id)
    decreases |b|
  {
    if b == [] {
      assert a + b == a;
    } else {
      assert (a + b)[..|a + b| - 1] == a + b[..|b| - 1];
      CountAppend(a, b[..|b| - 1], id);
    }
  }
}
