/**
 The undo and redo stacks of the graph editor, and the timeline they implement.

 A timeline is a list of versions with a cursor.  An edit forgets the versions after the cursor and
 adds one; undo and redo only move the cursor.  The two bounded stacks are shown to be exactly that.
 */
module GraphHistory {
  const UNDO_LIMIT: nat := 50

  /** Two stacks around the current version; the tops are at the ends. */
  datatype Stacks<V> = Stacks(undo: seq<V>, current: V, redo: seq<V>)

  datatype Op<V> = Edit(next: V) | Undo | Redo

  /** `saveUndo`: push, then drop the oldest when there are more than fifty. */
  function SaveUndo<V>(undo: seq<V>, current: V): seq<V> {
    var pushed := undo + [current];
    if |pushed| > UNDO_LIMIT then pushed[1..] else pushed
  }

  function Step<V>(h: Stacks<V>, op: Op<V>): Stacks<V> {
    match op
    case Edit(next) => Stacks(SaveUndo(h.undo, h.current), next, [])
    case Undo =>
      if h.undo == [] then h
      else Stacks(h.undo[..|h.undo| - 1], h.undo[|h.undo| - 1], h.redo + [h.current])
    case Redo =>
      if h.redo == [] then h
      else Stacks(h.undo + [h.current], h.redo[|h.redo| - 1], h.redo[..|h.redo| - 1])
  }

  function Run<V>(h: Stacks<V>, ops: seq<Op<V>>): Stacks<V> {
    if ops == [] then h else Step(Run(h, ops[..|ops| - 1]), ops[|ops| - 1])
  }

  function Fresh<V>(v: V): Stacks<V> {
    Stacks([], v, [])
  }

  // ---- The timeline ---------------------------------------------------------------------------------

  datatype Timeline<V> = Timeline(versions: seq<V>, cursor: nat)

  function Reverse<V>(s: seq<V>): (r: seq<V>)
    ensures |r| == |s|
  {
    if s == [] then [] else [s[|s| - 1]] + Reverse(s[..|s| - 1])
  }

  function Abstract<V>(h: Stacks<V>): Timeline<V> {
    Timeline(h.undo + [h.current] + Reverse(h.redo), |h.undo|)
  }

  function Advance<V>(t: Timeline<V>, op: Op<V>): (r: Timeline<V>)
    requires t.cursor < |t.versions|
    ensures r.cursor < |r.versions|
  {
    match op
    case Edit(next) =>
      var kept := t.versions[..t.cursor + 1];
      var versions := (if |kept| > UNDO_LIMIT then kept[1..] else kept) + [next];
      Timeline(versions, |versions| - 1)
    case Undo => if t.cursor == 0 then t else t.(cursor := t.cursor - 1)
    case Redo => if t.cursor + 1 == |t.versions| then t else t.(cursor := t.cursor + 1)
  }

  lemma StacksAreATimeline<V>(h: Stacks<V>, op: Op<V>)
    ensures Abstract(Step(h, op)) == Advance(Abstract(h), op)
    ensures Abstract(h).versions[Abstract(h).cursor] == h.current
  {
    var t := Abstract(h);
    match op
    case Edit(next) =>
      assert t.versions[..t.cursor + 1] == h.undo + [h.current];
      assert Step(h, op).redo == [];
    case Undo =>
      if h.undo != [] {
        var r := h.redo + [h.current];
        assert r[..|r| - 1] == h.redo;
        assert h.undo == h.undo[..|h.undo| - 1] + [h.undo[|h.undo| - 1]];
      }
    case Redo =>
      if h.redo != [] {
        assert Reverse(h.redo)[0] == h.redo[|h.redo| - 1];
      }
  }

  function AdvanceAll<V>(t: Timeline<V>, ops: seq<Op<V>>): (r: Timeline<V>)
    requires t.cursor < |t.versions|
    ensures r.cursor < |r.versions|
  {
    if ops == [] then t else Advance(AdvanceAll(t, ops[..|ops| - 1]), ops[|ops| - 1])
  }

  /** Every run of the editor is a run of the timeline, and shows the version under the cursor. */
  lemma {:induction false} RunsAreTimelineRuns<V>(h: Stacks<V>, ops: seq<Op<V>>)
    ensures Abstract(Run(h, ops)) == AdvanceAll(Abstract(h), ops)
    ensures Run(h, ops).current == AdvanceAll(Abstract(h), ops).versions[AdvanceAll(Abstract(h), ops).cursor]
  {
    if ops != [] {
      RunsAreTimelineRuns(h, ops[..|ops| - 1]);
      StacksAreATimeline(Run(h, ops[..|ops| - 1]), ops[|ops| - 1]);
    }
    StacksAreATimeline(Run(h, ops), Undo);
  }

  // ---- Bounds and inverses ----------------------------------------------------------------------------

  /** Both stacks together never exceed the limit, although redo pushes without trimming. */
  lemma {:induction false} HistoryIsBounded<V>(v: V, ops: seq<Op<V>>)
    ensures |Run(Fresh(v), ops).undo| + |Run(Fresh(v), ops).redo| <= 50
  {
    if ops != [] {
      HistoryIsBounded(v, ops[..|ops| - 1]);
    }
  }

  lemma UndoRedoCancel<V>(h: Stacks<V>)
    ensures h.undo != [] ==> Step(Step(h, Undo), Redo) == h
    ensures h.redo != [] ==> Step(Step(h, Redo), Undo) == h
  {
    if h.undo != [] {
      assert h.undo[..|h.undo| - 1] + [h.undo[|h.undo| - 1]] == h.undo;
      assert (h.redo + [h.current])[..|h.redo|] == h.redo;
    }
    if h.redo != [] {
      assert (h.undo + [h.current])[..|h.undo|] == h.undo;
      assert h.redo[..|h.redo| - 1] + [h.redo[|h.redo| - 1]] == h.redo;
    }
  }

  // ---- Edits followed by undos --------------------------------------------------------------------------

  function Edits<V>(versions: seq<V>): seq<Op<V>> {
    seq(|versions|, i requires 0 <= i < |versions| => Edit(versions[i]))
  }

  function UndoTimes<V>(h: Stacks<V>, k: nat): Stacks<V> {
    if k == 0 then h else Step(UndoTimes(h, k - 1), Undo)
  }

  function Min(a: nat, b: nat): nat { if a < b then a else b }

  /** After edits through `all[1..]`, the undo stack holds the last fifty versions before the current one. */
  lemma {:induction false} StackAfterEdits<V>(all: seq<V>)
    requires all != []
    ensures var n := |all| - 1;
            Run(Fresh(all[0]), Edits(all[1..])) == Stacks(all[n - Min(n, 50)..n], all[n], [])
    decreases |all|
  {
    var n := |all| - 1;
    if n == 0 {
      assert all[1..] == [] && all[0..0] == [];
    } else {
      var before := all[..n];
      StackAfterEdits(before);
      assert before[1..] == all[1..n];
      assert Edits(all[1..])[..n - 1] == Edits(before[1..]);
      assert Edits(all[1..])[n - 1] == Edit(all[n]);
      var m := n - 1;
      var low := m - Min(m, UNDO_LIMIT);
      assert before[low..m] + [before[m]] == all[low..n];
      assert n - Min(n, UNDO_LIMIT) == if n > UNDO_LIMIT then low + 1 else low;
      if n > UNDO_LIMIT {
        assert all[low..n][1..] == all[low + 1..n];
      }
    }
  }

  lemma {:induction false} UndosWalkBack<V>(h: Stacks<V>, k: nat)
    ensures var j := Min(k, |h.undo|);
            UndoTimes(h, k).undo == h.undo[..|h.undo| - j]
            && UndoTimes(h, k).current == (h.undo + [h.current])[|h.undo| - j]
  {
    if k > 0 {
      UndosWalkBack(h, k - 1);
    }
  }

  /** `k` undos after `n` edits reach the version before the last `min(k, n, 50)` edits. */
  lemma UndosReachTheRightVersion<V>(all: seq<V>, k: nat)
    requires all != []
    ensures var n := |all| - 1;
            UndoTimes(Run(Fresh(all[0]), Edits(all[1..])), k).current == all[n - Min(k, Min(n, 50))]
  {
    var n := |all| - 1;
    StackAfterEdits(all);
    UndosWalkBack(Run(Fresh(all[0]), Edits(all[1..])), k);
  }
}
