/**
 Which type an untyped payload gets, compared with the event streams of the HTML standard.

 Section 9.2 of the standard collects the fields of a block, gives the block its type at the blank
 line that ends it, forgets the name there, and drops a last block that no blank line ends.  The code
 types each payload where it stands, with the last name it saw anywhere before.  `StandardFrames` is
 the standard's reading, and the two are compared for every stream.
 */
module StreamTypes {
  import opened JsonValues
  import opened Options
  import opened ResponseStream

  // ---- The standard's reading ----------------------------------------------------------------------------

  /** The blocks dispatched so far, and the name and the payloads of the block being read. */
  datatype Reader = Reader(frames: seq<Frame>, name: Option<string>, pending: seq<Json>)

  function Typed(bodies: seq<Json>, name: Option<string>): seq<Frame> {
    if bodies == [] then []
    else
      var last := bodies[|bodies| - 1];
      Typed(bodies[..|bodies| - 1], name) + [Frame(KindOf(TypeOf(last, name)), last)]
  }

  function Step(r: Reader, line: Line): Reader {
    match line
    case EventName(name) => r.(name := Some(name))
    case Unnamed => r.(name := None)
    case Payload(body) => r.(pending := r.pending + [body])
    case Blank => Reader(r.frames + Typed(r.pending, r.name), None, [])
    case Noise => r
  }

  function ReadBlocks(lines: seq<Line>): Reader {
    if lines == [] then Reader([], None, []) else Step(ReadBlocks(lines[..|lines| - 1]), lines[|lines| - 1])
  }

  function StandardFrames(lines: seq<Line>): seq<Frame> { ReadBlocks(lines).frames }

  lemma ReadBlocksSnoc(before: seq<Line>, line: Line)
    ensures ReadBlocks(before + [line]) == Step(ReadBlocks(before), line)
  {
    assert (before + [line])[..|before|] == before;
  }

  lemma TypedSnoc(bodies: seq<Json>, body: Json, name: Option<string>)
    ensures Typed(bodies + [body], name) == Typed(bodies, name) + [Frame(KindOf(TypeOf(body, name)), body)]
  {
    assert (bodies + [body])[..|bodies|] == bodies;
  }

  // ---- Where the readings differ -------------------------------------------------------------------------

  /** The blank line that ends the block of line `i`, or the end of the stream. */
  function BlockEnd(lines: seq<Line>, i: nat): (e: nat)
    requires i <= |lines|
    ensures i <= e <= |lines| && (e < |lines| ==> lines[e].Blank?)
    ensures forall k :: i <= k < e ==> !lines[k].Blank?
    decreases |lines| - i
  {
    if i == |lines| || lines[i].Blank? then i else BlockEnd(lines, i + 1)
  }

  predicate IsField(line: Line) { line.EventName? || line.Unnamed? }

  function FieldName(line: Line): Option<string> {
    if line.EventName? then Some(line.name) else None
  }

  /** The last event field of the block behind line `i` is at `k`. */
  predicate RenamedAt(lines: seq<Line>, i: nat, k: nat)
    requires i < |lines|
  {
    && i < k < BlockEnd(lines, i) && IsField(lines[k])
    && forall m :: k < m < BlockEnd(lines, i) ==> !IsField(lines[m])
  }

  predicate Resets(line: Line) { line.Blank? || line.Unnamed? }

  /** The name before line `r` is forgotten by the standard at `r`, and no other name follows. */
  predicate ForgottenAt(lines: seq<Line>, r: nat) {
    && r < |lines| && Resets(lines[r])
    && forall k :: r < k < |lines| ==> !lines[k].EventName?
  }

  /** The code's name is one the standard has forgotten, and it changes what an untyped payload means. */
  predicate HasStaleName(lines: seq<Line>) {
    && (exists r :: 0 <= r < |lines| && ForgottenAt(lines, r))
    && KindOf(CurrentName(lines)) != OtherKind
  }

  /** The payload at `i` does not name its type, and its block is renamed later or comes under a stale name. */
  predicate ReadsOtherwise(lines: seq<Line>, i: nat)
    requires i < |lines|
  {
    && lines[i].Payload? && FieldString(lines[i].body, "type").None?
    && if exists k :: i < k < |lines| && RenamedAt(lines, i, k)
       then exists k :: i < k < |lines| && RenamedAt(lines, i, k)
                        && KindOf(FieldName(lines[k])) != KindOf(CurrentName(lines[..i]))
       else HasStaleName(lines[..i])
  }

  /** The payload at `i` is in a block that no blank line ends. */
  predicate Unfinished(lines: seq<Line>, i: nat)
    requires i < |lines|
  {
    lines[i].Payload? && BlockEnd(lines, i) == |lines|
  }

  // ---- The name of a block -------------------------------------------------------------------------------

  /** The name the block of line `i` has when it ends. */
  function BlockName(lines: seq<Line>, i: nat): Option<string>
    requires i <= |lines|
  {
    ReadBlocks(lines[..BlockEnd(lines, i)]).name
  }

  lemma ForgottenSnoc(before: seq<Line>, line: Line)
    ensures (exists r :: 0 <= r < |before| + 1 && ForgottenAt(before + [line], r)) <==>
            Resets(line) || (!line.EventName? && exists r :: 0 <= r < |before| && ForgottenAt(before, r))
  {
    var lines := before + [line];
    assert lines[|before|] == line;
    if Resets(line) {
      assert ForgottenAt(lines, |before|);
    } else {
      forall r: nat | r < |before|
        ensures ForgottenAt(lines, r) <==> !line.EventName? && ForgottenAt(before, r)
      {
        assert forall k :: 0 <= k < |before| ==> lines[k] == before[k];
      }
    }
  }

  /** The name of the block being read is the code's name, unless it has been forgotten. */
  lemma {:induction false} StandardNameIs(lines: seq<Line>)
    ensures ReadBlocks(lines).name
         == if exists r :: 0 <= r < |lines| && ForgottenAt(lines, r) then None else CurrentName(lines)
  {
    if lines != [] {
      var before, last := lines[..|lines| - 1], lines[|lines| - 1];
      assert lines == before + [last];
      StandardNameIs(before);
      ForgottenSnoc(before, last);
    }
  }

  /** The name stays as it is while no field and no blank line comes. */
  lemma {:induction false} NameStays(lines: seq<Line>, from: nat)
    requires from <= |lines|
    requires forall k :: from <= k < |lines| ==> !IsField(lines[k]) && !lines[k].Blank?
    ensures ReadBlocks(lines).name == ReadBlocks(lines[..from]).name
  {
    if from < |lines| {
      var before := lines[..|lines| - 1];
      assert before[..from] == lines[..from];
      NameStays(before, from);
    } else {
      assert lines[..from] == lines;
    }
  }

  /** A block is named by its last event field, if one comes behind line `i`, and else as it was there. */
  lemma BlockNameIs(lines: seq<Line>, i: nat)
    requires i < |lines| && !lines[i].Blank? && !IsField(lines[i])
    ensures forall k :: i < k < |lines| && RenamedAt(lines, i, k) ==> BlockName(lines, i) == FieldName(lines[k])
    ensures (forall k :: i < k < |lines| ==> !RenamedAt(lines, i, k)) ==>
              BlockName(lines, i) == ReadBlocks(lines[..i]).name
  {
    var e := BlockEnd(lines, i);
    var block := lines[..e];
    forall k | i < k < |lines| && RenamedAt(lines, i, k)
      ensures BlockName(lines, i) == FieldName(lines[k])
    {
      NameStays(block, k + 1);
      assert block[..k + 1] == block[..k] + [lines[k]];
      ReadBlocksSnoc(block[..k], lines[k]);
    }
    if forall k :: i < k < |lines| ==> !RenamedAt(lines, i, k) {
      NoFieldBehind(lines, i, e);
      NameStays(block, i);
      assert block[..i] == lines[..i];
    }
  }

  /** Without a last field in the block there is none. */
  lemma {:induction false} NoFieldBehind(lines: seq<Line>, i: nat, from: nat)
    requires i < |lines| && i < from <= BlockEnd(lines, i)
    requires forall k :: i < k < |lines| ==> !RenamedAt(lines, i, k)
    requires forall m :: from <= m < BlockEnd(lines, i) ==> !IsField(lines[m])
    ensures forall m :: i < m < BlockEnd(lines, i) ==> !IsField(lines[m])
  {
    if i + 1 < from {
      assert !RenamedAt(lines, i, from - 1);
      NoFieldBehind(lines, i, from - 1);
    }
  }

  lemma NoNameIsOther()
    ensures KindOf(None) == OtherKind
  {
  }

  /** One payload reads otherwise exactly when the name of its block means something else. */
  lemma ReadsOtherwiseIff(lines: seq<Line>, i: nat)
    requires i < |lines| && lines[i].Payload?
    ensures ReadsOtherwise(lines, i) <==>
            KindOf(TypeOf(lines[i].body, CurrentName(lines[..i]))) != KindOf(TypeOf(lines[i].body, BlockName(lines, i)))
  {
    BlockNameIs(lines, i);
    StandardNameIs(lines[..i]);
    NoNameIsOther();
  }

  // ---- The comparison ------------------------------------------------------------------------------------

  ghost predicate OpenAgrees(lines: seq<Line>, name: Option<string>) {
    forall i :: 0 <= i < |lines| && Unfinished(lines, i) ==> AgreesUnder(lines, i, name)
  }

  predicate AgreesUnder(lines: seq<Line>, i: nat, name: Option<string>)
    requires i < |lines| && lines[i].Payload?
  {
    KindOf(TypeOf(lines[i].body, CurrentName(lines[..i]))) == KindOf(TypeOf(lines[i].body, name))
  }

  lemma {:induction false} BlockEndSnoc(before: seq<Line>, line: Line, i: nat)
    requires i <= |before|
    ensures BlockEnd(before + [line], i)
         == if BlockEnd(before, i) == |before| && !line.Blank? then |before| + 1 else BlockEnd(before, i)
    decreases |before| - i
  {
    if i < |before| && !before[i].Blank? {
      BlockEndSnoc(before, line, i + 1);
    } else if i == |before| && !line.Blank? {
      assert BlockEnd(before + [line], i + 1) == i + 1;
    }
  }

  lemma OpenSnoc(before: seq<Line>, line: Line, name: Option<string>)
    ensures OpenAgrees(before + [line], name) <==>
            line.Blank? || (OpenAgrees(before, name)
                            && (line.Payload? ==> AgreesUnder(before + [line], |before|, name)))
  {
    var lines := before + [line];
    BlockEndSnoc(before, line, |before|);
    forall i | 0 <= i < |before|
      ensures Unfinished(lines, i) <==> Unfinished(before, i) && !line.Blank?
      ensures before[i].Payload? ==> (AgreesUnder(lines, i, name) <==> AgreesUnder(before, i, name))
    {
      BlockEndSnoc(before, line, i);
      assert lines[..i] == before[..i];
    }
    assert Unfinished(lines, |before|) <==> line.Payload?;
  }

  lemma SameEndsIff<T>(a: seq<T>, b: seq<T>, x: T, y: T)
    requires |a| == |b|
    ensures a + [x] == b + [y] <==> a == b && x == y
  {
    if a + [x] == b + [y] {
      assert a == (a + [x])[..|a|] && b == (b + [y])[..|b|];
      assert x == (a + [x])[|a|] && y == (b + [y])[|b|];
    }
  }

  lemma {:induction false} TypedLength(bodies: seq<Json>, name: Option<string>)
    ensures |Typed(bodies, name)| == |bodies|
  {
    if bodies != [] {
      TypedLength(bodies[..|bodies| - 1], name);
    }
  }

  /** Every payload is a frame of the code; the standard has dispatched it or still holds it. */
  lemma {:induction false} SameCount(lines: seq<Line>)
    ensures |Frames(lines)| == |ReadBlocks(lines).frames| + |ReadBlocks(lines).pending|
  {
    if lines != [] {
      var before := lines[..|lines| - 1];
      SameCount(before);
      TypedLength(ReadBlocks(before).pending, ReadBlocks(before).name);
    }
  }

  /** The frames of the code for the payloads of the block being read. */
  function OpenFrames(lines: seq<Line>): seq<Frame> {
    SameCount(lines);
    Frames(lines)[|StandardFrames(lines)|..]
  }

  lemma OpenFramesSnoc(before: seq<Line>, line: Line)
    ensures OpenFrames(before + [line]) ==
            if line.Blank? then []
            else if line.Payload?
            then OpenFrames(before) + [Frame(KindOf(TypeOf(line.body, CurrentName(before))), line.body)]
            else OpenFrames(before)
  {
    ReadBlocksSnoc(before, line);
    FramesSnoc(before, line);
    SameCount(before);
    SameCount(before + [line]);
  }

  lemma OnePendingMore(open: seq<Frame>, pending: seq<Json>, body: Json, current: Option<string>, name: Option<string>)
    requires |open| == |pending|
    ensures open + [Frame(KindOf(TypeOf(body, current)), body)] == Typed(pending + [body], name) <==>
            open == Typed(pending, name) && KindOf(TypeOf(body, current)) == KindOf(TypeOf(body, name))
  {
    TypedSnoc(pending, body, name);
    TypedLength(pending, name);
    SameEndsIff(open, Typed(pending, name),
                Frame(KindOf(TypeOf(body, current)), body), Frame(KindOf(TypeOf(body, name)), body));
  }

  /** The open block would be read alike under this name exactly if each of its payloads would. */
  lemma {:induction false} OpenReadsAlikeIff(lines: seq<Line>, name: Option<string>)
    ensures |OpenFrames(lines)| == |ReadBlocks(lines).pending|
    ensures OpenFrames(lines) == Typed(ReadBlocks(lines).pending, name) <==> OpenAgrees(lines, name)
  {
    SameCount(lines);
    if lines != [] {
      var before, last := lines[..|lines| - 1], lines[|lines| - 1];
      assert lines == before + [last];
      OpenReadsAlikeIff(before, name);
      OpenSnoc(before, last, name);
      OpenFramesSnoc(before, last);
      ReadBlocksSnoc(before, last);
      if last.Payload? {
        OnePendingMore(OpenFrames(before), ReadBlocks(before).pending, last.body, CurrentName(before), name);
        assert lines[..|before|] == before;
      }
    }
  }

  ghost predicate ClosedAgrees(lines: seq<Line>) {
    forall i :: 0 <= i < |lines| && lines[i].Payload? && BlockEnd(lines, i) < |lines| ==>
      AgreesUnder(lines, i, BlockName(lines, i))
  }

  lemma ClosedSnoc(before: seq<Line>, line: Line)
    ensures ClosedAgrees(before + [line]) <==>
            ClosedAgrees(before) && (line.Blank? ==> OpenAgrees(before, ReadBlocks(before).name))
  {
    var lines := before + [line];
    var name := ReadBlocks(before).name;
    BlockEndSnoc(before, line, |before|);
    assert lines[..|before|] == before;
    forall i | 0 <= i < |before| && before[i].Payload?
      ensures BlockEnd(before, i) < |before| ==>
                BlockEnd(lines, i) < |lines|
                && (AgreesUnder(lines, i, BlockName(lines, i)) <==> AgreesUnder(before, i, BlockName(before, i)))
      ensures BlockEnd(before, i) == |before| ==>
                (BlockEnd(lines, i) < |lines| <==> line.Blank?)
                && (line.Blank? ==> (AgreesUnder(lines, i, BlockName(lines, i)) <==> AgreesUnder(before, i, name)))
    {
      BlockEndSnoc(before, line, i);
      assert lines[..i] == before[..i];
      assert BlockEnd(before, i) < |before| ==> lines[..BlockEnd(lines, i)] == before[..BlockEnd(before, i)];
    }
  }

  /** The code agrees with what the standard has dispatched exactly if it agrees on each dispatched payload. */
  lemma {:induction false} DispatchedAlikeIff(lines: seq<Line>)
    ensures StandardFrames(lines) <= Frames(lines) <==> ClosedAgrees(lines)
  {
    SameCount(lines);
    if lines != [] {
      var before, last := lines[..|lines| - 1], lines[|lines| - 1];
      assert lines == before + [last];
      DispatchedAlikeIff(before);
      ClosedSnoc(before, last);
      ReadBlocksSnoc(before, last);
      FramesSnoc(before, last);
      SameCount(before);
      if last.Blank? {
        var name, pending := ReadBlocks(before).name, ReadBlocks(before).pending;
        OpenReadsAlikeIff(before, name);
        TypedLength(pending, name);
        SplitPrefix(StandardFrames(before), Typed(pending, name), Frames(before));
      }
    }
  }

  lemma SplitPrefix<T>(a: seq<T>, b: seq<T>, c: seq<T>)
    requires |c| == |a| + |b|
    ensures a + b <= c <==> a <= c && b == c[|a|..]
  {
    if a + b <= c {
      assert a + b == c;
      assert a == (a + b)[..|a|];
    }
    if a <= c && b == c[|a|..] {
      assert c == c[..|a|] + c[|a|..];
    }
  }

  lemma {:induction false} HoldsNothingIff(lines: seq<Line>)
    ensures ReadBlocks(lines).pending == [] <==> forall i :: 0 <= i < |lines| ==> !Unfinished(lines, i)
  {
    if lines != [] {
      var before, last := lines[..|lines| - 1], lines[|lines| - 1];
      assert lines == before + [last];
      HoldsNothingIff(before);
      BlockEndSnoc(before, last, |before|);
      assert Unfinished(lines, |before|) <==> last.Payload?;
      forall i | 0 <= i < |before|
        ensures Unfinished(lines, i) <==> Unfinished(before, i) && !last.Blank?
      {
        BlockEndSnoc(before, last, i);
      }
    }
  }

  /**
   The code reads a stream as the standard does exactly when every block with a payload is ended by a
   blank line, and no untyped payload has its block renamed to another kind behind it or takes a
   forgotten name of one of the eight special kinds.
   */
  lemma ReadsAsStandardIff(lines: seq<Line>)
    ensures Frames(lines) == StandardFrames(lines) <==>
            forall i :: 0 <= i < |lines| ==> !Unfinished(lines, i) && !ReadsOtherwise(lines, i)
  {
    SameCount(lines);
    HoldsNothingIff(lines);
    DispatchedAlikeIff(lines);
    forall i | 0 <= i < |lines| && lines[i].Payload?
      ensures ReadsOtherwise(lines, i) <==> !AgreesUnder(lines, i, BlockName(lines, i))
    {
      ReadsOtherwiseIff(lines, i);
    }
  }

  // ---- Streams the readings disagree on ------------------------------------------------------------------

  const ADDED := "response.output_item.added"

  function Bare(item: Json): Json { JObject(map["item" := item]) }

  lemma AddedKind()
    ensures KindOf(Some(ADDED)) == ItemAdded
  {
    assert ADDED[9] == 'o' && ADDED[21] == 'a';
  }

  /** An item event drops its item under the type `added` and keeps it without a type. */
  lemma BareBody(item: Json)
    ensures Body(Gather(Effects([Frame(ItemAdded, Bare(item))]))) == None
    ensures Body(Gather(Effects([Frame(OtherKind, Bare(item))]))).Some?
  {
    var added, other := Frame(ItemAdded, Bare(item)), Frame(OtherKind, Bare(item));
    GatherSnoc([], added);
    GatherSnoc([], other);
    assert [] + [added] == [added] && [] + [other] == [other];
    assert Gather(Effects([])) == NOTHING;
    assert EffectOf(added) == NoEffect && EffectOf(other) == FinishItem(item, Bare(item));
  }

  lemma OneTyped(body: Json, name: Option<string>)
    ensures Typed([body], name) == [Frame(KindOf(TypeOf(body, name)), body)]
  {
    TypedSnoc([], body, name);
    assert [] + [body] == [body];
  }

  lemma FirstLine(line: Line)
    ensures CurrentName([line]) == if line.EventName? then Some(line.name) else None
    ensures Frames([line]) == if line.Payload? then [Frame(KindOf(TypeOf(line.body, None)), line.body)] else []
    ensures ReadBlocks([line]) == Step(Reader([], None, []), line)
  {
    assert [] + [line] == [line];
    FramesSnoc([], line);
    ReadBlocksSnoc([], line);
  }

  lemma NamedAndEnded(name: string)
    ensures var lines := [EventName(name), Blank];
            CurrentName(lines) == Some(name) && Frames(lines) == [] && ReadBlocks(lines) == Reader([], None, [])
  {
    var one := [EventName(name)];
    assert one + [Blank] == [EventName(name), Blank];
    FirstLine(EventName(name));
    FramesSnoc(one, Blank);
    ReadBlocksSnoc(one, Blank);
  }

  /** A payload with only a blank line behind it is typed by the name in front of it. */
  lemma PayloadAndEnd(before: seq<Line>, body: Json)
    requires ReadBlocks(before).pending == []
    ensures var lines, r := before + [Payload(body), Blank], ReadBlocks(before);
            && Frames(lines) == Frames(before) + [Frame(KindOf(TypeOf(body, CurrentName(before))), body)]
            && StandardFrames(lines) == r.frames + [Frame(KindOf(TypeOf(body, r.name)), body)]
  {
    var one := before + [Payload(body)];
    assert one + [Blank] == before + [Payload(body), Blank];
    FramesSnoc(before, Payload(body));
    FramesSnoc(one, Blank);
    ReadBlocksSnoc(before, Payload(body));
    ReadBlocksSnoc(one, Blank);
    OneTyped(body, ReadBlocks(before).name);
  }

  /** A block that is named behind its payload. */
  lemma PayloadAndName(body: Json, name: string)
    ensures var lines := [Payload(body), EventName(name)] + [Blank];
            && Frames(lines) == [Frame(KindOf(TypeOf(body, None)), body)]
            && StandardFrames(lines) == [Frame(KindOf(TypeOf(body, Some(name))), body)]
  {
    var one, two := [Payload(body)], [Payload(body), EventName(name)];
    assert one + [EventName(name)] == two;
    FirstLine(Payload(body));
    FramesSnoc(one, EventName(name));
    ReadBlocksSnoc(one, EventName(name));
    FramesSnoc(two, Blank);
    ReadBlocksSnoc(two, Blank);
    OneTyped(body, Some(name));
  }

  /** The code takes a name from an earlier block and drops the item; the standard keeps it. */
  lemma StaleNameDropsAnItem(item: Json)
    ensures var lines := [EventName(ADDED), Blank, Payload(Bare(item)), Blank];
            StreamBody(lines) == None && Body(Gather(Effects(StandardFrames(lines)))).Some?
  {
    var before, block := [EventName(ADDED), Blank], [Payload(Bare(item)), Blank];
    assert before + block == [EventName(ADDED), Blank, Payload(Bare(item)), Blank];
    NamedAndEnded(ADDED);
    PayloadAndEnd(before, Bare(item));
    NoNameIsOther();
    AddedKind();
    BareBody(item);
  }

  /** The code has read the payload before its name comes and keeps the item; the standard drops it. */
  lemma LateNameKeepsAnItem(item: Json)
    ensures var lines := [Payload(Bare(item)), EventName(ADDED)] + [Blank];
            StreamBody(lines).Some? && Body(Gather(Effects(StandardFrames(lines)))) == None
  {
    PayloadAndName(Bare(item), ADDED);
    NoNameIsOther();
    AddedKind();
    BareBody(item);
  }

  /** Without a last blank line the code keeps the item and the standard has dispatched nothing. */
  lemma UnfinishedBlockKeepsAnItem(item: Json)
    ensures var lines := [Payload(Bare(item))];
            StreamBody(lines).Some? && StandardFrames(lines) == []
  {
    FirstLine(Payload(Bare(item)));
    NoNameIsOther();
    BareBody(item);
  }
}
