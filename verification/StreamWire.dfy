/**
 The stream as the provider writes it: payloads that name their own type.

 Reading back what was written gives the intended effects, so the results about effects are results
 about streams of payloads.
 */
module StreamWire {
  import opened JsonValues
  import opened Options
  import opened ResponseStream
  import opened StreamArguments

  /** The events of a streamed function call, and of streamed text. */
  datatype WireEvent =
    | ArgumentFragment(itemId: string, delta: string)
    | ArgumentsWhole(itemId: string, arguments: string)
    | ItemStarted(item: Json)
    | ItemFinished(item: Json)
    | TextFragment(delta: string)
    | WholeResponse(response: Json)

  const FRAGMENT := "response.function_call_arguments.delta"
  const WHOLE := "response.function_call_arguments.done"
  const STARTED := "response.output_item.added"
  const FINISHED := "response.output_item.done"
  const TEXT := "response.output_text.delta"
  const COMPLETED := "response.completed"

  function Write(e: WireEvent): Json {
    match e
    case ArgumentFragment(id, delta) =>
      JObject(map["type" := JString(FRAGMENT), "item_id" := JString(id), "delta" := JString(delta)])
    case ArgumentsWhole(id, arguments) =>
      JObject(map["type" := JString(WHOLE), "item_id" := JString(id), "arguments" := JString(arguments)])
    case ItemStarted(item) => JObject(map["type" := JString(STARTED), "item" := item])
    case ItemFinished(item) => JObject(map["type" := JString(FINISHED), "item" := item])
    case TextFragment(delta) => JObject(map["type" := JString(TEXT), "delta" := JString(delta)])
    case WholeResponse(response) => JObject(map["type" := JString(COMPLETED), "response" := response])
  }

  function Meaning(e: WireEvent): Effect {
    match e
    case ArgumentFragment(id, delta) => AppendArguments(id, delta)
    case ArgumentsWhole(id, arguments) => SetArguments(id, arguments)
    case ItemStarted(_) => NoEffect
    case ItemFinished(item) => FinishItem(item, Write(e))
    case TextFragment(delta) => AddText(delta)
    case WholeResponse(response) => Complete(response)
  }

  function Meanings(events: seq<WireEvent>): seq<Effect> {
    if events == [] then [] else Meanings(events[..|events| - 1]) + [Meaning(events[|events| - 1])]
  }

  function Written(events: seq<WireEvent>): seq<Line> {
    if events == [] then [] else Written(events[..|events| - 1]) + [Payload(Write(events[|events| - 1]))]
  }

  function TypeName(e: WireEvent): string {
    match e
    case ArgumentFragment(_, _) => FRAGMENT
    case ArgumentsWhole(_, _) => WHOLE
    case ItemStarted(_) => STARTED
    case ItemFinished(_) => FINISHED
    case TextFragment(_) => TEXT
    case WholeResponse(_) => COMPLETED
  }

  function KindOfEvent(e: WireEvent): Kind {
    match e
    case ArgumentFragment(_, _) => ArgumentsDelta
    case ArgumentsWhole(_, _) => ArgumentsDone
    case ItemStarted(_) => ItemAdded
    case ItemFinished(_) => ItemDone
    case TextFragment(_) => TextDelta
    case WholeResponse(_) => ResponseCompleted
  }

  lemma NamesAreApart()
    ensures KindOf(Some(FRAGMENT)) == ArgumentsDelta && KindOf(Some(WHOLE)) == ArgumentsDone
    ensures KindOf(Some(FINISHED)) == ItemDone && KindOf(Some(TEXT)) == TextDelta
    ensures KindOf(Some(COMPLETED)) == ResponseCompleted && KindOf(Some(STARTED)) == ItemAdded
  {
    assert FRAGMENT[33] == 'd' && FRAGMENT[34] == 'e' && WHOLE[34] == 'o';
    assert STARTED[21] == 'a' && FINISHED[21] == 'd';
    assert TEXT[16] == 't' && TEXT[21] == 'd' && TEXT[22] == 'e';
    assert COMPLETED[9] == 'c';
  }

  lemma WrittenKind(e: WireEvent)
    ensures FieldString(Write(e), "type") == Some(TypeName(e)) && KindOf(Some(TypeName(e))) == KindOfEvent(e)
  {
    NamesAreApart();
  }

  /** One payload means what was written. */
  lemma WrittenMeansIntended(e: WireEvent)
    ensures EffectOf(Frame(KindOfEvent(e), Write(e))) == Meaning(e)
  {
  }

  /** Reading a written stream back gives exactly the intended effects, in order. */
  lemma {:induction false} WrittenStreamMeansIntended(events: seq<WireEvent>)
    ensures Effects(Frames(Written(events))) == Meanings(events)
  {
    if events != [] {
      var init, last := events[..|events| - 1], events[|events| - 1];
      WrittenStreamMeansIntended(init);
      WrittenKind(last);
      WrittenMeansIntended(last);
      FramesSnoc(Written(init), Payload(Write(last)));
      EffectsSnoc(Frames(Written(init)), Frame(KindOfEvent(last), Write(last)));
    }
  }

  lemma WrittenBody(events: seq<WireEvent>)
    ensures StreamBody(Written(events)) == Body(Gather(Meanings(events)))
  {
    WrittenStreamMeansIntended(events);
  }

  lemma EffectsSnoc(frames: seq<Frame>, f: Frame)
    ensures Effects(frames + [f]) == Effects(frames) + [EffectOf(f)]
  {
    assert (frames + [f])[..|frames|] == frames;
  }

  // ---- What was written for one call --------------------------------------------------------------------

  /** The arguments written for call `id`: a whole string replaces what came before it, a fragment extends it. */
  function ArgumentsWritten(events: seq<WireEvent>, id: string): Option<string> {
    if events == [] then None
    else
      var earlier := ArgumentsWritten(events[..|events| - 1], id);
      match events[|events| - 1]
      case ArgumentFragment(itemId, delta) => if itemId == id then Some(earlier.GetOr("") + delta) else earlier
      case ArgumentsWhole(itemId, whole) => if itemId == id then Some(whole) else earlier
      case _ => earlier
  }

  /** The last whole response written. */
  function ResponseWritten(events: seq<WireEvent>): Option<Json> {
    if events == [] then None
    else if events[|events| - 1].WholeResponse? then Some(events[|events| - 1].response)
    else ResponseWritten(events[..|events| - 1])
  }

  lemma {:induction false} WrittenArgumentsAreReceived(events: seq<WireEvent>, id: string)
    ensures ArgumentsFor(Own(Meanings(events), id)) == ArgumentsWritten(events, id)
    ensures ArgumentsWritten(events, id).None? <==> Own(Meanings(events), id) == []
  {
    if events != [] {
      var init, last := events[..|events| - 1], events[|events| - 1];
      WrittenArgumentsAreReceived(init, id);
      var own := Own(Meanings(init), id);
      assert Meanings(events)[..|Meanings(init)|] == Meanings(init);
      if IsFor(Meaning(last), id) {
        assert (own + [Meaning(last)])[..|own|] == own;
      }
    }
  }

  lemma {:induction false} WrittenResponseIsCompleted(events: seq<WireEvent>)
    ensures Gather(Meanings(events)).completed == ResponseWritten(events)
  {
    if events != [] {
      var init := events[..|events| - 1];
      WrittenResponseIsCompleted(init);
      assert Meanings(events)[..|Meanings(init)|] == Meanings(init);
    }
  }

  lemma {:induction false} MeaningsAt(events: seq<WireEvent>, i: nat)
    requires i < |events|
    ensures |Meanings(events)| == |events| && Meanings(events)[i] == Meaning(events[i])
    ensures Meanings(events)[..i] == Meanings(events[..i])
    decreases |events|
  {
    var init := events[..|events| - 1];
    MeaningsLength(events);
    MeaningsLength(init);
    if i < |init| {
      MeaningsAt(init, i);
      assert init[..i] == events[..i];
      assert Meanings(events)[..i] == Meanings(init)[..i];
    } else {
      assert Meanings(events)[..i] == Meanings(init);
    }
  }

  lemma {:induction false} MeaningsLength(events: seq<WireEvent>)
    ensures |Meanings(events)| == |events|
  {
    if events != [] {
      MeaningsLength(events[..|events| - 1]);
    }
  }

  lemma ItemNamesItsCall(item: Json, event: Json, id: string)
    requires FieldString(item, "id") == Some(id)
    ensures ItemKey(event, Some(item)) == Some(id)
  {
  }

  /**
   In a written stream, however its calls are interleaved: the call finished at position `i`, if it
   came without arguments, carries what was written for its id before that.
   */
  lemma WrittenCallsArriveWhole(events: seq<WireEvent>, i: nat, id: string)
    requires i < |events| && events[i].ItemFinished?
    requires AwaitsArguments(events[i].item) && FieldString(events[i].item, "id") == Some(id)
    requires ArgumentsWritten(events[..i], id).Some?
    ensures var effects := Effects(Frames(Written(events)));
            && i < |effects| && effects[i].FinishItem?
            && ItemAt(effects, i) == WithArguments(events[i].item, ArgumentsWritten(events[..i], id).value)
  {
    var effects := Meanings(events);
    WrittenStreamMeansIntended(events);
    MeaningsAt(events, i);
    ItemNamesItsCall(events[i].item, Write(events[i]), id);
    WrittenArgumentsAreReceived(events[..i], id);
    FinishedCallGetsItsOwnArguments(effects, i);
    OwnIsOnArguments(effects[..i], id);
    ArgumentsAreReceived(Own(effects[..i], id));
  }
}
