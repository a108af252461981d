/** What the lines and the named events of a stream mean, from their text and their fields. */
module StreamEvents {
  import opened CallFields
  import opened JsonValues
  import opened Options
  import opened ResponseStream
  import opened ResponseText
  import opened StreamToStep
  import opened StreamWire
  import opened Text

  // ---- Lines ---------------------------------------------------------------------------------------------

  lemma FieldIsStripped(field: string, value: string)
    requires Tight(field) && field != "" && Tight(value) && value != ""
    ensures Trim(field + (" " + value)) == field + (" " + value) && Trim(" " + value) == value
  {
    var line, blank := field + (" " + value), " " + value;
    assert line[0] == field[0] && line[|line| - 1] == value[|value| - 1];
    TrimOfTight(line);
    assert blank[1..] == value && TrimStart(blank) == value;
    TrimOfTight(value);
  }

  /** An event line names what follows. */
  lemma EventLineReads(value: string, decode: string -> Option<Json>)
    requires Tight(value) && value != ""
    ensures ReadLine("event:" + (" " + value), decode) == EventName(value)
  {
    var line := "event:" + (" " + value);
    FieldIsStripped("event:", value);
    assert line[..6] == "event:" && line[6..] == " " + value;
    assert |line| > 5;
  }

  /** A data line holds its payload, if it is not the end mark and can be decoded. */
  lemma DataLineReads(value: string, decode: string -> Option<Json>)
    requires Tight(value) && value != ""
    ensures ReadLine("data:" + (" " + value), decode)
         == if value == "[DONE]" || decode(value).None? then Noise else Payload(decode(value).value)
  {
    var line := "data:" + (" " + value);
    FieldIsStripped("data:", value);
    assert line[..5] == "data:" && line[5..] == " " + value;
    assert line[0] == 'd' && "event:"[0] == 'e' && "event"[0] == 'e';
  }

  /** Anything else is skipped. */
  lemma OtherLinesAreSkipped(line: string, decode: string -> Option<Json>)
    requires line != "" && line != "event" && !("event:" <= Trim(line)) && !("data:" <= Trim(line))
    ensures ReadLine(line, decode) == Noise
  {
  }

  // ---- The stream as text --------------------------------------------------------------------------------

  /** One data line for each event. */
  function DataLines(events: seq<WireEvent>, render: Json -> string): seq<string> {
    if events == [] then []
    else DataLines(events[..|events| - 1], render) + ["data:" + (" " + render(Write(events[|events| - 1])))]
  }

  /** Rendering a payload and decoding it gives it back, and leaves no blank at its ends. */
  predicate ReadsBack(e: WireEvent, render: Json -> string, decode: string -> Option<Json>) {
    var text := render(Write(e));
    decode(text) == Some(Write(e)) && Tight(text) && text != "" && text != "[DONE]"
  }

  /** The rendered lines read as the payloads. */
  lemma {:induction false} DataLinesReadBack(
    events: seq<WireEvent>, render: Json -> string, decode: string -> Option<Json>)
    requires forall e :: e in events ==> ReadsBack(e, render, decode)
    ensures ReadLines(DataLines(events, render), decode) == Written(events)
  {
    if events != [] {
      var init, last := events[..|events| - 1], events[|events| - 1];
      assert events == init + [last];
      assert forall e :: e in init ==> e in events;
      DataLinesReadBack(init, render, decode);
      assert ReadsBack(last, render, decode);
      DataLineReads(render(Write(last)), decode);
      ReadLinesSnoc(DataLines(init, render), "data:" + (" " + render(Write(last))), decode);
    }
  }

  // ---- Events --------------------------------------------------------------------------------------------

  /** The call an event is about: its item's id or call id, its own item id, or else its output index. */
  predicate KeyedBy(event: Json, item: Option<Json>, key: string) {
    var id := if item.Some? then Field(item.value, "id") else None;
    var callId := if item.Some? then Field(item.value, "call_id") else None;
    var named := if id.Some? then id else if callId.Some? then callId else Field(event, "item_id");
    match named
    case Some(JString(text)) => key == text
    case _ =>
      (match Field(event, "output_index")
       case Some(JInteger(n)) => 0 <= n < 0x1_0000_0000_0000_0000 && key == "output_index:" + Decimal(n)
       case _ => false)
  }

  lemma KeyIs(event: Json, item: Option<Json>, key: string)
    ensures KeyedBy(event, item, key) <==> ItemKey(event, item) == Some(key)
  {
  }

  /** What an event of this name does, by the fields it has. */
  function Does(name: string, event: Json): Effect {
    EffectOf(Frame(KindOf(Some(name)), event))
  }

  lemma NamesOfKinds()
    ensures KindOf(Some("response.completed")) == ResponseCompleted
    ensures KindOf(Some("response.function_call_arguments.delta")) == ArgumentsDelta
    ensures KindOf(Some("response.function_call_arguments.done")) == ArgumentsDone
    ensures KindOf(Some("response.output_item.added")) == ItemAdded
    ensures KindOf(Some("response.output_item.done")) == ItemDone
    ensures KindOf(Some("response.output_text.delta")) == TextDelta
  {
    NamesAreApart();
  }

  lemma NamesOfWholes()
    ensures KindOf(Some("response.output_text.done")) == TextDone && KindOf(Some("response.refusal.done")) == TextDone
    ensures KindOf(Some("response.content_part.done")) == TextDone
    ensures KindOf(Some("response.message.done")) == MessageDone
  {
    assert "response.output_text.done"[16] == 't' && "response.output_text.done"[22] == 'o';
    assert "response.refusal.done"[9] == 'r';
    assert "response.content_part.done"[11] == 'n';
    assert "response.message.done"[9] == 'm';
  }

  /** Fragments and whole arguments count only with a key and a string; an announced item counts for nothing. */
  lemma ArgumentEventsMean(event: Json, key: string, text: string)
    requires KeyedBy(event, None, key)
    ensures HasText(event, "delta", text) ==>
              Does("response.function_call_arguments.delta", event) == AppendArguments(key, text)
    ensures HasText(event, "arguments", text) ==>
              Does("response.function_call_arguments.done", event) == SetArguments(key, text)
    ensures Does("response.output_item.added", event) == NoEffect
  {
    NamesOfKinds();
    KeyIs(event, None, key);
  }

  lemma KeylessArgumentsMeanNothing(event: Json)
    requires forall key :: !KeyedBy(event, None, key)
    ensures Does("response.function_call_arguments.delta", event) == NoEffect
    ensures Does("response.function_call_arguments.done", event) == NoEffect
  {
    NamesOfKinds();
    if ItemKey(event, None).Some? {
      KeyIs(event, None, ItemKey(event, None).value);
    }
  }

  /** Finished items, text fragments and completed responses count with their field, and for nothing without it. */
  lemma FieldEventsMean(event: Json)
    ensures Does("response.output_item.done", event)
         == if Field(event, "item").Some? then FinishItem(Field(event, "item").value, event) else NoEffect
    ensures Does("response.completed", event)
         == if Field(event, "response").Some? then Complete(Field(event, "response").value) else NoEffect
    ensures forall text :: HasText(event, "delta", text) ==> Does("response.output_text.delta", event) == AddText(text)
    ensures FieldString(event, "delta").None? ==> Does("response.output_text.delta", event) == NoEffect
  {
    NamesOfKinds();
  }

  /** Whole texts are collected; a finished message is an item, under whichever of three fields it comes. */
  lemma WholeEventsMean(event: Json)
    ensures Does("response.output_text.done", event) == AddText(EventText(event))
    ensures Does("response.refusal.done", event) == AddText(EventText(event))
    ensures Does("response.content_part.done", event) == AddText(EventText(event))
    ensures Does("response.message.done", event)
         == if Field(event, "message").Some? then FinishItem(Field(event, "message").value, event)
            else if Field(event, "item").Some? then FinishItem(Field(event, "item").value, event)
            else if Field(event, "response").Some? then FinishItem(Field(event, "response").value, event)
            else AddText(EventText(event))
  {
    NamesOfWholes();
  }

  const KNOWN_EVENTS: set<string> := {
    "response.completed", "response.function_call_arguments.delta", "response.function_call_arguments.done",
    "response.output_item.added", "response.output_item.done", "response.output_text.delta",
    "response.output_text.done", "response.refusal.done", "response.content_part.done", "response.message.done"}

  /** Any other event, named or not: a response, else an item, else its text. */
  lemma OtherEventsMean(name: Option<string>, event: Json)
    requires name.Some? ==> name.value !in KNOWN_EVENTS
    ensures EffectOf(Frame(KindOf(name), event))
         == if Field(event, "response").Some? then Complete(Field(event, "response").value)
            else if Field(event, "item").Some? then FinishItem(Field(event, "item").value, event)
            else AddText(EventText(event))
  {
  }

  /** A call item waits for streamed arguments unless it has a string of its own that is not blank. */
  lemma WaitsForArguments(item: Json)
    ensures AwaitsArguments(item) <==> IsCallItem(item) && !Nonblank(Field(item, "arguments"))
  {
    assert Trim("") == "";
  }

  // ---- The body ------------------------------------------------------------------------------------------

  /** A string that is not blank. */
  predicate Nonblank(v: Option<Json>) { v.Some? && v.value.JString? && Trim(v.value.text) != "" }

  /** A response answers with output items, with a text of its own, or with a message that says or calls something. */
  predicate Answers(response: Json) {
    || (Field(response, "output").Some? && Field(response, "output").value.JArray?
        && Field(response, "output").value.items != [])
    || Nonblank(Field(response, "output_text")) || Nonblank(Pointer(response, ["response", "output_text"]))
    || OutputMessage(Pointer(response, ["choices", "0", "message"]))
    || OutputMessage(Pointer(response, ["response", "choices", "0", "message"]))
  }

  lemma AnsweringIs(response: Json)
    ensures BodyHasOutput(response) <==> Answers(response)
  {
  }

  /** The last whole response of a stream is its body if it answers, whatever else was streamed. */
  lemma WholeResponseWins(events: seq<WireEvent>)
    requires ResponseWritten(events).Some? && Answers(ResponseWritten(events).value)
    ensures StreamBody(Written(events)) == ResponseWritten(events)
  {
    AnsweringIs(ResponseWritten(events).value);
    WrittenBody(events);
    WrittenResponseIsCompleted(events);
  }
}
