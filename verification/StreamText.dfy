/** Streamed text, from its fragments to the final answer. */
module StreamText {
  import opened JsonValues
  import opened Options
  import opened ResponseStream
  import opened ResponseText
  import opened ResponseTranslation
  import opened StreamArguments
  import opened StreamToStep
  import opened StreamWire
  import opened Text

  /** The text fragments of a stream, in the order they were written. */
  function TextWritten(events: seq<WireEvent>): string {
    if events == [] then ""
    else TextOf(events[0]) + TextWritten(events[1..])
  }

  function TextOf(e: WireEvent): string { if e.TextFragment? then e.delta else "" }

  lemma JoinsInAnyGrouping(a: string, b: string, c: string)
    ensures (a + b) + c == a + (b + c)
  {
  }

  lemma {:induction false} TextWrittenSnoc(events: seq<WireEvent>, last: WireEvent)
    ensures TextWritten(events + [last]) == TextWritten(events) + TextOf(last)
  {
    var all := events + [last];
    if events == [] {
      assert all[1..] == [] && all[0] == last;
      assert TextWritten([]) == "";
    } else {
      var rest := events[1..];
      assert all[1..] == rest + [last] && all[0] == events[0];
      TextWrittenSnoc(rest, last);
      JoinsInAnyGrouping(TextOf(events[0]), TextWritten(rest), TextOf(last));
    }
  }

  lemma GatherTextSnoc(effects: seq<Effect>, last: WireEvent)
    ensures Gather(effects + [Meaning(last)]).text == Gather(effects).text + TextOf(last)
  {
    assert (effects + [Meaning(last)])[..|effects|] == effects;
  }

  lemma {:induction false} MeaningsJoin(events: seq<WireEvent>)
    ensures Gather(Meanings(events)).text == TextWritten(events)
  {
    if events != [] {
      var init, last := events[..|events| - 1], events[|events| - 1];
      assert events == init + [last];
      MeaningsJoin(init);
      TextWrittenSnoc(init, last);
      GatherTextSnoc(Meanings(init), last);
    }
  }

  /** Fragments are joined in the order they were written, whatever comes between them. */
  lemma TextIsJoinedInOrder(events: seq<WireEvent>)
    ensures Gather(Effects(Frames(Written(events)))).text == TextWritten(events)
  {
    WrittenStreamMeansIntended(events);
    MeaningsJoin(events);
  }

  predicate FinishesNothing(events: seq<WireEvent>) {
    forall e :: e in events ==> !e.ItemFinished?
  }

  lemma {:induction false} NoItems(events: seq<WireEvent>)
    requires FinishesNothing(events)
    ensures Gather(Meanings(events)).items == []
  {
    if events != [] {
      var init, last := events[..|events| - 1], events[|events| - 1];
      assert events == init + [last] && last in events;
      assert forall e :: e in init ==> e in events;
      NoItems(init);
      assert Meanings(events)[..|Meanings(init)|] == Meanings(init);
    }
  }

  /** Without a finished item or a whole response that answers, the body is the written text, or there is none. */
  lemma StreamedTextIsTheBody(events: seq<WireEvent>)
    requires FinishesNothing(events) && LeftToItems(ResponseWritten(events))
    ensures StreamBody(Written(events))
         == if Trim(TextWritten(events)) == "" then None
            else Some(JObject(map["output_text" := JString(TextWritten(events))]))
  {
    MeaningsJoin(events);
    WrittenBody(events);
    WrittenResponseIsCompleted(events);
    NoItems(events);
  }

  lemma FlatTextTranslates(text: string, render: Json -> string)
    requires Trim(text) != ""
    ensures var body := JObject(map["output_text" := JString(text)]);
            Translate(body, render) == Some(Completion(body, TextMessage(Trim(text)), "stop"))
  {
    var body := JObject(map["output_text" := JString(text)]);
    assert Field(body, "choices") == None && Field(body, "response") == None && Field(body, "output") == None;
    assert Field(body, "output_text") == Some(JString(text));
    assert Pointer(body, CHOICE) == None && Pointer(body, NESTED_CHOICE) == None;
    assert Pointer(body, ["response", "output"]) == None;
    assert Output(body) == None && OutputTexts(body) == [] && OutputCalls(body, render) == [];
    assert AnswerParts(body, render) == [text] && Join([text], "\n") == text;
  }

  /** So the fragments of an answer reach the step as one final text, joined in order and trimmed at its ends only. */
  lemma StreamedTextReachesTheStep<Call>(events: seq<WireEvent>, render: Json -> string, parse: Json -> Option<Call>)
    requires FinishesNothing(events) && LeftToItems(ResponseWritten(events)) && Trim(TextWritten(events)) != ""
    ensures var body := StreamBody(Written(events));
            && body.Some? && Translate(body.value, render).Some?
            && ParseStep(Translate(body.value, render).value, parse) == FinalStep(Trim(TextWritten(events)))
  {
    var text := TextWritten(events);
    var body := JObject(map["output_text" := JString(text)]);
    StreamedTextIsTheBody(events);
    FlatTextTranslates(text, render);
    TrimIsTight(text);
    TextMessageText(Trim(text));
    CompletionReadsBack(body, TextMessage(Trim(text)), "stop");
  }
}
