/** The whole way of a streamed call: from the events of a stream to the step the loop takes. */
module StreamToStep {
  import opened CallFields
  import opened JsonValues
  import opened Options
  import opened ResponseStream
  import opened ResponseTranslation
  import opened StreamArguments
  import opened StreamWire

  /** The stream brought no whole response that could answer by itself. */
  predicate LeftToItems(completed: Option<Json>) {
    completed.Some? ==> !BodyHasOutput(completed.value)
  }

  /** Among the calls of the body's step there is one for this item, at the position of the item among the calls. */
  lemma ItemsReachTheStep<Call>(items: seq<Json>, n: nat, render: Json -> string, parse: Json -> Option<Call>)
    requires n < |items| && IsNamedCall(items[n])
    ensures var body := JObject(map["output" := JArray(items)]);
            && Translate(body, render).Some?
            && var step := ParseStep(Translate(body, render).value, parse);
               var k := CallCount(items[..n]);
               (step.ToolStep? && k < |step.calls|
                && exists call :: Carries(call, items[n], render) && parse(call) == Some(step.calls[k]))
               || (step == FailedStep(MalformedToolCall) && ParseCalls(CallsOf(items, render), parse).None?)
  {
    var k := CallCount(items[..n]);
    CallOfNamedItem(items, n, render);
    OutputBodyStep(items, render, parse);
    if ParseCalls(CallsOf(items, render), parse).Some? {
      ParsedCallAt(CallsOf(items, render), k, parse);
      assert Carries(CallsOf(items, render)[k], items[n], render);
    }
  }

  /** The step has a call made of a JSON call with these fields, unless some call of the stream could not be parsed. */
  ghost predicate Makes<Call>(
    step: ParsedStep<Call>, parse: Json -> Option<Call>, id: string, name: string, arguments: string)
  {
    || step == FailedStep(MalformedToolCall)
    || (step.ToolStep? && exists k, call ::
          0 <= k < |step.calls| && Reads(call, id, name, arguments) && parse(call) == Some(step.calls[k]))
  }

  /** The arguments of a finished item: what it was sent if it came without any, otherwise its own. */
  predicate Receives(effects: seq<Effect>, finish: Effect, arguments: string, render: Json -> string)
    requires finish.FinishItem?
  {
    SentIsOnArguments(effects, finish);
    if AwaitsArguments(finish.item) && Sent(effects, finish) != [] then arguments == Received(Sent(effects, finish))
    else Argued(finish.item, arguments, render)
  }

  /** Filling in arguments keeps a call a call, with its name and id. */
  lemma FinishedItemFields(
    effects: seq<Effect>, finish: Effect, id: string, name: string, arguments: string, render: Json -> string)
    requires finish.FinishItem? && IsCallItem(finish.item)
    requires Identified(finish.item, id) && Named(finish.item, name) && Receives(effects, finish, arguments, render)
    ensures var item := FinishedItem(effects, finish);
            IsCallItem(item) && Identified(item, id) && Named(item, name) && Argued(item, arguments, render)
  {
    SentIsOnArguments(effects, finish);
    ItemFields(finish.item, render);
    ItemFields(FinishedItem(effects, finish), render);
    if AwaitsArguments(finish.item) && Sent(effects, finish) != [] {
      FilledCallReadsBack(finish.item, Received(Sent(effects, finish)), render);
    }
  }

  lemma CarriedFields(call: Json, item: Json, id: string, name: string, arguments: string, render: Json -> string)
    requires Carries(call, item, render)
    requires Identified(item, id) && Named(item, name) && Argued(item, arguments, render)
    ensures Reads(call, id, name, arguments)
  {
    ItemFields(item, render);
  }

  /**
   In any stream that is left to its items, every named call finished at position `i` is a call of the
   step, with its own id, name and arguments; or some call of the stream could not be parsed.
   */
  lemma StreamedCallReachesTheStep<Call>(
    effects: seq<Effect>, i: nat, id: string, name: string, arguments: string,
    render: Json -> string, parse: Json -> Option<Call>)
    requires i < |effects| && effects[i].FinishItem? && IsCallItem(effects[i].item)
    requires Identified(effects[i].item, id) && Named(effects[i].item, name)
    requires Receives(effects[..i], effects[i], arguments, render)
    requires LeftToItems(Gather(effects).completed)
    ensures var body := Body(Gather(effects));
            && body.Some? && Translate(body.value, render).Some?
            && Makes(ParseStep(Translate(body.value, render).value, parse), parse, id, name, arguments)
  {
    var items, n := Gather(effects).items, FinishedCount(effects[..i]);
    ItemFinishedAt(effects, i);
    FinishedCallGetsItsOwnArguments(effects, i);
    FinishedItemFields(effects[..i], effects[i], id, name, arguments, render);
    ItemsReachTheStep(items, n, render, parse);
    var step := ParseStep(Translate(Body(Gather(effects)).value, render).value, parse);
    if step.ToolStep? {
      var call :| Carries(call, items[n], render) && parse(call) == Some(step.calls[CallCount(items[..n])]);
      CarriedFields(call, items[n], id, name, arguments, render);
    }
  }

  /**
   The same for a written stream, from its lines: a named call that finished without arguments is a
   call of the step under its id and name, with exactly the arguments written for its item.
   */
  lemma WrittenCallReachesTheStep<Call>(
    events: seq<WireEvent>, i: nat, key: string, id: string, name: string,
    render: Json -> string, parse: Json -> Option<Call>)
    requires i < |events| && events[i].ItemFinished? && AwaitsArguments(events[i].item)
    requires HasText(events[i].item, "id", key) && Identified(events[i].item, id) && Named(events[i].item, name)
    requires ArgumentsWritten(events[..i], key).Some?
    requires LeftToItems(ResponseWritten(events))
    ensures var body := StreamBody(Written(events));
            && body.Some? && Translate(body.value, render).Some?
            && Makes(ParseStep(Translate(body.value, render).value, parse), parse,
                     id, name, ArgumentsWritten(events[..i], key).value)
  {
    WrittenBody(events);
    WrittenResponseIsCompleted(events);
    WrittenIsReceived(events, i, key, render);
    var effects := Meanings(events);
    StreamedCallReachesTheStep(effects, i, id, name, ArgumentsWritten(events[..i], key).value, render, parse);
  }

  lemma WrittenIsReceived(events: seq<WireEvent>, i: nat, key: string, render: Json -> string)
    requires i < |events| && events[i].ItemFinished? && AwaitsArguments(events[i].item)
    requires HasText(events[i].item, "id", key) && ArgumentsWritten(events[..i], key).Some?
    ensures |Meanings(events)| == |events|
    ensures Meanings(events)[i] == FinishItem(events[i].item, Write(events[i]))
    ensures Receives(Meanings(events)[..i], Meanings(events)[i], ArgumentsWritten(events[..i], key).value, render)
  {
    var finish, arguments := FinishItem(events[i].item, Write(events[i])), ArgumentsWritten(events[..i], key).value;
    OwnIsReceived(events[..i], finish, key, render);
    FinishedAt(events, i);
    SameReceives(Meanings(events[..i]), Meanings(events)[..i], finish, arguments, render);
  }

  lemma FinishedAt(events: seq<WireEvent>, i: nat)
    requires i < |events| && events[i].ItemFinished?
    ensures |Meanings(events)| == |events| && Meanings(events)[..i] == Meanings(events[..i])
    ensures Meanings(events)[i] == FinishItem(events[i].item, Write(events[i]))
  {
    MeaningsAt(events, i);
  }

  lemma SameReceives(a: seq<Effect>, b: seq<Effect>, finish: Effect, arguments: string, render: Json -> string)
    requires a == b && finish.FinishItem? && Receives(a, finish, arguments, render)
    ensures Receives(b, finish, arguments, render)
  {
  }

  lemma OwnIsReceived(before: seq<WireEvent>, finish: Effect, key: string, render: Json -> string)
    requires finish.FinishItem? && AwaitsArguments(finish.item)
    requires HasText(finish.item, "id", key) && ArgumentsWritten(before, key).Some?
    ensures Receives(Meanings(before), finish, ArgumentsWritten(before, key).value, render)
  {
    ItemNamesItsCall(finish.item, finish.event, key);
    WrittenArgumentsAreReceived(before, key);
    OwnIsOnArguments(Meanings(before), key);
    ArgumentsAreReceived(Own(Meanings(before), key));
  }
}
