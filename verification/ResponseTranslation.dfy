/**
 Translating a provider response into a chat completion, and reading the next step from it.

 Rendering a non-string argument value as JSON text and parsing one tool call are parameters.
 */
module ResponseTranslation {
  import opened JsonValues
  import opened Options
  import opened ResponseStream
  import opened ResponseText
  import opened Text

  // ---- The `output` list -----------------------------------------------------------------------------

  predicate IsCall(item: Json) {
    FieldString(item, "type") == Some("function_call") || FieldString(item, "type") == Some("custom_tool_call")
  }

  function CallName(item: Json): Option<string> {
    var name: Option<Json> := OrElse(Field(item, "name"), Pointer(item, ["function", "name"]));
    match name case Some(JString(text)) => Some(text) case _ => None
  }

  function CallArguments(item: Json, render: Json -> string): string {
    match OrElse(Field(item, "arguments"), Field(item, "input")).GetOr(JString("{}"))
    case JString(text) => text
    case other => render(other)
  }

  function CallId(item: Json): string {
    var id: Option<Json> := OrElse(Field(item, "call_id"), Field(item, "id"));
    match id case Some(JString(text)) => text case _ => "call_responses"
  }

  function ChatCall(id: string, name: string, arguments: string): Json {
    JObject(map[
      "id" := JString(id),
      "type" := JString("function"),
      "function" := JObject(map["name" := JString(name), "arguments" := JString(arguments)])])
  }

  /** A call item becomes a tool call only if it is named. */
  function ItemCalls(item: Json, render: Json -> string): seq<Json> {
    if IsCall(item) && CallName(item).Some?
    then [ChatCall(CallId(item), CallName(item).value, CallArguments(item, render))]
    else []
  }

  function ItemTexts(item: Json): seq<string> {
    if FieldString(item, "type") == Some("message") then MessageText(item)
    else if IsCall(item) then []
    else if FieldString(item, "type") == Some("output_text") then Nonempty(FieldString(item, "text").GetOr(""))
    else MessageLikeText(item)
  }

  function CallsOf(items: seq<Json>, render: Json -> string): seq<Json> {
    if items == [] then [] else CallsOf(items[..|items| - 1], render) + ItemCalls(items[|items| - 1], render)
  }

  function TextsOf(items: seq<Json>): seq<string> {
    if items == [] then [] else TextsOf(items[..|items| - 1]) + ItemTexts(items[|items| - 1])
  }

  function Output(response: Json): Option<Json> {
    OrElse(Field(response, "output"), Pointer(response, ["response", "output"]))
  }

  function OutputCalls(response: Json, render: Json -> string): seq<Json> {
    match Output(response)
    case Some(JArray(items)) => CallsOf(items, render)
    case Some(JObject(fields)) => ItemCalls(JObject(fields), render)
    case _ => []
  }

  function OutputTexts(response: Json): seq<string> {
    match Output(response)
    case Some(JArray(items)) => TextsOf(items)
    case Some(JObject(fields)) => ItemTexts(JObject(fields))
    case Some(value) => ContentText(value)
    case None => []
  }

  method CollectOutput(response: Json, render: Json -> string) returns (texts: seq<string>, calls: seq<Json>)
    ensures texts == OutputTexts(response) && calls == OutputCalls(response, render)
  {
    texts, calls := [], [];
    match Output(response) {
      case Some(JArray(items)) => texts, calls := CollectItems(items, render);
      case Some(JObject(fields)) => texts, calls := CollectItem(JObject(fields), render, texts, calls);
      case Some(value) => texts := CollectContentText(value, texts);
      case None =>
    }
  }

  method CollectItems(items: seq<Json>, render: Json -> string) returns (texts: seq<string>, calls: seq<Json>)
    ensures texts == TextsOf(items) && calls == CallsOf(items, render)
  {
    texts, calls := [], [];
    for i := 0 to |items|
      invariant texts == TextsOf(items[..i]) && calls == CallsOf(items[..i], render)
    {
      assert items[..i + 1][..i] == items[..i];
      texts, calls := CollectItem(items[i], render, texts, calls);
    }
    assert items[..|items|] == items;
  }

  method CollectItem(item: Json, render: Json -> string, texts: seq<string>, calls: seq<Json>)
    returns (texts': seq<string>, calls': seq<Json>)
    ensures texts' == texts + ItemTexts(item) && calls' == calls + ItemCalls(item, render)
  {
    texts', calls' := texts + ItemTexts(item), calls;
    if IsCall(item) && CallName(item).Some? {
      calls' := calls' + [ChatCall(CallId(item), CallName(item).value, CallArguments(item, render))];
    }
  }

  // ---- The chat completion ---------------------------------------------------------------------------

  function OutputText(response: Json): Option<string> {
    var text: Option<Json> := OrElse(Field(response, "output_text"), Pointer(response, ["response", "output_text"]));
    match text case Some(v) => AsString(v) case None => None
  }

  /** The parts of the answer: the output, else the flat text, else anything that looks like a message. */
  function AnswerParts(response: Json, render: Json -> string): seq<string> {
    if OutputTexts(response) != [] then OutputTexts(response)
    else match OutputText(response)
      case Some(text) => [text]
      case None => if OutputCalls(response, render) == [] then FallbackText(response) else []
  }

  function Completion(response: Json, message: Json, finishReason: string): Json {
    JObject(map[
      "choices" := JArray([JObject(map[
        "index" := JInteger(0), "message" := message, "finish_reason" := JString(finishReason)])]),
      "usage" := Field(response, "usage").GetOr(JNull)])
  }

  function TextMessage(content: string): Json {
    JObject(map["role" := JString("assistant"), "content" := JString(content)])
  }

  function CallMessage(content: string, calls: seq<Json>): Json {
    JObject(map[
      "role" := JString("assistant"),
      "content" := if content == "" then JNull else JString(content),
      "tool_calls" := JArray(calls)])
  }

  const CHOICE := ["choices", "0", "message"]
  const NESTED_CHOICE := ["response", "choices", "0", "message"]

  predicate HasUsableChoice(response: Json) { OutputMessage(Pointer(response, CHOICE)) }
  predicate HasNestedChoice(response: Json) { OutputMessage(Pointer(response, NESTED_CHOICE)) }

  /** `chat_completion_from_responses_body`; `None` is the error `no message content`. */
  function Translate(response: Json, render: Json -> string): Option<Json> {
    if HasUsableChoice(response) then Some(response)
    else if HasNestedChoice(response) then
      Some(Completion(response, Pointer(response, NESTED_CHOICE).value, "stop"))
    else
      var calls := OutputCalls(response, render);
      var content := Trim(Join(AnswerParts(response, render), "\n"));
      if calls != [] then Some(Completion(response, CallMessage(content, calls), "tool_calls"))
      else if content != "" then Some(Completion(response, TextMessage(content), "stop"))
      else None
  }

  // ---- The next step ---------------------------------------------------------------------------------

  datatype FailureCode =
    | ProviderError | MalformedToolCall | ProviderProtocol | EmptyAssistantResult | ProviderCallFailed
  datatype ParsedStep<Call> = ToolStep(calls: seq<Call>) | FinalStep(text: string) | FailedStep(code: FailureCode)

  function ParseCalls<Call>(calls: seq<Json>, parse: Json -> Option<Call>): Option<seq<Call>> {
    if calls == [] then Some([])
    else match (ParseCalls(calls[..|calls| - 1], parse), parse(calls[|calls| - 1]))
      case (Some(earlier), Some(call)) => Some(earlier + [call])
      case _ => None
  }

  function CallStep<Call>(calls: seq<Json>, parse: Json -> Option<Call>): ParsedStep<Call> {
    match ParseCalls(calls, parse) case Some(parsed) => ToolStep(parsed) case None => FailedStep(MalformedToolCall)
  }

  function MessageStep<Call>(message: Json): ParsedStep<Call> {
    match AssistantText(message)
    case Some(text) => FinalStep(text)
    case None => FailedStep(if Field(message, "content").Some? then EmptyAssistantResult else ProviderProtocol)
  }

  function ChoiceStep<Call>(message: Json, finishReason: Option<string>, parse: Json -> Option<Call>)
    : ParsedStep<Call>
  {
    match FieldArray(message, "tool_calls")
    case Some(calls) =>
      if calls != [] then CallStep(calls, parse)
      else if finishReason == Some("tool_calls") then FailedStep(ProviderProtocol)
      else MessageStep(message)
    case None => MessageStep(message)
  }

  function FinishReason(response: Json): Option<string> { PointerString(response, ["choices", "0", "finish_reason"]) }

  function ParseStep<Call>(response: Json, parse: Json -> Option<Call>): ParsedStep<Call> {
    if Field(response, "error").Some? then FailedStep(ProviderError)
    else match Pointer(response, CHOICE)
      case Some(message) => ChoiceStep(message, FinishReason(response), parse)
      case None => FailedStep(ProviderProtocol)
  }

  method ParseToolCalls<Call>(calls: seq<Json>, parse: Json -> Option<Call>) returns (step: ParsedStep<Call>)
    ensures step == CallStep(calls, parse)
  {
    var parsed: seq<Call> := [];
    for i := 0 to |calls|
      invariant ParseCalls(calls[..i], parse) == Some(parsed)
    {
      assert calls[..i + 1][..i] == calls[..i];
      match parse(calls[i]) {
        case Some(call) => parsed := parsed + [call];
        case None =>
          MalformedCallSpoilsAll(calls, i, parse);
          return FailedStep(MalformedToolCall);
      }
    }
    assert calls[..|calls|] == calls;
    step := ToolStep(parsed);
  }

  lemma {:induction false} MalformedCallSpoilsAll<Call>(calls: seq<Json>, i: nat, parse: Json -> Option<Call>)
    requires i < |calls| && parse(calls[i]).None?
    ensures ParseCalls(calls, parse).None?
    decreases |calls|
  {
    if i < |calls| - 1 {
      MalformedCallSpoilsAll(calls[..|calls| - 1], i, parse);
    }
  }

  // ---- A translated response never leads to an empty answer --------------------------------------------

  /** Something the loop can act on, or a malformed call it can retry. */
  predicate Productive<Call>(step: ParsedStep<Call>) {
    match step
    case ToolStep(calls) => calls != []
    case FinalStep(text) => text != ""
    case FailedStep(code) => code == MalformedToolCall
  }

  lemma {:induction false} ParseCallsKeepsCount<Call>(calls: seq<Json>, parse: Json -> Option<Call>)
    ensures ParseCalls(calls, parse).Some? ==> |ParseCalls(calls, parse).value| == |calls|
  {
    if calls != [] {
      ParseCallsKeepsCount(calls[..|calls| - 1], parse);
    }
  }

  lemma UsableChoiceStep<Call>(message: Json, finishReason: Option<string>, parse: Json -> Option<Call>)
    requires HasAssistantOutput(message)
    ensures Productive(ChoiceStep(message, finishReason, parse)) <==>
            !(FieldArray(message, "tool_calls") == Some([]) && finishReason == Some("tool_calls"))
  {
    match FieldArray(message, "tool_calls") {
      case Some(calls) => ParseCallsKeepsCount(calls, parse);
      case None =>
    }
  }

  lemma CompletionReadsBack(response: Json, message: Json, finishReason: string)
    ensures Pointer(Completion(response, message, finishReason), CHOICE) == Some(message)
    ensures FinishReason(Completion(response, message, finishReason)) == Some(finishReason)
    ensures Field(Completion(response, message, finishReason), "error") == None
  {
    var c := Completion(response, message, finishReason);
    var choices := c.fields["choices"];
    var first := choices.items[0];
    assert Child(c, "choices") == Some(choices) && Child(choices, "0") == Some(first);
    assert Child(first, "message") == Some(message) && Child(first, "finish_reason") == Some(JString(finishReason));
    PointerStep(c, "choices", "message", choices);
    PointerStep(c, "choices", "finish_reason", choices);
    assert Pointer(c, CHOICE) == Some(message);
    assert Pointer(c, ["choices", "0", "finish_reason"]) == Some(JString(finishReason));
    assert FinishReason(c) == Some(finishReason);
    assert "error" !in c.fields;
  }

  lemma PointerStep(v: Json, outer: string, inner: string, middle: Json)
    requires Child(v, outer) == Some(middle) && Child(middle, "0").Some?
    ensures Pointer(v, [outer, "0", inner]) == Child(Child(middle, "0").value, inner)
  {
    var path := [outer, "0", inner];
    var first := Child(middle, "0").value;
    assert [inner][1..] == [];
    assert Pointer(first, [inner]) == Child(first, inner);
    assert ["0", inner][1..] == [inner];
    assert Pointer(middle, ["0", inner]) == Child(first, inner);
    assert path[1..] == ["0", inner];
  }

  lemma TextMessageText(content: string)
    requires Tight(content) && content != ""
    ensures AssistantText(TextMessage(content)) == Some(content)
    ensures FieldArray(TextMessage(content), "tool_calls") == None
  {
    ContentAloneIsTheText(TextMessage(content), content);
  }

  lemma ContentAloneIsTheText(m: Json, content: string)
    requires Tight(content) && content != ""
    requires Field(m, "content") == Some(JString(content))
    requires Field(m, "text").None? && Field(m, "output_text").None? && Field(m, "refusal").None?
    ensures AssistantText(m) == Some(content)
  {
    TrimOfTight(content);
    assert TextAt(m, "content") == [content];
    assert TextAt(m, "text") == [] && TextAt(m, "output_text") == [] && TextAt(m, "refusal") == [];
    assert [] + ["content"] == ["content"] && ["content"] + ["text"] == ["content", "text"];
    assert ["content", "text"] + ["output_text"] == ["content", "text", "output_text"];
    assert ["content", "text", "output_text"] + ["refusal"] == ASSISTANT_KEYS;
    TextAtKeysSnoc(m, [], "content");
    TextAtKeysSnoc(m, ["content"], "text");
    TextAtKeysSnoc(m, ["content", "text"], "output_text");
    TextAtKeysSnoc(m, ["content", "text", "output_text"], "refusal");
    assert TextAtKeys(m, ASSISTANT_KEYS) == [content];
  }

  lemma TextAtKeysSnoc(value: Json, keys: seq<string>, key: string)
    ensures TextAtKeys(value, keys + [key]) == TextAtKeys(value, keys) + TextAt(value, key)
  {
    assert (keys + [key])[..|keys|] == keys;
  }

  /**
   Exactly one kind of response translates and still yields nothing: a usable choice kept with its
   error or its empty call list.
   */
  lemma TranslationIsProductive<Call>(response: Json, render: Json -> string, parse: Json -> Option<Call>)
    requires Translate(response, render).Some?
    ensures Productive(ParseStep(Translate(response, render).value, parse)) <==> !IsUnusable(response)
  {
    var body := Translate(response, render).value;
    if HasUsableChoice(response) {
      UsableChoiceStep(Pointer(response, CHOICE).value, FinishReason(response), parse);
    } else if HasNestedChoice(response) {
      var message := Pointer(response, NESTED_CHOICE).value;
      CompletionReadsBack(response, message, "stop");
      UsableChoiceStep(message, Some("stop"), parse);
    } else {
      BuiltStep(response, render, parse);
      ParseCallsKeepsCount(OutputCalls(response, render), parse);
    }
  }

  /** A ready-made choice that is kept as it is, together with an error or an announced but empty call list. */
  predicate IsUnusable(response: Json) {
    HasUsableChoice(response) && (Field(response, "error").Some? || AnnouncesNoCalls(response))
  }

  /** The choice lists no tool calls but says it stopped for them. */
  predicate AnnouncesNoCalls(response: Json) {
    && FinishReason(response) == Some("tool_calls")
    && (match Pointer(response, CHOICE)
        case Some(message) => FieldArray(message, "tool_calls") == Some([])
        case None => false)
  }

  /** Such a response: it has content, says it stopped for tool calls, and lists none. */
  lemma EmptyCallListIsUnusable<Call>(content: string, render: Json -> string, parse: Json -> Option<Call>)
    requires Tight(content) && content != ""
    ensures var message := JObject(map["content" := JString(content), "tool_calls" := JArray([])]);
            var response := Completion(JNull, message, "tool_calls");
            && IsUnusable(response) && Translate(response, render) == Some(response)
            && ParseStep(response, parse) == FailedStep(ProviderProtocol)
  {
    var message := JObject(map["content" := JString(content), "tool_calls" := JArray([])]);
    ContentAloneIsTheText(message, content);
    CompletionReadsBack(JNull, message, "tool_calls");
  }

  /** Whatever the response, a final step has text. */
  lemma FinalStepsHaveText<Call>(response: Json, parse: Json -> Option<Call>)
    ensures ParseStep(response, parse).FinalStep? ==> ParseStep(response, parse).text != ""
  {
    match Pointer(response, CHOICE) {
      case Some(message) => AssistantTextIsTheParts(message);
      case None =>
    }
  }

  /** Without any usable choice, the step is the output's calls if there are any, otherwise the collected text. */
  lemma BuiltStep<Call>(response: Json, render: Json -> string, parse: Json -> Option<Call>)
    requires !HasUsableChoice(response) && !HasNestedChoice(response)
    requires Translate(response, render).Some?
    ensures ParseStep(Translate(response, render).value, parse) ==
            if OutputCalls(response, render) != []
            then CallStep(OutputCalls(response, render), parse)
            else FinalStep(Trim(Join(AnswerParts(response, render), "\n")))
    ensures OutputCalls(response, render) == [] ==> Trim(Join(AnswerParts(response, render), "\n")) != ""
  {
    var calls := OutputCalls(response, render);
    var content := Trim(Join(AnswerParts(response, render), "\n"));
    if calls != [] {
      CompletionReadsBack(response, CallMessage(content, calls), "tool_calls");
      assert FieldArray(CallMessage(content, calls), "tool_calls") == Some(calls);
    } else {
      CompletionReadsBack(response, TextMessage(content), "stop");
      TrimIsTight(Join(AnswerParts(response, render), "\n"));
      TextMessageText(content);
    }
  }

  // ---- When translation succeeds -----------------------------------------------------------------------

  lemma {:induction false} TextsOfIsClean(items: seq<Json>)
    ensures NonemptyTight(TextsOf(items))
  {
    if items != [] {
      TextsOfIsClean(items[..|items| - 1]);
      ItemTextsIsClean(items[|items| - 1]);
    }
  }

  lemma ItemTextsIsClean(item: Json)
    ensures NonemptyTight(ItemTexts(item))
  {
    MessageTextIsClean(item);
    MessageLikeTextIsClean(item);
    TrimIsTight(FieldString(item, "text").GetOr(""));
  }

  lemma OutputTextsIsClean(response: Json)
    ensures NonemptyTight(OutputTexts(response))
  {
    match Output(response)
    case Some(JArray(items)) => TextsOfIsClean(items);
    case Some(JObject(fields)) => ItemTextsIsClean(JObject(fields));
    case Some(value) => ContentTextIsClean(value);
    case None =>
  }

  lemma CleanPartsAreNotBlank(parts: seq<string>)
    requires NonemptyTight(parts)
    ensures Trim(Join(parts, "\n")) == "" <==> parts == []
  {
    JoinOfTight(parts, "\n");
    TrimOfTight(Join(parts, "\n"));
  }

  /**
   Translation fails exactly when there is no call, no output text, and the flat text is blank or, if
   absent, nothing message-like.
   */
  lemma TranslatesIff(response: Json, render: Json -> string)
    requires !HasUsableChoice(response) && !HasNestedChoice(response)
    ensures Translate(response, render).Some? <==>
            || OutputCalls(response, render) != []
            || OutputTexts(response) != []
            || (match OutputText(response)
                case Some(text) => Trim(text) != ""
                case None => FallbackText(response) != [])
  {
    OutputTextsIsClean(response);
    FallbackTextIsClean(response);
    CleanPartsAreNotBlank(OutputTexts(response));
    CleanPartsAreNotBlank(FallbackText(response));
  }

  /** A blank flat text hides everything the fallback would have found. */
  lemma BlankFlatTextHidesTheRest(response: Json, render: Json -> string)
    requires !HasUsableChoice(response) && !HasNestedChoice(response)
    requires OutputCalls(response, render) == [] && OutputTexts(response) == []
    requires OutputText(response).Some? && Trim(OutputText(response).value) == ""
    ensures Translate(response, render) == None
  {
    TranslatesIff(response, render);
  }

  /** A response with a blank flat text and some content: the fallback would find it, and is not asked. */
  function BlankWithContent(blank: string, content: string): Json {
    JObject(map["output_text" := JString(blank), "content" := JString(content)])
  }

  lemma {:induction false} ContentIsMessageLike(value: Json, keys: seq<string>)
    requires value.JObject? && "content" in value.fields && ContentText(value.fields["content"]) != []
    requires "content" in keys
    ensures MessageLikeTextAtKeys(value, keys) != []
  {
    var last := keys[|keys| - 1];
    if last != "content" {
      assert keys == keys[..|keys| - 1] + [last];
      ContentIsMessageLike(value, keys[..|keys| - 1]);
    }
  }

  lemma BlankFlatTextHidesContent(blank: string, content: string, render: Json -> string)
    requires Trim(blank) == "" && Trim(content) != ""
    ensures FallbackText(BlankWithContent(blank, content)) != []
    ensures Translate(BlankWithContent(blank, content), render) == None
  {
    var response := BlankWithContent(blank, content);
    assert MESSAGE_LIKE_KEYS[1] == "content";
    ContentIsMessageLike(response, MESSAGE_LIKE_KEYS);
    assert Field(response, "choices") == None && Field(response, "response") == None;
    assert Field(response, "output") == None;
    assert Pointer(response, CHOICE) == None && Pointer(response, NESTED_CHOICE) == None;
    assert Output(response) == None;
    BlankFlatTextHidesTheRest(response, render);
  }

  // ---- Calls keep their order and their fields -----------------------------------------------------------

  /** The call items that have a name, in order. */
  function NamedCalls(items: seq<Json>): seq<Json> {
    if items == [] then []
    else
      var earlier, last := NamedCalls(items[..|items| - 1]), items[|items| - 1];
      if IsCall(last) && CallName(last).Some? then earlier + [last] else earlier
  }

  lemma {:induction false} CallsAreTheNamedItems(items: seq<Json>, render: Json -> string)
    ensures |CallsOf(items, render)| == |NamedCalls(items)|
    ensures forall k :: 0 <= k < |NamedCalls(items)| ==>
              && IsCall(NamedCalls(items)[k]) && CallName(NamedCalls(items)[k]).Some?
              && CallsOf(items, render)[k] == ChatCall(CallId(NamedCalls(items)[k]),
                                                       CallName(NamedCalls(items)[k]).value,
                                                       CallArguments(NamedCalls(items)[k], render))
  {
    if items != [] {
      CallsAreTheNamedItems(items[..|items| - 1], render);
    }
  }

  lemma {:induction false} CallOfItemAt(items: seq<Json>, n: nat, render: Json -> string)
    requires n < |items| && IsCall(items[n]) && CallName(items[n]).Some?
    ensures var k := |CallsOf(items[..n], render)|;
            && k < |CallsOf(items, render)|
            && CallsOf(items, render)[k]
            == ChatCall(CallId(items[n]), CallName(items[n]).value, CallArguments(items[n], render))
    decreases |items|
  {
    if n < |items| - 1 {
      CallOfItemAt(items[..|items| - 1], n, render);
      assert items[..|items| - 1][..n] == items[..n];
    }
  }

  lemma OutputReadsBack(items: seq<Json>, render: Json -> string)
    ensures OutputCalls(JObject(map["output" := JArray(items)]), render) == CallsOf(items, render)
  {
    assert Field(JObject(map["output" := JArray(items)]), "output") == Some(JArray(items));
  }

  lemma FilledCallReadsBack(item: Json, whole: string, render: Json -> string)
    requires item.JObject? && IsCall(item)
    ensures var filled := WithArguments(item, whole);
            && IsCall(filled) && CallName(filled) == CallName(item) && CallId(filled) == CallId(item)
            && CallArguments(filled, render) == whole
  {
    var filled := WithArguments(item, whole);
    forall key | key != "arguments" ensures Field(filled, key) == Field(item, key) {
    }
    SamePointer(filled, item, "function", "name");
  }

  lemma SamePointer(a: Json, b: Json, outer: string, inner: string)
    requires a.JObject? && b.JObject? && Field(a, outer) == Field(b, outer)
    ensures Pointer(a, [outer, inner]) == Pointer(b, [outer, inner])
  {
    assert [outer, inner][1..] == [inner];
  }

  lemma {:induction false} ParsedCallAt<Call>(calls: seq<Json>, k: nat, parse: Json -> Option<Call>)
    requires k < |calls| && ParseCalls(calls, parse).Some?
    ensures |ParseCalls(calls, parse).value| == |calls|
    ensures parse(calls[k]) == Some(ParseCalls(calls, parse).value[k])
    decreases |calls|
  {
    ParseCallsKeepsCount(calls, parse);
    if k < |calls| - 1 {
      ParsedCallAt(calls[..|calls| - 1], k, parse);
    }
  }

  /** A body that is only an output list with a named call translates, and its step is the list's calls. */
  lemma OutputBodyStep<Call>(items: seq<Json>, render: Json -> string, parse: Json -> Option<Call>)
    requires CallsOf(items, render) != []
    ensures var body := JObject(map["output" := JArray(items)]);
            && Translate(body, render).Some?
            && ParseStep(Translate(body, render).value, parse) == CallStep(CallsOf(items, render), parse)
  {
    var body := JObject(map["output" := JArray(items)]);
    OutputReadsBack(items, render);
    assert Field(body, "choices") == None && Field(body, "response") == None;
    assert !HasUsableChoice(body) && !HasNestedChoice(body);
    BuiltStep(body, render, parse);
  }
}
