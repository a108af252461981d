/**
 Which text a response holds and in which order, key by key, and what a translated response says.

 The sixteen pointers of the fallback turn out to find nothing that its first pass has not found.
 */
module ResponseContent {
  import opened CallFields
  import opened JsonValues
  import opened Options
  import opened ResponseStream
  import opened ResponseText
  import opened ResponseTranslation
  import opened Text

  // ---- The order of the parts ----------------------------------------------------------------------------

  /** What a field contributes as content. */
  function Part(v: Json, key: string): seq<string> {
    if Field(v, key).Some? then ContentText(Field(v, key).value) else []
  }

  lemma OneMoreKey(v: Json, keys: seq<string>, key: string)
    ensures TextAtKeys(v, keys + [key]) == TextAtKeys(v, keys) + Part(v, key)
  {
    TextAtKeysSnoc(v, keys, key);
  }

  lemma OneKey(v: Json, a: string)
    ensures TextAtKeys(v, [a]) == Part(v, a)
  {
    assert [] + [a] == [a];
    OneMoreKey(v, [], a);
  }

  lemma TwoKeys(v: Json, a: string, b: string)
    ensures TextAtKeys(v, [a, b]) == Part(v, a) + Part(v, b)
  {
    OneKey(v, a);
    assert [a] + [b] == [a, b];
    OneMoreKey(v, [a], b);
  }

  lemma ThreeKeys(v: Json, a: string, b: string, c: string)
    ensures TextAtKeys(v, [a, b, c]) == Part(v, a) + Part(v, b) + Part(v, c)
  {
    TwoKeys(v, a, b);
    OneMoreKey(v, [a, b], c);
    assert [a, b] + [c] == [a, b, c];
  }

  lemma FourKeys(v: Json, a: string, b: string, c: string, d: string)
    ensures TextAtKeys(v, [a, b, c, d]) == Part(v, a) + Part(v, b) + Part(v, c) + Part(v, d)
  {
    ThreeKeys(v, a, b, c);
    OneMoreKey(v, [a, b, c], d);
    assert [a, b, c] + [d] == [a, b, c, d];
  }

  lemma FiveKeys(v: Json, a: string, b: string, c: string, d: string, e: string)
    ensures TextAtKeys(v, [a, b, c, d, e]) == Part(v, a) + Part(v, b) + Part(v, c) + Part(v, d) + Part(v, e)
  {
    FourKeys(v, a, b, c, d);
    OneMoreKey(v, [a, b, c, d], e);
    assert [a, b, c, d] + [e] == [a, b, c, d, e];
  }

  /** A string is one trimmed part unless it is blank, and numbers and such are none. */
  lemma ContentOfString(text: string)
    ensures ContentText(JString(text)) == if Trim(text) == "" then [] else [Trim(text)]
    ensures ContentText(JNull) == []
  {
  }

  /** A list gives its parts one after the other. */
  lemma {:induction false} ContentOfList(a: seq<Json>, b: seq<Json>)
    ensures ContentText(JArray(a + b)) == ContentText(JArray(a)) + ContentText(JArray(b))
    ensures |a| == 1 ==> ContentText(JArray(a)) == ContentText(a[0])
    decreases |b|
  {
    assert |a| == 1 ==> a[..0] == [];
    if b == [] {
      assert a + b == a;
    } else {
      assert (a + b)[..|a + b| - 1] == a + b[..|b| - 1];
      ContentOfList(a, b[..|b| - 1]);
    }
  }

  /** An object gives five of its fields in this order, and its content only if none of them holds text. */
  lemma ContentOfObject(v: Json)
    requires v.JObject?
    ensures var own := Part(v, "text") + Part(v, "output_text") + Part(v, "refusal") + Part(v, "value")
                       + Part(v, "parts");
            ContentText(v) == if own == [] then Part(v, "content") else own
  {
    FiveKeys(v, "text", "output_text", "refusal", "value", "parts");
  }

  function StringPart(v: Json, key: string): seq<string> {
    match Field(v, key) case Some(JString(text)) => ContentText(JString(text)) case _ => []
  }

  /** A message gives its content, texts and, if it is a string, its refusal; an answer the same from any refusal. */
  lemma TextOfMessage(v: Json)
    ensures MessageText(v) == Part(v, "content") + Part(v, "text") + Part(v, "output_text") + StringPart(v, "refusal")
    ensures TextAtKeys(v, ASSISTANT_KEYS)
         == Part(v, "content") + Part(v, "text") + Part(v, "output_text") + Part(v, "refusal")
  {
    ThreeKeys(v, "content", "text", "output_text");
    FourKeys(v, "content", "text", "output_text", "refusal");
  }

  /** A message is usable if it says something or has calls in its list. */
  lemma UsableIff(message: Option<Json>)
    ensures OutputMessage(message) <==>
            && message.Some?
            && var m := message.value;
               || Part(m, "content") + Part(m, "text") + Part(m, "output_text") + Part(m, "refusal") != []
               || (exists calls :: calls != [] && Field(m, "tool_calls") == Some(JArray(calls)))
  {
    if message.Some? {
      TextOfMessage(message.value);
      AssistantTextIsTheParts(message.value);
    }
  }

  function MessagePart(v: Json, key: string): seq<string> {
    if Field(v, key).Some? then MessageText(Field(v, key).value) else []
  }

  lemma OneMoreMessage(v: Json, keys: seq<string>, key: string)
    ensures MessageTextAtKeys(v, keys + [key]) == MessageTextAtKeys(v, keys) + MessagePart(v, key)
  {
    assert (keys + [key])[..|keys|] == keys;
  }

  lemma OneMessage(v: Json, a: string)
    ensures MessageTextAtKeys(v, [a]) == MessagePart(v, a)
  {
    assert [] + [a] == [a];
    OneMoreMessage(v, [], a);
  }

  lemma TwoMessages(v: Json, a: string, b: string)
    ensures MessageTextAtKeys(v, [a, b]) == MessagePart(v, a) + MessagePart(v, b)
  {
    OneMessage(v, a);
    assert [a] + [b] == [a, b];
    OneMoreMessage(v, [a], b);
  }

  lemma ThreeMessages(v: Json, a: string, b: string, c: string)
    ensures MessageTextAtKeys(v, [a, b, c]) == MessagePart(v, a) + MessagePart(v, b) + MessagePart(v, c)
  {
    TwoMessages(v, a, b);
    OneMoreMessage(v, [a, b], c);
    assert [a, b] + [c] == [a, b, c];
  }

  /** An event gives five fields as content and then three as messages, one part a line. */
  lemma TextOfEvent(v: Json)
    ensures EventText(v)
         == Join((Part(v, "delta") + Part(v, "text") + Part(v, "output_text") + Part(v, "content") + Part(v, "refusal"))
                 + (MessagePart(v, "part") + MessagePart(v, "message") + MessagePart(v, "item")), "\n")
  {
    EventTextIsTheParts(v);
    FiveKeys(v, "delta", "text", "output_text", "content", "refusal");
    ThreeMessages(v, "part", "message", "item");
  }

  // ---- The fallback --------------------------------------------------------------------------------------

  function LikePart(v: Json, key: string): seq<string> {
    if Field(v, key).Some? then MessageLikeText(Field(v, key).value) else []
  }

  /** A field that may hold a message is looked into again, any other is content. */
  function UnknownPart(v: Json, key: string): seq<string> {
    if key == "message" || key == "data" || key == "response" then LikePart(v, key) else Part(v, key)
  }

  lemma OneMoreUnknown(v: Json, keys: seq<string>, key: string)
    requires v.JObject?
    ensures MessageLikeTextAtKeys(v, keys + [key]) == MessageLikeTextAtKeys(v, keys) + UnknownPart(v, key)
  {
    assert (keys + [key])[..|keys|] == keys;
  }

  lemma OneUnknown(v: Json, a: string)
    requires v.JObject?
    ensures MessageLikeTextAtKeys(v, [a]) == UnknownPart(v, a)
  {
    assert [] + [a] == [a];
    OneMoreUnknown(v, [], a);
  }

  lemma TwoUnknown(v: Json, a: string, b: string)
    requires v.JObject?
    ensures MessageLikeTextAtKeys(v, [a, b]) == UnknownPart(v, a) + UnknownPart(v, b)
  {
    OneUnknown(v, a);
    assert [a] + [b] == [a, b];
    OneMoreUnknown(v, [a], b);
  }

  lemma ThreeUnknown(v: Json, a: string, b: string, c: string)
    requires v.JObject?
    ensures MessageLikeTextAtKeys(v, [a, b, c]) == UnknownPart(v, a) + UnknownPart(v, b) + UnknownPart(v, c)
  {
    TwoUnknown(v, a, b);
    OneMoreUnknown(v, [a, b], c);
    assert [a, b] + [c] == [a, b, c];
  }

  lemma SixUnknown(v: Json, a: string, b: string, c: string, d: string, e: string, f: string)
    requires v.JObject?
    ensures MessageLikeTextAtKeys(v, [a, b, c, d, e, f])
         == UnknownPart(v, a) + UnknownPart(v, b) + UnknownPart(v, c)
            + UnknownPart(v, d) + UnknownPart(v, e) + UnknownPart(v, f)
  {
    ThreeUnknown(v, a, b, c);
    assert [a, b, c] + [d] == [a, b, c, d] && [a, b, c, d] + [e] == [a, b, c, d, e];
    assert [a, b, c, d, e] + [f] == [a, b, c, d, e, f];
    OneMoreUnknown(v, [a, b, c], d);
    OneMoreUnknown(v, [a, b, c, d], e);
    OneMoreUnknown(v, [a, b, c, d, e], f);
  }

  /** Values of unknown shape: three fields as content, and messages, data and responses looked into again. */
  lemma TextOfUnknown(v: Json)
    requires v.JObject?
    ensures MessageLikeText(v)
         == LikePart(v, "message") + Part(v, "content") + Part(v, "text") + Part(v, "output_text")
            + LikePart(v, "data") + LikePart(v, "response")
  {
    SixUnknown(v, "message", "content", "text", "output_text", "data", "response");
  }

  /** A list of unknown shape gives its parts one after the other, and a scalar is content. */
  lemma {:induction false} TextOfUnknownList(a: seq<Json>, b: seq<Json>)
    ensures MessageLikeText(JArray(a + b)) == MessageLikeText(JArray(a)) + MessageLikeText(JArray(b))
    ensures |a| == 1 ==> MessageLikeText(JArray(a)) == MessageLikeText(a[0])
    ensures forall v: Json :: !v.JArray? && !v.JObject? ==> MessageLikeText(v) == ContentText(v)
    decreases |b|
  {
    assert |a| == 1 ==> a[..0] == [];
    if b == [] {
      assert a + b == a;
    } else {
      assert (a + b)[..|a + b| - 1] == a + b[..|b| - 1];
      TextOfUnknownList(a, b[..|b| - 1]);
    }
  }

  /** A way through messages, data and responses to a content field. */
  predicate LeadsToContent(path: seq<string>) {
    && path != []
    && (forall k :: 0 <= k < |path| - 1 ==> path[k] in ["message", "data", "response"])
    && path[|path| - 1] in ["content", "text", "output_text"]
  }

  /** The pointer finds nothing with text. */
  predicate FindsNothing(v: Json, path: seq<string>) {
    match Pointer(v, path) case Some(child) => ContentText(child) == [] case None => true
  }

  lemma NothingThere(v: Json, key: string)
    requires v.JObject? && MessageLikeText(v) == [] && Field(v, key).Some?
    ensures key in ["content", "text", "output_text"] ==> ContentText(Field(v, key).value) == []
    ensures key in ["message", "data", "response"] ==> MessageLikeText(Field(v, key).value) == []
  {
    TextOfUnknown(v);
    assert |MessageLikeText(v)| == 0;
  }

  lemma {:induction false} DeadPath(v: Json, path: seq<string>)
    requires MessageLikeText(v) == [] && LeadsToContent(path)
    ensures FindsNothing(v, path)
    decreases |path|
  {
    if v.JObject? && Field(v, path[0]).Some? {
      NothingThere(v, path[0]);
      var rest := path[1..];
      if rest == [] {
        assert Pointer(v, path) == Some(Field(v, path[0]).value);
      } else {
        assert path[0] in ["message", "data", "response"] && rest[|rest| - 1] == path[|path| - 1];
        DeadPath(Field(v, path[0]).value, rest);
      }
    } else {
      assert path[0] != "0";
      assert Child(v, path[0]) == None;
    }
  }

  lemma {:induction false} DeadPaths(v: Json, paths: seq<seq<string>>)
    requires MessageLikeText(v) == [] && forall path :: path in paths ==> LeadsToContent(path)
    ensures TextAtPaths(v, paths) == []
  {
    if paths != [] {
      var last := paths[|paths| - 1];
      assert last in paths;
      DeadPath(v, last);
      DeadPaths(v, paths[..|paths| - 1]);
    }
  }

  lemma FallbackPathsLeadToContent()
    ensures forall path :: path in FALLBACK_PATHS ==> LeadsToContent(path)
  {
  }

  /** So the fallback is its first pass: where that finds no text, none of the sixteen pointers does. */
  lemma FallbackIsItsFirstPass(response: Json)
    ensures FallbackText(response) == MessageLikeText(response)
  {
    if MessageLikeText(response) == [] {
      FallbackPathsLeadToContent();
      DeadPaths(response, FALLBACK_PATHS);
    }
  }

  // ---- A translated response -----------------------------------------------------------------------------

  /** The text of an item: a message's, an output text's own, nothing for a call, and what it can find otherwise. */
  lemma TextOfItem(item: Json)
    ensures Field(item, "type") == Some(JString("message")) ==> ItemTexts(item) == MessageText(item)
    ensures Field(item, "type") == Some(JString("function_call")) ==> ItemTexts(item) == []
    ensures Field(item, "type") == Some(JString("custom_tool_call")) ==> ItemTexts(item) == []
    ensures Field(item, "type") == Some(JString("output_text")) ==> ItemTexts(item) == StringPart(item, "text")
    ensures !(Field(item, "type").Some? && Field(item, "type").value.JString?) ==>
              ItemTexts(item) == MessageLikeText(item)
  {
  }

  /** The texts of an output list come item by item. */
  lemma TextsOfOneMore(items: seq<Json>, item: Json)
    ensures TextsOf(items + [item]) == TextsOf(items) + ItemTexts(item) && TextsOf([]) == []
  {
    assert (items + [item])[..|items|] == items;
  }

  /** An output object counts as a list of one, and any other output is content. */
  lemma OutputIsItsItems(response: Json, output: Json, render: Json -> string)
    requires Outputs(response, output)
    ensures output.JArray? ==>
              && OutputTexts(response) == TextsOf(output.items)
              && OutputCalls(response, render) == CallsOf(output.items, render)
    ensures output.JObject? ==>
              OutputTexts(response) == TextsOf([output]) && OutputCalls(response, render) == CallsOf([output], render)
    ensures !output.JArray? && !output.JObject? ==>
              OutputTexts(response) == ContentText(output) && OutputCalls(response, render) == []
  {
    OutputIs(response, output);
    TextsOfOneMore([], output);
    assert [] + [output] == [output] && [output][..0] == [];
  }

  /** Without an output there is neither text nor call in it. */
  lemma NoOutput(response: Json, render: Json -> string)
    requires forall output :: !Outputs(response, output)
    ensures OutputTexts(response) == [] && OutputCalls(response, render) == []
  {
    if Output(response).Some? {
      OutputIs(response, Output(response).value);
    }
  }

  /** The message of a chat completion, its finish reason and the usage it passes on. */
  predicate Says(completion: Json, role: string, content: Json, finishReason: string, usage: Json) {
    && Pointer(completion, ["choices", "0", "message", "role"]) == Some(JString(role))
    && Pointer(completion, ["choices", "0", "message", "content"]) == Some(content)
    && Pointer(completion, ["choices", "0", "finish_reason"]) == Some(JString(finishReason))
    && Pointer(completion, ["choices", "0", "index"]) == Some(JInteger(0))
    && Field(completion, "usage") == Some(usage)
  }

  lemma MessageField(completion: Json, message: Json, key: string)
    requires Pointer(completion, CHOICE) == Some(message)
    ensures Pointer(completion, ["choices", "0", "message", key]) == Child(message, key)
  {
    PointerAppend(completion, CHOICE, [key]);
    assert CHOICE + [key] == ["choices", "0", "message", key] && [key][1..] == [];
  }

  lemma {:induction false} PointerAppend(v: Json, a: seq<string>, b: seq<string>)
    ensures Pointer(v, a + b) == match Pointer(v, a) case Some(child) => Pointer(child, b) case None => None
    decreases |a|
  {
    if a == [] {
      assert a + b == b;
    } else {
      assert (a + b)[0] == a[0] && (a + b)[1..] == a[1..] + b;
      if Child(v, a[0]).Some? {
        PointerAppend(Child(v, a[0]).value, a[1..], b);
      }
    }
  }

  lemma CompletionSays(response: Json, message: Json, role: string, content: Json, finishReason: string)
    requires Field(message, "role") == Some(JString(role)) && Field(message, "content") == Some(content)
    ensures Says(Completion(response, message, finishReason), role, content, finishReason,
                 Field(response, "usage").GetOr(JNull))
  {
    var c := Completion(response, message, finishReason);
    CompletionReadsBack(response, message, finishReason);
    MessageField(c, message, "role");
    MessageField(c, message, "content");
    PointerStep(c, "choices", "finish_reason", c.fields["choices"]);
    PointerStep(c, "choices", "index", c.fields["choices"]);
  }

  /** The answer's parts: the texts of the output, else the flat text, else, without calls, whatever looks like one. */
  predicate AnswersWith(response: Json, render: Json -> string, parts: seq<string>) {
    var flat := if Field(response, "output_text").Some? then Field(response, "output_text")
                else Pointer(response, ["response", "output_text"]);
    if OutputTexts(response) != [] then parts == OutputTexts(response)
    else if flat.Some? && flat.value.JString? then parts == [flat.value.text]
    else if OutputCalls(response, render) != [] then parts == []
    else parts == MessageLikeText(response)
  }

  lemma AnswersAreTheParts(response: Json, render: Json -> string, parts: seq<string>)
    requires AnswersWith(response, render, parts)
    ensures AnswerParts(response, render) == parts
  {
    FallbackIsItsFirstPass(response);
  }

  /** A response without a usable choice becomes an assistant's message of those parts, trimmed, with its calls. */
  lemma TranslationSays(response: Json, render: Json -> string, parts: seq<string>)
    requires !HasUsableChoice(response) && !HasNestedChoice(response) && AnswersWith(response, render, parts)
    ensures var (text, calls) := (Trim(Join(parts, "\n")), OutputCalls(response, render));
            var usage := Field(response, "usage").GetOr(JNull);
            if calls == [] && text == "" then Translate(response, render) == None
            else
              Translate(response, render).Some?
              && Says(Translate(response, render).value, "assistant",
                      if text == "" then JNull else JString(text), if calls == [] then "stop" else "tool_calls", usage)
  {
    AnswersAreTheParts(response, render, parts);
    var text, calls := Trim(Join(parts, "\n")), OutputCalls(response, render);
    if calls != [] {
      CompletionSays(response, CallMessage(text, calls), "assistant",
                     if text == "" then JNull else JString(text), "tool_calls");
    } else if text != "" {
      CompletionSays(response, TextMessage(text), "assistant", JString(text), "stop");
    }
  }

  /** A usable choice is kept: the response's own as it is, a nested one as the only choice. */
  lemma ChoicesAreKept(response: Json, render: Json -> string)
    ensures OutputMessage(Pointer(response, ["choices", "0", "message"])) ==>
              Translate(response, render) == Some(response)
    ensures var nested := Pointer(response, ["response", "choices", "0", "message"]);
            !OutputMessage(Pointer(response, ["choices", "0", "message"])) && OutputMessage(nested) ==>
              && Translate(response, render).Some?
              && var completion := Translate(response, render).value;
                 && Pointer(completion, ["choices", "0", "message"]) == nested
                 && Pointer(completion, ["choices", "0", "finish_reason"]) == Some(JString("stop"))
                 && Field(completion, "usage") == Some(Field(response, "usage").GetOr(JNull))
  {
    if !HasUsableChoice(response) && HasNestedChoice(response) {
      var message := Pointer(response, NESTED_CHOICE).value;
      CompletionReadsBack(response, message, "stop");
      var c := Completion(response, message, "stop");
      PointerStep(c, "choices", "finish_reason", c.fields["choices"]);
    }
  }

  // ---- The step of a completion --------------------------------------------------------------------------

  /** An error comes first, then a missing message, then the calls, then the text. */
  lemma StepIs<Call>(response: Json, parse: Json -> Option<Call>)
    ensures Field(response, "error").Some? ==> ParseStep(response, parse) == FailedStep(ProviderError)
    ensures Field(response, "error").None? && Pointer(response, ["choices", "0", "message"]).None? ==>
              ParseStep(response, parse) == FailedStep(ProviderProtocol)
  {
  }

  lemma StepOfMessage<Call>(response: Json, message: Json, parse: Json -> Option<Call>)
    requires Field(response, "error").None? && Pointer(response, ["choices", "0", "message"]) == Some(message)
    ensures var (step, text) := (ParseStep(response, parse), AssistantText(message));
            var calls := FieldArray(message, "tool_calls").GetOr([]);
            if calls != [] then
              if ParseCalls(calls, parse).Some? then step == ToolStep(ParseCalls(calls, parse).value)
              else step == FailedStep(MalformedToolCall)
            else if FieldArray(message, "tool_calls").Some?
                    && Pointer(response, ["choices", "0", "finish_reason"]) == Some(JString("tool_calls"))
            then step == FailedStep(ProviderProtocol)
            else if text.Some? then step == FinalStep(text.value)
            else if Field(message, "content").Some? then step == FailedStep(EmptyAssistantResult)
            else step == FailedStep(ProviderProtocol)
  {
  }
}
