/** What a translated tool call says, read with pointers, and where its fields come from. */
module CallFields {
  import opened JsonValues
  import opened Options
  import opened ResponseStream
  import opened ResponseTranslation
  import Text

  // ---- The fields of an item -----------------------------------------------------------------------------

  predicate HasText(v: Json, key: string, text: string) { Field(v, key) == Some(JString(text)) }

  predicate IsCallItem(item: Json) {
    HasText(item, "type", "function_call") || HasText(item, "type", "custom_tool_call")
  }

  /** The name stands in the item itself, or else in its function. */
  predicate Named(item: Json, name: string) {
    || HasText(item, "name", name)
    || (Field(item, "name").None? && Pointer(item, ["function", "name"]) == Some(JString(name)))
  }

  /** String arguments are passed on, others rendered; `input` stands in for absent ones, then an empty object. */
  predicate Argued(item: Json, arguments: string, render: Json -> string) {
    match (Field(item, "arguments"), Field(item, "input"))
    case (Some(JString(text)), _) => arguments == text
    case (Some(other), _) => arguments == render(other)
    case (None, Some(JString(text))) => arguments == text
    case (None, Some(other)) => arguments == render(other)
    case (None, None) => arguments == "{}"
  }

  /** The call id, or the item's own id if there is none; a fixed one unless that is a string. */
  predicate Identified(item: Json, id: string) {
    match (Field(item, "call_id"), Field(item, "id"))
    case (Some(JString(text)), _) => id == text
    case (None, Some(JString(text))) => id == text
    case _ => id == "call_responses"
  }

  ghost predicate IsNamedCall(item: Json) { IsCallItem(item) && exists name :: Named(item, name) }

  lemma ItemFields(item: Json, render: Json -> string)
    ensures IsCall(item) <==> IsCallItem(item)
    ensures forall name :: Named(item, name) <==> CallName(item) == Some(name)
    ensures forall id :: Identified(item, id) <==> CallId(item) == id
    ensures forall arguments :: Argued(item, arguments, render) <==> CallArguments(item, render) == arguments
  {
  }

  // ---- The fields of a tool call -------------------------------------------------------------------------

  /** A chat tool call with this id, name and arguments. */
  predicate Reads(call: Json, id: string, name: string, arguments: string) {
    && Field(call, "id") == Some(JString(id)) && Field(call, "type") == Some(JString("function"))
    && Pointer(call, ["function", "name"]) == Some(JString(name))
    && Pointer(call, ["function", "arguments"]) == Some(JString(arguments))
  }

  /** The call says what the item says. */
  ghost predicate Carries(call: Json, item: Json, render: Json -> string) {
    exists id, name, arguments ::
      Reads(call, id, name, arguments) && Identified(item, id) && Named(item, name) && Argued(item, arguments, render)
  }

  lemma ChatCallReads(id: string, name: string, arguments: string)
    ensures Reads(ChatCall(id, name, arguments), id, name, arguments)
  {
    var call := ChatCall(id, name, arguments);
    var function' := call.fields["function"];
    assert ["function", "name"][1..] == ["name"] && ["function", "arguments"][1..] == ["arguments"];
    assert ["name"][1..] == [] && ["arguments"][1..] == [];
    assert Child(call, "function") == Some(function');
    assert Pointer(function', ["name"]) == Some(JString(name));
    assert Pointer(function', ["arguments"]) == Some(JString(arguments));
  }

  lemma ItemCallCarries(item: Json, render: Json -> string)
    requires IsCall(item) && CallName(item).Some?
    ensures Carries(ChatCall(CallId(item), CallName(item).value, CallArguments(item, render)), item, render)
  {
    ItemFields(item, render);
    ChatCallReads(CallId(item), CallName(item).value, CallArguments(item, render));
  }

  // ---- The calls of an output list -----------------------------------------------------------------------

  /** How many of the items are named calls. */
  ghost function CallCount(items: seq<Json>): nat {
    if items == [] then 0 else CallCount(items[..|items| - 1]) + if IsNamedCall(items[|items| - 1]) then 1 else 0
  }

  lemma {:induction false} CallsAreCounted(items: seq<Json>, render: Json -> string)
    ensures |CallsOf(items, render)| == CallCount(items)
  {
    if items != [] {
      CallsAreCounted(items[..|items| - 1], render);
      ItemFields(items[|items| - 1], render);
    }
  }

  lemma CallOfNamedItem(items: seq<Json>, n: nat, render: Json -> string)
    requires n < |items| && IsNamedCall(items[n])
    ensures CallCount(items[..n]) < |CallsOf(items, render)|
    ensures Carries(CallsOf(items, render)[CallCount(items[..n])], items[n], render)
  {
    ItemFields(items[n], render);
    CallOfItemAt(items, n, render);
    CallsAreCounted(items[..n], render);
    ItemCallCarries(items[n], render);
  }

  const TOOL_CALLS := ["choices", "0", "message", "tool_calls"]

  lemma CompletionCalls(response: Json, content: string, calls: seq<Json>)
    ensures Pointer(Completion(response, CallMessage(content, calls), "tool_calls"), TOOL_CALLS) == Some(JArray(calls))
  {
    var message := CallMessage(content, calls);
    var c := Completion(response, message, "tool_calls");
    var choices := c.fields["choices"];
    var first := choices.items[0];
    assert TOOL_CALLS[1..] == ["0", "message", "tool_calls"];
    assert ["0", "message", "tool_calls"][1..] == ["message", "tool_calls"];
    assert ["message", "tool_calls"][1..] == ["tool_calls"] && ["tool_calls"][1..] == [];
    assert Child(c, "choices") == Some(choices) && Child(choices, "0") == Some(first);
    assert Child(first, "message") == Some(message) && Child(message, "tool_calls") == Some(JArray(calls));
    assert Pointer(message, ["tool_calls"]) == Some(JArray(calls));
    assert Pointer(first, ["message", "tool_calls"]) == Some(JArray(calls));
    assert Pointer(choices, ["0", "message", "tool_calls"]) == Some(JArray(calls));
  }

  /** The output of a response stands in the response itself, or else in the one it wraps. */
  predicate Outputs(response: Json, output: Json) {
    || Field(response, "output") == Some(output)
    || (Field(response, "output").None? && Pointer(response, ["response", "output"]) == Some(output))
  }

  lemma OutputIs(response: Json, output: Json)
    ensures Outputs(response, output) <==> Output(response) == Some(output)
  {
  }

  /** A translated output list: as many calls as it has named call items, each with the fields of its item. */
  lemma TranslatedCallsCarryTheirItems(response: Json, items: seq<Json>, render: Json -> string)
    returns (calls: seq<Json>)
    requires !HasUsableChoice(response) && !HasNestedChoice(response)
    requires Outputs(response, JArray(items)) && CallCount(items) > 0
    ensures Translate(response, render).Some?
    ensures Pointer(Translate(response, render).value, TOOL_CALLS) == Some(JArray(calls)) && |calls| == CallCount(items)
    ensures forall n :: 0 <= n < |items| && IsNamedCall(items[n]) ==>
              CallCount(items[..n]) < |calls| && Carries(calls[CallCount(items[..n])], items[n], render)
  {
    calls := CallsOf(items, render);
    OutputIs(response, JArray(items));
    CallsAreCounted(items, render);
    var content := Text.Trim(Text.Join(AnswerParts(response, render), "\n"));
    CompletionCalls(response, content, calls);
    forall n | 0 <= n < |items| && IsNamedCall(items[n])
      ensures CallCount(items[..n]) < |calls| && Carries(calls[CallCount(items[..n])], items[n], render)
    {
      CallOfNamedItem(items, n, render);
    }
  }
}
