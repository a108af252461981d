/**
 Collecting the readable text of a provider response.

 The functions give the parts each collector appends, the methods append them the way the code
 does.  Every part is trimmed and non-empty, so a joined text is blank only when nothing was
 collected.
 */
module ResponseText {
  import opened Options
  import opened JsonValues
  import opened Text

  const CONTENT_KEYS := ["text", "output_text", "refusal", "value", "parts"]
  const ASSISTANT_KEYS := ["content", "text", "output_text", "refusal"]
  const MESSAGE_KEYS := ["content", "text", "output_text"]
  const EVENT_KEYS := ["delta", "text", "output_text", "content", "refusal"]
  const EVENT_MESSAGE_KEYS := ["part", "message", "item"]
  const MESSAGE_LIKE_KEYS := ["message", "content", "text", "output_text", "data", "response"]

  function Nonempty(text: string): seq<string> {
    if Trim(text) == "" then [] else [Trim(text)]
  }

  // ---- Content: a string, a list of parts, or an object holding them ---------------------------------

  function ContentText(content: Json): seq<string>
    decreases content, 2, 0
  {
    match content
    case JString(text) => Nonempty(text)
    case JArray(parts) => ContentTexts(parts)
    case JObject(_) =>
      var own := TextAtKeys(content, CONTENT_KEYS);
      if own == [] then TextAt(content, "content") else own
    case _ => []
  }

  function ContentTexts(parts: seq<Json>): seq<string>
    decreases parts
  {
    if parts == [] then [] else ContentTexts(parts[..|parts| - 1]) + ContentText(parts[|parts| - 1])
  }

  function TextAt(value: Json, key: string): seq<string>
    decreases value, 0, 0
  {
    if value.JObject? && key in value.fields then ContentText(value.fields[key]) else []
  }

  function TextAtKeys(value: Json, keys: seq<string>): seq<string>
    decreases value, 1, |keys|
  {
    if keys == [] then [] else TextAtKeys(value, keys[..|keys| - 1]) + TextAt(value, keys[|keys| - 1])
  }

  method CollectContentText(content: Json, parts: seq<string>) returns (out: seq<string>)
    ensures out == parts + ContentText(content)
    decreases content
  {
    out := parts;
    match content {
      case JString(text) => out := PushNonemptyText(parts, text);
      case JArray(items) =>
        for i := 0 to |items|
          invariant out == parts + ContentTexts(items[..i])
        {
          assert items[..i + 1][..i] == items[..i];
          out := CollectContentText(items[i], out);
        }
        assert items[..|items|] == items;
      case JObject(fields) =>
        for i := 0 to |CONTENT_KEYS|
          invariant out == parts + TextAtKeys(content, CONTENT_KEYS[..i])
        {
          assert CONTENT_KEYS[..i + 1][..i] == CONTENT_KEYS[..i];
          if CONTENT_KEYS[i] in fields {
            out := CollectContentText(fields[CONTENT_KEYS[i]], out);
          }
        }
        assert CONTENT_KEYS[..|CONTENT_KEYS|] == CONTENT_KEYS;
        if |out| == |parts| && "content" in fields {
          out := CollectContentText(fields["content"], out);
        }
      case _ =>
    }
  }

  method PushNonemptyText(parts: seq<string>, text: string) returns (out: seq<string>)
    ensures out == parts + Nonempty(text)
  {
    var trimmed := Trim(text);
    out := parts;
    if trimmed != "" {
      out := out + [trimmed];
    }
  }

  // ---- Messages and stream events --------------------------------------------------------------------

  function MessageText(item: Json): seq<string> {
    var refusal := match FieldString(item, "refusal") case Some(refusal) => Nonempty(refusal) case None => [];
    TextAtKeys(item, MESSAGE_KEYS) + refusal
  }

  function AssistantText(message: Json): Option<string> {
    var text := Trim(Join(TextAtKeys(message, ASSISTANT_KEYS), "\n"));
    if text == "" then None else Some(text)
  }

  predicate HasAssistantOutput(message: Json) {
    AssistantText(message).Some? || FieldArray(message, "tool_calls").GetOr([]) != []
  }

  function MessageTextAtKeys(event: Json, keys: seq<string>): seq<string> {
    if keys == [] then []
    else
      var last := match Field(event, keys[|keys| - 1]) case Some(child) => MessageText(child) case None => [];
      MessageTextAtKeys(event, keys[..|keys| - 1]) + last
  }

  function EventText(event: Json): string {
    Trim(Join(TextAtKeys(event, EVENT_KEYS) + MessageTextAtKeys(event, EVENT_MESSAGE_KEYS), "\n"))
  }

  // ---- Responses of unknown shape --------------------------------------------------------------------

  function MessageLikeText(value: Json): seq<string>
    decreases value, 1, 0
  {
    match value
    case JArray(items) => MessageLikeTexts(items)
    case JObject(_) => MessageLikeTextAtKeys(value, MESSAGE_LIKE_KEYS)
    case _ => ContentText(value)
  }

  function MessageLikeTexts(items: seq<Json>): seq<string>
    decreases items
  {
    if items == [] then [] else MessageLikeTexts(items[..|items| - 1]) + MessageLikeText(items[|items| - 1])
  }

  function MessageLikeTextAtKeys(value: Json, keys: seq<string>): seq<string>
    requires value.JObject?
    decreases value, 0, |keys|
  {
    if keys == [] then []
    else
      var key := keys[|keys| - 1];
      MessageLikeTextAtKeys(value, keys[..|keys| - 1])
      + if key !in value.fields then []
        else if key == "message" || key == "data" || key == "response" then MessageLikeText(value.fields[key])
        else ContentText(value.fields[key])
  }

  const FALLBACK_PATHS := [
    ["content"], ["text"],
    ["message", "content"], ["message", "text"], ["message", "output_text"],
    ["response", "content"], ["response", "text"],
    ["response", "message", "content"], ["response", "message", "text"], ["response", "message", "output_text"],
    ["data", "content"], ["data", "text"], ["data", "output_text"],
    ["data", "response", "content"], ["data", "response", "text"], ["data", "response", "output_text"]]

  function TextAtPaths(response: Json, paths: seq<seq<string>>): seq<string> {
    if paths == [] then []
    else
      var last := match Pointer(response, paths[|paths| - 1]) case Some(v) => ContentText(v) case None => [];
      TextAtPaths(response, paths[..|paths| - 1]) + last
  }

  function FallbackText(response: Json): seq<string> {
    var messageLike := MessageLikeText(response);
    if messageLike != [] then messageLike else TextAtPaths(response, FALLBACK_PATHS)
  }

  // ---- No collector ever produces a blank or untrimmed part -------------------------------------------

  lemma {:induction false} ContentTextIsClean(content: Json)
    ensures NonemptyTight(ContentText(content))
    decreases content, 2, 0
  {
    match content
    case JString(text) => TrimIsTight(text);
    case JArray(parts) => ContentTextsAreClean(parts);
    case JObject(_) =>
      TextAtKeysIsClean(content, CONTENT_KEYS);
      TextAtIsClean(content, "content");
    case _ =>
  }

  lemma {:induction false} ContentTextsAreClean(parts: seq<Json>)
    ensures NonemptyTight(ContentTexts(parts))
    decreases parts
  {
    if parts != [] {
      ContentTextsAreClean(parts[..|parts| - 1]);
      ContentTextIsClean(parts[|parts| - 1]);
    }
  }

  lemma {:induction false} TextAtIsClean(value: Json, key: string)
    ensures NonemptyTight(TextAt(value, key))
    decreases value, 0, 0
  {
    if value.JObject? && key in value.fields {
      ContentTextIsClean(value.fields[key]);
    }
  }

  lemma {:induction false} TextAtKeysIsClean(value: Json, keys: seq<string>)
    ensures NonemptyTight(TextAtKeys(value, keys))
    decreases value, 1, |keys|
  {
    if keys != [] {
      TextAtKeysIsClean(value, keys[..|keys| - 1]);
      TextAtIsClean(value, keys[|keys| - 1]);
    }
  }

  lemma MessageTextIsClean(item: Json)
    ensures NonemptyTight(MessageText(item))
  {
    TextAtKeysIsClean(item, MESSAGE_KEYS);
    match FieldString(item, "refusal") {
      case Some(refusal) => TrimIsTight(refusal);
      case None =>
    }
  }

  lemma {:induction false} MessageTextAtKeysIsClean(event: Json, keys: seq<string>)
    ensures NonemptyTight(MessageTextAtKeys(event, keys))
  {
    if keys != [] {
      MessageTextAtKeysIsClean(event, keys[..|keys| - 1]);
      match Field(event, keys[|keys| - 1]) {
        case Some(child) => MessageTextIsClean(child);
        case None =>
      }
    }
  }

  lemma CleanAppend(a: seq<string>, b: seq<string>)
    requires NonemptyTight(a) && NonemptyTight(b)
    ensures NonemptyTight(a + b)
  {
  }

  /** The text of an event is its parts joined, and empty only when there are none. */
  lemma EventTextIsTheParts(event: Json)
    ensures var parts := TextAtKeys(event, EVENT_KEYS) + MessageTextAtKeys(event, EVENT_MESSAGE_KEYS);
            EventText(event) == Join(parts, "\n") && (EventText(event) == "" <==> parts == [])
  {
    var parts := TextAtKeys(event, EVENT_KEYS) + MessageTextAtKeys(event, EVENT_MESSAGE_KEYS);
    TextAtKeysIsClean(event, EVENT_KEYS);
    MessageTextAtKeysIsClean(event, EVENT_MESSAGE_KEYS);
    CleanAppend(TextAtKeys(event, EVENT_KEYS), MessageTextAtKeys(event, EVENT_MESSAGE_KEYS));
    JoinOfTight(parts, "\n");
    TrimOfTight(Join(parts, "\n"));
  }

  lemma {:induction false} MessageLikeTextIsClean(value: Json)
    ensures NonemptyTight(MessageLikeText(value))
    decreases value, 1, 0
  {
    match value
    case JArray(items) => MessageLikeTextsAreClean(items);
    case JObject(_) => MessageLikeTextAtKeysIsClean(value, MESSAGE_LIKE_KEYS);
    case _ => ContentTextIsClean(value);
  }

  lemma {:induction false} MessageLikeTextsAreClean(items: seq<Json>)
    ensures NonemptyTight(MessageLikeTexts(items))
    decreases items
  {
    if items != [] {
      MessageLikeTextsAreClean(items[..|items| - 1]);
      MessageLikeTextIsClean(items[|items| - 1]);
    }
  }

  lemma {:induction false} MessageLikeTextAtKeysIsClean(value: Json, keys: seq<string>)
    requires value.JObject?
    ensures NonemptyTight(MessageLikeTextAtKeys(value, keys))
    decreases value, 0, |keys|
  {
    if keys != [] {
      MessageLikeTextAtKeysIsClean(value, keys[..|keys| - 1]);
      var key := keys[|keys| - 1];
      if key in value.fields {
        if key == "message" || key == "data" || key == "response" {
          MessageLikeTextIsClean(value.fields[key]);
        } else {
          ContentTextIsClean(value.fields[key]);
        }
      }
    }
  }

  lemma {:induction false} TextAtPathsIsClean(response: Json, paths: seq<seq<string>>)
    ensures NonemptyTight(TextAtPaths(response, paths))
  {
    if paths != [] {
      TextAtPathsIsClean(response, paths[..|paths| - 1]);
      match Pointer(response, paths[|paths| - 1]) {
        case Some(v) => ContentTextIsClean(v);
        case None =>
      }
    }
  }

  lemma FallbackTextIsClean(response: Json)
    ensures NonemptyTight(FallbackText(response))
  {
    MessageLikeTextIsClean(response);
    TextAtPathsIsClean(response, FALLBACK_PATHS);
  }

  /** An assistant text exists exactly when something was collected, and it is the collected parts themselves. */
  lemma AssistantTextIsTheParts(message: Json)
    ensures AssistantText(message).Some? <==> TextAtKeys(message, ASSISTANT_KEYS) != []
    ensures AssistantText(message).Some? ==>
              AssistantText(message).value == Join(TextAtKeys(message, ASSISTANT_KEYS), "\n") != ""
  {
    var parts := TextAtKeys(message, ASSISTANT_KEYS);
    TextAtKeysIsClean(message, ASSISTANT_KEYS);
    JoinOfTight(parts, "\n");
    TrimOfTight(Join(parts, "\n"));
  }
}
