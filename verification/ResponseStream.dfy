/**
 Folding a streamed provider response into one body.

 A stream is read in three stages: lines, typed frames, and the effect each frame has on the
 accumulators.  Function-call arguments arrive in fragments for several calls at once; the lemmas
 show that every finished call receives its own fragments and nothing else.
 */
module ResponseStream {
  import opened JsonValues
  import opened Options
  import opened ResponseText
  import opened Text

  // ---- Lines and frames ------------------------------------------------------------------------------

  /** `Unnamed` is an event field without a value; `Noise` is everything else the code skips. */
  datatype Line = EventName(name: string) | Payload(body: Json) | Blank | Unnamed | Noise

  function ReadLine(line: string, decode: string -> Option<Json>): Line {
    var (isEvent, name) := StripPrefix(Trim(line), "event:");
    var (isData, raw) := StripPrefix(Trim(line), "data:");
    if line == "" then Blank
    else if line == "event" then Unnamed
    else if isEvent then (if Trim(name) == "" then Unnamed else EventName(Trim(name)))
    else if !isData || Trim(raw) == "" || Trim(raw) == "[DONE]" then Noise
    else match decode(Trim(raw)) case Some(body) => Payload(body) case None => Noise
  }

  function ReadLines(lines: seq<string>, decode: string -> Option<Json>): seq<Line> {
    if lines == [] then [] else ReadLines(lines[..|lines| - 1], decode) + [ReadLine(lines[|lines| - 1], decode)]
  }

  datatype Kind =
    | ResponseCompleted | ArgumentsDelta | ArgumentsDone | ItemAdded | ItemDone
    | TextDelta | TextDone | MessageDone | OtherKind

  datatype Frame = Frame(kind: Kind, body: Json)

  function KindOf(name: Option<string>): Kind {
    if name == Some("response.completed") then ResponseCompleted
    else if name == Some("response.function_call_arguments.delta") then ArgumentsDelta
    else if name == Some("response.function_call_arguments.done") then ArgumentsDone
    else if name == Some("response.output_item.added") then ItemAdded
    else if name == Some("response.output_item.done") then ItemDone
    else if name == Some("response.output_text.delta") then TextDelta
    else if name == Some("response.output_text.done") || name == Some("response.refusal.done")
         || name == Some("response.content_part.done") then TextDone
    else if name == Some("response.message.done") then MessageDone
    else OtherKind
  }

  /** The last event name seen; blank lines do not reset it. */
  function CurrentName(lines: seq<Line>): Option<string> {
    if lines == [] then None
    else match lines[|lines| - 1]
      case EventName(name) => Some(name)
      case _ => CurrentName(lines[..|lines| - 1])
  }

  function TypeOf(body: Json, current: Option<string>): Option<string> {
    OrElse(FieldString(body, "type"), current)
  }

  function Frames(lines: seq<Line>): seq<Frame> {
    if lines == [] then []
    else
      var earlier := lines[..|lines| - 1];
      match lines[|lines| - 1]
      case Payload(body) => Frames(earlier) + [Frame(KindOf(TypeOf(body, CurrentName(earlier))), body)]
      case _ => Frames(earlier)
  }

  // ---- What a frame does to the accumulators ---------------------------------------------------------

  datatype Effect =
    | Complete(response: Json)
    | AppendArguments(key: string, delta: string)
    | SetArguments(key: string, whole: string)
    | FinishItem(item: Json, event: Json)
    | AddText(text: string)
    | NoEffect

  function IndexKey(event: Json): Option<string> {
    match Field(event, "output_index")
    case Some(index) => (match AsIndex(index) case Some(n) => Some("output_index:" + Decimal(n)) case None => None)
    case None => None
  }

  function ItemKey(event: Json, item: Option<Json>): Option<string> {
    var id: Option<Json> := match item case Some(v) => OrElse(Field(v, "id"), Field(v, "call_id")) case None => None;
    var named: Option<Json> := OrElse(id, Field(event, "item_id"));
    match named
    case Some(JString(key)) => Some(key)
    case _ => IndexKey(event)
  }

  function EffectOf(f: Frame): Effect {
    match f.kind
    case ResponseCompleted => CompleteWith(Field(f.body, "response"))
    case ArgumentsDelta =>
      (match (ItemKey(f.body, None), FieldString(f.body, "delta"))
       case (Some(key), Some(delta)) => AppendArguments(key, delta)
       case _ => NoEffect)
    case ArgumentsDone =>
      (match (ItemKey(f.body, None), FieldString(f.body, "arguments"))
       case (Some(key), Some(whole)) => SetArguments(key, whole)
       case _ => NoEffect)
    case ItemAdded => NoEffect
    case ItemDone => (match Field(f.body, "item") case Some(item) => FinishItem(item, f.body) case None => NoEffect)
    case TextDelta => (match FieldString(f.body, "delta") case Some(delta) => AddText(delta) case None => NoEffect)
    case TextDone => AddText(EventText(f.body))
    case MessageDone =>
      (match OrElse(OrElse(Field(f.body, "message"), Field(f.body, "item")), Field(f.body, "response"))
       case Some(item) => FinishItem(item, f.body)
       case None => AddText(EventText(f.body)))
    case OtherKind =>
      (match (Field(f.body, "response"), Field(f.body, "item"))
       case (Some(response), _) => Complete(response)
       case (None, Some(item)) => FinishItem(item, f.body)
       case (None, None) => AddText(EventText(f.body)))
  }

  function CompleteWith(response: Option<Json>): Effect {
    match response case Some(v) => Complete(v) case None => NoEffect
  }

  function Effects(frames: seq<Frame>): seq<Effect> {
    if frames == [] then [] else Effects(frames[..|frames| - 1]) + [EffectOf(frames[|frames| - 1])]
  }

  datatype Gathered = Gathered(items: seq<Json>, text: string, completed: Option<Json>, arguments: map<string, string>)

  const NOTHING := Gathered([], "", None, map[])

  function Lookup(arguments: map<string, string>, key: Option<string>): Option<string> {
    match key
    case Some(k) => if k in arguments then Some(arguments[k]) else None
    case None => None
  }

  /** A function call that carries no usable arguments of its own. */
  predicate AwaitsArguments(item: Json) {
    && (FieldString(item, "type") == Some("function_call") || FieldString(item, "type") == Some("custom_tool_call"))
    && Trim(FieldString(item, "arguments").GetOr("")) == ""
  }

  function WithArguments(item: Json, arguments: string): Json
    requires item.JObject?
  {
    JObject(item.fields["arguments" := JString(arguments)])
  }

  function Filled(item: Json, event: Json, arguments: map<string, string>): Json {
    if !AwaitsArguments(item) then item
    else match OrElse(Lookup(arguments, ItemKey(event, Some(item))), Lookup(arguments, IndexKey(event)))
      case Some(streamed) => WithArguments(item, streamed)
      case None => item
  }

  function Apply(g: Gathered, e: Effect): Gathered {
    match e
    case Complete(response) => g.(completed := Some(response))
    case AppendArguments(key, delta) =>
      g.(arguments := g.arguments[key := Lookup(g.arguments, Some(key)).GetOr("") + delta])
    case SetArguments(key, whole) => g.(arguments := g.arguments[key := whole])
    case FinishItem(item, event) => g.(items := g.items + [Filled(item, event, g.arguments)])
    case AddText(text) => g.(text := g.text + text)
    case NoEffect => g
  }

  function Gather(effects: seq<Effect>): Gathered {
    if effects == [] then NOTHING else Apply(Gather(effects[..|effects| - 1]), effects[|effects| - 1])
  }

  // ---- The resulting body ----------------------------------------------------------------------------

  function NonblankString(v: Option<Json>): bool {
    match v case Some(JString(text)) => Trim(text) != "" case _ => false
  }

  predicate OutputMessage(v: Option<Json>) {
    match v case Some(message) => HasAssistantOutput(message) case None => false
  }

  /** `response_body_has_output` */
  predicate BodyHasOutput(response: Json) {
    || FieldArray(response, "output").GetOr([]) != []
    || NonblankString(Field(response, "output_text"))
    || NonblankString(Pointer(response, ["response", "output_text"]))
    || OutputMessage(Pointer(response, ["choices", "0", "message"]))
    || OutputMessage(Pointer(response, ["response", "choices", "0", "message"]))
  }

  function Body(g: Gathered): Option<Json> {
    if g.completed.Some? && BodyHasOutput(g.completed.value) then g.completed
    else if g.items != [] then Some(JObject(map["output" := JArray(g.items)]))
    else if Trim(g.text) != "" then Some(JObject(map["output_text" := JString(g.text)]))
    else None
  }

  /** The stream as a body; `None` is the error `provider returned non-JSON`. */
  function StreamBody(lines: seq<Line>): Option<Json> {
    Body(Gather(Effects(Frames(lines))))
  }

  /** Whatever the stream yields has output, and it yields nothing only if nothing usable arrived. */
  lemma StreamBodyHasOutput(lines: seq<Line>)
    ensures StreamBody(lines).Some? ==> BodyHasOutput(StreamBody(lines).value)
    ensures var g := Gather(Effects(Frames(lines)));
            StreamBody(lines).None? <==>
            (g.completed.Some? ==> !BodyHasOutput(g.completed.value)) && g.items == [] && Trim(g.text) == ""
  {
    var g := Gather(Effects(Frames(lines)));
    if g.items != [] {
      assert Field(JObject(map["output" := JArray(g.items)]), "output") == Some(JArray(g.items));
    } else {
      assert Field(JObject(map["output_text" := JString(g.text)]), "output_text") == Some(JString(g.text));
    }
  }

  method ParseTransportBody(body: string, decode: string -> Option<Json>) returns (r: Option<Json>)
    ensures r == if decode(body).Some? then decode(body) else StreamBody(ReadLines(Lines(body), decode))
  {
    if decode(body).Some? {
      return decode(body);
    }
    var lines := Lines(body);
    var g := NOTHING;
    var current: Option<string> := None;
    var i := 0;
    while i < |lines|
      invariant 0 <= i <= |lines|
      invariant HasRead(lines[..i], decode, g, current)
    {
      assert lines[..i + 1] == lines[..i] + [lines[i]];
      g, current := ReadNext(lines[..i], lines[i], decode, g, current);
      i := i + 1;
    }
    assert lines[..|lines|] == lines;
    r := Body(g);
  }

  /** The accumulators and the remembered event name after these lines. */
  ghost predicate HasRead(lines: seq<string>, decode: string -> Option<Json>, g: Gathered, current: Option<string>) {
    && current == CurrentName(ReadLines(lines, decode))
    && g == Gather(Effects(Frames(ReadLines(lines, decode))))
  }

  method ReadNext(ghost earlier: seq<string>, line: string, decode: string -> Option<Json>,
                  g: Gathered, current: Option<string>)
    returns (g': Gathered, current': Option<string>)
    requires HasRead(earlier, decode, g, current)
    ensures HasRead(earlier + [line], decode, g', current')
  {
    ghost var before := ReadLines(earlier, decode);
    var read := ReadLine(line, decode);
    ReadLinesSnoc(earlier, line, decode);
    FramesSnoc(before, read);
    g', current' := g, current;
    match read {
      case EventName(name) => current' := Some(name);
      case Payload(event) =>
        var frame := Frame(KindOf(TypeOf(event, current)), event);
        GatherSnoc(Frames(before), frame);
        g' := Apply(g, EffectOf(frame));
      case _ =>
    }
  }

  lemma ReadLinesSnoc(earlier: seq<string>, line: string, decode: string -> Option<Json>)
    ensures ReadLines(earlier + [line], decode) == ReadLines(earlier, decode) + [ReadLine(line, decode)]
  {
    assert (earlier + [line])[..|earlier|] == earlier;
  }

  lemma FramesSnoc(before: seq<Line>, line: Line)
    ensures CurrentName(before + [line]) == if line.EventName? then Some(line.name) else CurrentName(before)
    ensures Frames(before + [line]) ==
            if line.Payload?
            then Frames(before) + [Frame(KindOf(TypeOf(line.body, CurrentName(before))), line.body)]
            else Frames(before)
  {
    assert (before + [line])[..|before|] == before;
  }

  lemma GatherSnoc(frames: seq<Frame>, f: Frame)
    ensures Gather(Effects(frames + [f])) == Apply(Gather(Effects(frames)), EffectOf(f))
  {
    assert (frames + [f])[..|frames|] == frames;
    var effects := Effects(frames);
    assert (effects + [EffectOf(f)])[..|effects|] == effects;
  }
}
