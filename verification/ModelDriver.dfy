/**
 The driver that turns model answers into loop steps, and the transcript it keeps.

 A completer is a function of how often it has been called and of the transcript sent to it; it
 yields a chat completion or fails.
 */
module ModelDriver {
  import opened AgentGateway
  import opened JsonValues
  import opened Options
  import opened ResponseTranslation

  datatype Message =
    | Instruction(text: string)
    | Observed(results: seq<ToolResult>)
    | Reply(message: Json)
    | RetryHint

  type Completer = (nat, seq<Message>) -> Option<Json>

  datatype Talk = Talk(messages: seq<Message>, calls: nat)

  function Hear(messages: seq<Message>, observations: seq<ToolResult>): seq<Message> {
    if observations == [] then messages else messages + [Observed(observations)]
  }

  function Record(messages: seq<Message>, response: Json): seq<Message> {
    match Pointer(response, CHOICE) case Some(message) => messages + [Reply(message)] case None => messages
  }

  /** One request: the completer is asked with the transcript as it stands, and its answer is recorded. */
  function Query(t: Talk, complete: Completer, parse: Json -> Option<ToolCall>)
    : (Talk, ParsedStep<ToolCall>)
  {
    match complete(t.calls, t.messages)
    case Some(response) => (Talk(Record(t.messages, response), t.calls + 1), ParseStep(response, parse))
    case None => (Talk(t.messages, t.calls + 1), FailedStep(ProviderCallFailed))
  }

  /** `next_step`: a malformed call is pointed out once, and the second answer stands. */
  function Turn(
    t: Talk, observations: seq<ToolResult>, complete: Completer, parse: Json -> Option<ToolCall>)
    : (Talk, ParsedStep<ToolCall>)
  {
    var (first, step) := Query(Talk(Hear(t.messages, observations), t.calls), complete, parse);
    if step == FailedStep(MalformedToolCall) then
      Query(Talk(first.messages + [RetryHint], first.calls), complete, parse)
    else (first, step)
  }

  function Start(system: string, goal: string): Talk {
    Talk([Instruction(system), Instruction(goal)], 0)
  }

  class Driver {
    const complete: Completer
    const parse: Json -> Option<ToolCall>
    var messages: seq<Message>
    var calls: nat

    ghost function Contents(): Talk
      reads this
    {
      Talk(messages, calls)
    }

    constructor (complete: Completer, parse: Json -> Option<ToolCall>, system: string, goal: string)
      ensures this.complete == complete && this.parse == parse && Contents() == Start(system, goal)
    {
      this.complete, this.parse := complete, parse;
      messages, calls := [Instruction(system), Instruction(goal)], 0;
    }

    method NextStep(observations: seq<ToolResult>) returns (step: ParsedStep<ToolCall>)
      modifies this
      ensures (Contents(), step) == Turn(old(Contents()), observations, complete, parse)
    {
      if observations != [] {
        messages := messages + [Observed(observations)];
      }
      step := Request();
      if step == FailedStep(MalformedToolCall) {
        messages := messages + [RetryHint];
        step := Request();
      }
    }

    method Request() returns (step: ParsedStep<ToolCall>)
      modifies this
      ensures (Contents(), step) == Query(old(Contents()), complete, parse)
    {
      var response := complete(calls, messages);
      calls := calls + 1;
      match response {
        case Some(body) =>
          step := ParseStep(body, parse);
          match Pointer(body, CHOICE) {
            case Some(message) => messages := messages + [Reply(message)];
            case None =>
          }
        case None => step := FailedStep(ProviderCallFailed);
      }
    }
  }

  // ---- Whole conversations -----------------------------------------------------------------------------

  /** The conversation after handing over these observation lists, one per step. */
  function Converse(
    t: Talk, rounds: seq<seq<ToolResult>>, complete: Completer, parse: Json -> Option<ToolCall>)
    : Talk
  {
    if rounds == [] then t
    else Turn(Converse(t, rounds[..|rounds| - 1], complete, parse), rounds[|rounds| - 1], complete, parse).0
  }

  function Observations(messages: seq<Message>): seq<seq<ToolResult>> {
    if messages == [] then []
    else
      var earlier := Observations(messages[..|messages| - 1]);
      if messages[|messages| - 1].Observed? then earlier + [messages[|messages| - 1].results] else earlier
  }

  function NonemptyRounds(rounds: seq<seq<ToolResult>>): seq<seq<ToolResult>> {
    if rounds == [] then []
    else
      var earlier := NonemptyRounds(rounds[..|rounds| - 1]);
      if rounds[|rounds| - 1] == [] then earlier else earlier + [rounds[|rounds| - 1]]
  }

  lemma ObservationsSnoc(messages: seq<Message>, m: Message)
    ensures Observations(messages + [m]) ==
            if m.Observed? then Observations(messages) + [m.results] else Observations(messages)
  {
    assert (messages + [m])[..|messages|] == messages;
  }

  lemma AskObserves(t: Talk, complete: Completer, parse: Json -> Option<ToolCall>)
    ensures Observations(Query(t, complete, parse).0.messages) == Observations(t.messages)
  {
    match complete(t.calls, t.messages) {
      case Some(response) =>
        match Pointer(response, CHOICE) {
          case Some(message) => ObservationsSnoc(t.messages, Reply(message));
          case None =>
        }
      case None =>
    }
  }

  lemma TurnObserves(
    t: Talk, observations: seq<ToolResult>, complete: Completer, parse: Json -> Option<ToolCall>)
    ensures Observations(Turn(t, observations, complete, parse).0.messages)
         == if observations == [] then Observations(t.messages) else Observations(t.messages) + [observations]
  {
    ObservationsSnoc(t.messages, Observed(observations));
    var heard := Talk(Hear(t.messages, observations), t.calls);
    AskObserves(heard, complete, parse);
    var first, step := Query(heard, complete, parse).0, Query(heard, complete, parse).1;
    ObservationsSnoc(first.messages, RetryHint);
    AskObserves(Talk(first.messages + [RetryHint], first.calls), complete, parse);
  }

  /** The model is told every non-empty observation list exactly once, in order, whatever it answers. */
  lemma {:induction false} EveryObservationIsToldOnce(
    system: string, goal: string, rounds: seq<seq<ToolResult>>, complete: Completer, parse: Json -> Option<ToolCall>)
    ensures Observations(Converse(Start(system, goal), rounds, complete, parse).messages) == NonemptyRounds(rounds)
  {
    if rounds == [] {
      var messages: seq<Message> := [Instruction(system)];
      ObservationsSnoc([], Instruction(system));
      ObservationsSnoc(messages, Instruction(goal));
      assert [] + [Instruction(system)] == messages && messages + [Instruction(goal)] == Start(system, goal).messages;
    } else {
      var init := rounds[..|rounds| - 1];
      EveryObservationIsToldOnce(system, goal, init, complete, parse);
      TurnObserves(Converse(Start(system, goal), init, complete, parse), rounds[|rounds| - 1], complete, parse);
    }
  }

  /** Call number `c` was answered with `message` when the transcript was `before`. */
  predicate Answered(complete: Completer, c: nat, before: seq<Message>, message: Json) {
    match complete(c, before) case Some(response) => Pointer(response, CHOICE) == Some(message) case None => false
  }

  predicate AnsweredAt(t: Talk, complete: Completer, j: nat) {
    j < |t.messages| && t.messages[j].Reply? ==>
      exists c: nat :: c < t.calls && Answered(complete, c, t.messages[..j], t.messages[j].message)
  }

  /** Every recorded answer is what the completer said to exactly the transcript before it. */
  ghost predicate Faithful(t: Talk, complete: Completer) {
    forall j: nat :: j < |t.messages| ==> AnsweredAt(t, complete, j)
  }

  lemma FaithfulSnoc(t: Talk, complete: Completer, m: Message, calls: nat)
    requires Faithful(t, complete) && t.calls <= calls
    requires m.Reply? ==> t.calls < calls && Answered(complete, t.calls, t.messages, m.message)
    ensures Faithful(Talk(t.messages + [m], calls), complete)
  {
    var next := Talk(t.messages + [m], calls);
    forall j: nat | j < |next.messages| ensures AnsweredAt(next, complete, j) {
      if j < |t.messages| {
        assert AnsweredAt(t, complete, j) && next.messages[..j] == t.messages[..j];
      } else {
        assert next.messages[..j] == t.messages;
      }
    }
  }

  lemma FaithfulCalls(t: Talk, complete: Completer, calls: nat)
    requires Faithful(t, complete) && t.calls <= calls
    ensures Faithful(Talk(t.messages, calls), complete)
  {
    forall j: nat | j < |t.messages| ensures AnsweredAt(Talk(t.messages, calls), complete, j) {
      assert AnsweredAt(t, complete, j);
    }
  }

  lemma AskIsFaithful(t: Talk, complete: Completer, parse: Json -> Option<ToolCall>)
    requires Faithful(t, complete)
    ensures Faithful(Query(t, complete, parse).0, complete)
    ensures t.messages <= Query(t, complete, parse).0.messages && Query(t, complete, parse).0.calls == t.calls + 1
  {
    FaithfulCalls(t, complete, t.calls + 1);
    match complete(t.calls, t.messages) {
      case Some(response) =>
        match Pointer(response, CHOICE) {
          case Some(message) => FaithfulSnoc(t, complete, Reply(message), t.calls + 1);
          case None =>
        }
      case None =>
    }
  }

  /** A turn only adds to the transcript, asks once or twice, and twice exactly after a malformed call. */
  lemma TurnIsFaithful(
    t: Talk, observations: seq<ToolResult>, complete: Completer, parse: Json -> Option<ToolCall>)
    requires Faithful(t, complete)
    ensures var next := Turn(t, observations, complete, parse).0;
            var heard := Hear(t.messages, observations);
            && Faithful(next, complete) && t.messages <= next.messages
            && next.calls == t.calls + if AsksForMalformedCall(complete, t.calls, heard, parse) then 2 else 1
  {
    if observations != [] {
      FaithfulSnoc(t, complete, Observed(observations), t.calls);
    }
    var heard := Talk(Hear(t.messages, observations), t.calls);
    AskIsFaithful(heard, complete, parse);
    var first, step := Query(heard, complete, parse).0, Query(heard, complete, parse).1;
    if step == FailedStep(MalformedToolCall) {
      FaithfulSnoc(first, complete, RetryHint, first.calls);
      AskIsFaithful(Talk(first.messages + [RetryHint], first.calls), complete, parse);
    }
  }

  /** What call number `c` adds to the transcript it was sent: the message of its answer, if it has one. */
  function ReplyTo(complete: Completer, c: nat, before: seq<Message>): seq<Message> {
    match complete(c, before)
    case None => []
    case Some(response) =>
      (match Pointer(response, ["choices", "0", "message"]) case Some(message) => [Reply(message)] case None => [])
  }

  /**
   A turn adds the observations if there are any, then the answer, and only after a malformed call the
   hint and the second answer.
   */
  lemma TurnAppends(
    t: Talk, observations: seq<ToolResult>, complete: Completer, parse: Json -> Option<ToolCall>)
    returns (asked: seq<Message>, again: seq<Message>)
    ensures asked == t.messages + if observations == [] then [] else [Observed(observations)]
    ensures again == asked + ReplyTo(complete, t.calls, asked) + [RetryHint]
    ensures Turn(t, observations, complete, parse).0.messages
         == if AsksForMalformedCall(complete, t.calls, asked, parse)
            then again + ReplyTo(complete, t.calls + 1, again)
            else asked + ReplyTo(complete, t.calls, asked)
  {
    asked := Hear(t.messages, observations);
    again := asked + ReplyTo(complete, t.calls, asked) + [RetryHint];
    assert t.messages + [] == t.messages && asked + [] == asked && again + [] == again;
  }

  predicate AsksForMalformedCall(
    complete: Completer, c: nat, messages: seq<Message>, parse: Json -> Option<ToolCall>)
  {
    match complete(c, messages)
    case Some(response) =>
      ParseStep(response, parse).FailedStep? && ParseStep(response, parse).code == MalformedToolCall
    case None => false
  }

  /** Over any conversation, every answer on record was given to exactly the transcript before it. */
  lemma {:induction false} EveryAnswerFitsItsTranscript(
    system: string, goal: string, rounds: seq<seq<ToolResult>>, complete: Completer, parse: Json -> Option<ToolCall>)
    ensures Faithful(Converse(Start(system, goal), rounds, complete, parse), complete)
    ensures |rounds| <= Converse(Start(system, goal), rounds, complete, parse).calls <= 2 * |rounds|
  {
    if rounds != [] {
      var init := rounds[..|rounds| - 1];
      EveryAnswerFitsItsTranscript(system, goal, init, complete, parse);
      TurnIsFaithful(Converse(Start(system, goal), init, complete, parse), rounds[|rounds| - 1], complete, parse);
    }
  }

  // ---- Over the responses transport --------------------------------------------------------------------

  /** A completer that translates whatever response arrives. */
  function Translating(fetch: Completer, render: Json -> string): Completer {
    (c: nat, messages: seq<Message>) =>
      match fetch(c, messages) case Some(response) => Translate(response, render) case None => None
  }

  /** The response a step is read from: the first one, or the second if the first held a malformed call. */
  function Deciding(
    t: Talk, observations: seq<ToolResult>, fetch: Completer, render: Json -> string, parse: Json -> Option<ToolCall>)
    : Option<Json>
  {
    var heard := Talk(Hear(t.messages, observations), t.calls);
    var (first, step) := Query(heard, Translating(fetch, render), parse);
    if step == FailedStep(MalformedToolCall) then fetch(first.calls, first.messages + [RetryHint])
    else fetch(heard.calls, heard.messages)
  }

  predicate Unusable(response: Option<Json>) {
    match response case Some(body) => IsUnusable(body) case None => false
  }

  /** A step a run can go on with or report: calls, text, a malformed call or a failed request. */
  predicate Accountable(step: ParsedStep<ToolCall>) {
    Productive(step) || step == FailedStep(ProviderCallFailed)
  }

  lemma AnswerIsAccountable(t: Talk, fetch: Completer, render: Json -> string, parse: Json -> Option<ToolCall>)
    ensures Accountable(Query(t, Translating(fetch, render), parse).1) <==> !Unusable(fetch(t.calls, t.messages))
  {
    match fetch(t.calls, t.messages) {
      case Some(response) =>
        if Translate(response, render).Some? {
          TranslationIsProductive(response, render, parse);
        }
      case None =>
    }
  }

  /**
   Over the responses transport a step has calls or text, or a request failed or stayed malformed,
   exactly unless the deciding response is unusable.
   */
  lemma StepsAreProductiveIff(
    t: Talk, observations: seq<ToolResult>, fetch: Completer, render: Json -> string, parse: Json -> Option<ToolCall>)
    ensures Accountable(Turn(t, observations, Translating(fetch, render), parse).1) <==>
            !Unusable(Deciding(t, observations, fetch, render, parse))
  {
    var heard := Talk(Hear(t.messages, observations), t.calls);
    AnswerIsAccountable(heard, fetch, render, parse);
    var first := Query(heard, Translating(fetch, render), parse).0;
    AnswerIsAccountable(Talk(first.messages + [RetryHint], first.calls), fetch, render, parse);
  }

  /** Whatever the completer answers, a final step has text. */
  lemma FinalTurnsHaveText(t: Talk, observations: seq<ToolResult>, complete: Completer, parse: Json -> Option<ToolCall>)
    ensures var step := Turn(t, observations, complete, parse).1; step.FinalStep? ==> step.text != ""
  {
    var heard := Talk(Hear(t.messages, observations), t.calls);
    FinalAnswersHaveText(heard, complete, parse);
    var first := Query(heard, complete, parse).0;
    FinalAnswersHaveText(Talk(first.messages + [RetryHint], first.calls), complete, parse);
  }

  lemma FinalAnswersHaveText(t: Talk, complete: Completer, parse: Json -> Option<ToolCall>)
    ensures var step := Query(t, complete, parse).1; step.FinalStep? ==> step.text != ""
  {
    match complete(t.calls, t.messages) {
      case Some(response) => FinalStepsHaveText(response, parse);
      case None =>
    }
  }
}
