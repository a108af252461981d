/** The agentic loop driven by a model: what a run can say about the answers behind it. */
module ModelRun {
  import opened AgentGateway
  import opened AgentLoop
  import opened JsonValues
  import opened ModelDriver
  import opened Options
  import opened PatchContract
  import opened ResponseTranslation

  function CodeName(code: FailureCode): string {
    match code
    case ProviderError => "provider_error"
    case MalformedToolCall => "malformed_tool_call"
    case ProviderProtocol => "provider_protocol"
    case EmptyAssistantResult => "empty_assistant_result"
    case ProviderCallFailed => "provider_call_failed"
  }

  /** A failure's message is represented by its code. */
  function LoopStep(step: ParsedStep<ToolCall>): AgentStep {
    match step
    case ToolStep(calls) => Tools(calls)
    case FinalStep(text) => Final(text)
    case FailedStep(code) => AgentStep.FailedStep(CodeName(code), CodeName(code))
  }

  /** The driver as the loop sees it: its state is the conversation so far. */
  function LoopDriver(complete: Completer, parse: Json -> Option<ToolCall>, system: string, goal: string)
    : seq<seq<ToolResult>> -> AgentStep
  {
    (fed: seq<seq<ToolResult>>) => LoopStep(LastTurn(fed, complete, parse, system, goal))
  }

  /** The conversation before the last step, and what that step was told. */
  function BeforeLast(
    fed: seq<seq<ToolResult>>, complete: Completer, parse: Json -> Option<ToolCall>, system: string, goal: string): Talk
  {
    if fed == [] then ModelDriver.Start(system, goal)
    else Converse(ModelDriver.Start(system, goal), fed[..|fed| - 1], complete, parse)
  }

  function LastTold(fed: seq<seq<ToolResult>>): seq<ToolResult> {
    if fed == [] then [] else fed[|fed| - 1]
  }

  function LastTurn(
    fed: seq<seq<ToolResult>>, complete: Completer, parse: Json -> Option<ToolCall>, system: string, goal: string)
    : ParsedStep<ToolCall>
  {
    Turn(BeforeLast(fed, complete, parse, system, goal), LastTold(fed), complete, parse).1
  }

  /** The text of a final answer, or the message of a driver failure, is what the driver said to this very run. */
  predicate SpokenBy(w: World, f: Finished) {
    var fed := f.machine.progress.fed;
    && (f.ending.ByFinalAnswer? ==> w.driver(fed) == Final(f.outcome.text))
    && (f.ending.ByDriverFailure? ==> w.driver(fed).FailedStep? && w.driver(fed).message == f.outcome.text)
  }

  lemma ToolsNeverSpeak(w: World, m: Machine, step: nat, calls: seq<ToolCall>)
    ensures RunTools(w, m, step, calls).Stop? ==>
              var ending := RunTools(w, m, step, calls).finished.ending;
              !ending.ByFinalAnswer? && !ending.ByDriverFailure?
  {
  }

  lemma {:induction false} EndingsAreSpoken(w: World, m: Machine, step: nat, budget: nat)
    requires step <= budget
    ensures SpokenBy(w, RunFrom(w, m, step, budget))
    decreases budget - step
  {
    if step < budget {
      match w.driver(m.progress.fed) {
        case Tools(calls) => ToolsNeverSpeak(w, Look(Look(m)), step, calls);
        case _ =>
      }
      match RunStep(w, m, step) {
        case Continue(next) => EndingsAreSpoken(w, next, step + 1, budget);
        case Stop(_) =>
      }
    }
  }

  /** A run driven by a model never completes on an empty answer, whatever the model answers. */
  lemma ModelRunsEndWithText(
    w: World, files: Files, maxSteps: nat, complete: Completer,
    parse: Json -> Option<ToolCall>, system: string, goal: string)
    requires w.driver == LoopDriver(complete, parse, system, goal)
    ensures var f := RunLoop(w, files, maxSteps); f.ending.ByFinalAnswer? ==> f.outcome.text != ""
  {
    EndingsAreSpoken(w, AgentLoop.Start(files), 0, Budget(maxSteps));
    var fed := RunLoop(w, files, maxSteps).machine.progress.fed;
    FinalTurnsHaveText(BeforeLast(fed, complete, parse, system, goal), LastTold(fed), complete, parse);
  }

  lemma CodeNamesDiffer(a: FailureCode, b: FailureCode)
    requires CodeName(a) == CodeName(b)
    ensures a == b
  {
    assert |CodeName(a)| == |CodeName(b)|;
  }

  /** The driver failed because a request failed or a tool call stayed malformed. */
  predicate BlamesTheCall(message: string) {
    message == CodeName(ProviderCallFailed) || message == CodeName(MalformedToolCall)
  }

  /**
   Over the responses transport, a run the driver failed blames a failed request or a malformed call,
   exactly unless the response behind its own last step was unusable.
   */
  lemma ModelFailuresAreExplained(
    w: World, files: Files, maxSteps: nat, fetch: Completer, render: Json -> string,
    parse: Json -> Option<ToolCall>, system: string, goal: string)
    requires w.driver == LoopDriver(Translating(fetch, render), parse, system, goal)
    ensures var f := RunLoop(w, files, maxSteps);
            var fed := f.machine.progress.fed;
            f.ending.ByDriverFailure? ==>
              (BlamesTheCall(f.outcome.text) <==>
                 !Unusable(Deciding(BeforeLast(fed, Translating(fetch, render), parse, system, goal), LastTold(fed),
                                    fetch, render, parse)))
  {
    var complete := Translating(fetch, render);
    EndingsAreSpoken(w, AgentLoop.Start(files), 0, Budget(maxSteps));
    var f := RunLoop(w, files, maxSteps);
    var fed := f.machine.progress.fed;
    if f.ending.ByDriverFailure? {
      StepsAreProductiveIff(BeforeLast(fed, complete, parse, system, goal), LastTold(fed), fetch, render, parse);
      var code := LastTurn(fed, complete, parse, system, goal).code;
      assert f.outcome.text == CodeName(code);
      if CodeName(code) == CodeName(ProviderCallFailed) {
        CodeNamesDiffer(code, ProviderCallFailed);
      } else if CodeName(code) == CodeName(MalformedToolCall) {
        CodeNamesDiffer(code, MalformedToolCall);
      }
    }
  }
}
