/** `askDota` (src/ask.js): the question-answering exchange with the
    completion service. Both completion responses and the match summarizer
    are parameters; the model records the requests it would send. */
module Ask {
  import opened Wrappers
  import Json
  import Pricing

  const ModelName: string := "gpt-4o-mini"
  const MaxTokens: nat := 1024
  const Temperature: real := 0.7
  const ToolName: string := "fetch_match_details"

  const SystemPrompt: string :=
    "You are a knowledgeable Dota 2 assistant. Answer questions about Dota 2 heroes, items, strategies, "
    + "mechanics, meta, patches, and lore. You can fetch and analyze specific Dota 2 match details using a "
    + "tool if a user provides a match ID. Keep answers concise (under 1500 characters) and informative. "
    + "Use specific numbers and facts when possible. If a question is not related to Dota 2, politely "
    + "redirect the user to ask a Dota 2 question instead."

  /** A callable function offered to the model: its name and its one string
      parameter. */
  datatype ToolDef = ToolDef(name: string, description: string, parameter: string)

  /** The single tool of the first request: fetch a match summary by id,
      passed as a string. */
  const MatchTool: ToolDef :=
    ToolDef(ToolName, "Fetch a summary of a specific Dota 2 match by its numeric Match ID.", "match_id")

  /** The arguments of a tool call as `JSON.parse` sees them: not JSON at
      all, or an object whose `match_id` may be absent. */
  datatype ToolArguments = Unparseable | Parsed(matchId: Option<string>)

  datatype ToolCall = ToolCall(id: string, name: string, arguments: ToolArguments)

  /** The assistant message of a completion; `toolCalls` is `None` when the
      field is absent (an empty list is present). */
  datatype Reply = Reply(content: Option<string>, toolCalls: Option<seq<ToolCall>>)

  datatype Message =
    | SystemTurn(content: string)
    | UserTurn(content: string)
    | AssistantTurn(reply: Reply)
    | ToolTurn(toolCallId: string, name: string, content: string)

  /** Token usage; absent counters read as 0. */
  datatype Usage = Usage(promptTokens: Option<nat>, completionTokens: Option<nat>)

  /** A completion response, reduced to the first choice's message and the
      usage. */
  datatype Completion = Completion(reply: Reply, usage: Option<Usage>)

  datatype Request = Request(model: string, messages: seq<Message>, tools: seq<ToolDef>,
                             maxTokens: nat, temperature: Option<real>)

  datatype Answer = Answer(answer: Option<string>, tokens: nat, cost: real)

  /** `JSON.parse` threw on the arguments of the named tool call. */
  datatype AskError = MalformedArguments(toolCallId: string)

  /** The outcome of one `askDota` call and the requests it sent, in order. */
  datatype Exchange = Exchange(result: Result<Answer, AskError>, requests: seq<Request>)

  /** `response.usage?.prompt_tokens || 0` */
  function InputTokens(c: Completion): nat {
    if c.usage.Some? then c.usage.value.promptTokens.GetOr(0) else 0
  }

  /** `response.usage?.completion_tokens || 0` */
  function OutputTokens(c: Completion): nat {
    if c.usage.Some? then c.usage.value.completionTokens.GetOr(0) else 0
  }

  function InitialMessages(question: string): seq<Message> {
    [SystemTurn(SystemPrompt), UserTurn(question)]
  }

  /** The content of the tool message for one parseable call: the summary,
      the error payload when the summarizer fails, the empty string for an
      unknown function. */
  function ToolContent(call: ToolCall, summarize: Option<string> -> Result<string, string>): string
    requires call.arguments.Parsed?
  {
    if call.name == ToolName then
      match summarize(call.arguments.matchId)
      case Success(summary) => summary
      case Failure(message) => Json.ErrorPayload(message)
    else ""
  }

  /** The tool messages for `calls`, one per call in order, or the failure of
      the first call whose arguments do not parse. */
  function ToolTurns(calls: seq<ToolCall>, summarize: Option<string> -> Result<string, string>)
    : (r: Result<seq<Message>, AskError>)
    ensures r.Success? <==> forall i | 0 <= i < |calls| :: calls[i].arguments.Parsed?
    ensures r.Success? ==> |r.value| == |calls|
    ensures r.Success? ==> forall i | 0 <= i < |calls| ::
      r.value[i] == ToolTurn(calls[i].id, calls[i].name, ToolContent(calls[i], summarize))
    ensures r.Failure? ==> exists i | 0 <= i < |calls| ::
      && calls[i].arguments.Unparseable?
      && r.error == MalformedArguments(calls[i].id)
      && forall j | 0 <= j < i :: calls[j].arguments.Parsed?
  {
    if |calls| == 0 then Success([])
    else if calls[0].arguments.Unparseable? then Failure(MalformedArguments(calls[0].id))
    else
      match ToolTurns(calls[1..], summarize)
      case Failure(e) =>
        assert exists i | 0 <= i < |calls| - 1 ::
          && calls[1..][i].arguments.Unparseable?
          && e == MalformedArguments(calls[1..][i].id)
          && forall j | 0 <= j < i :: calls[1..][j].arguments.Parsed?;
        Failure(e)
      case Success(turns) =>
        Success([ToolTurn(calls[0].id, calls[0].name, ToolContent(calls[0], summarize))] + turns)
  }

  /** `askDota(question)`, where `first` and `second` are the completion
      service's answers to the first and (if made) second request. */
  function AskDota(question: string, first: Completion, second: Completion,
                   summarize: Option<string> -> Result<string, string>): (x: Exchange)
    ensures 1 <= |x.requests| <= 2
    ensures |x.requests| == 2 <==> first.reply.toolCalls.Some? && ToolTurns(first.reply.toolCalls.value, summarize).Success?
    ensures x.result.Failure? ==> |x.requests| == 1 && first.reply.toolCalls.Some?
  {
    var opening := Request(ModelName, InitialMessages(question), [MatchTool], MaxTokens, Some(Temperature));
    match first.reply.toolCalls
    case None =>
      var input, output := InputTokens(first), OutputTokens(first);
      Exchange(Success(Answer(first.reply.content, input + output, Pricing.CalculateCost(ModelName, input, output))),
               [opening])
    case Some(calls) =>
      match ToolTurns(calls, summarize)
      case Failure(e) => Exchange(Failure(e), [opening])
      case Success(turns) =>
        var messages := InitialMessages(question) + [AssistantTurn(first.reply)] + turns;
        var followUp := Request(ModelName, messages, [], MaxTokens, None);
        var input := InputTokens(first) + InputTokens(second);
        var output := OutputTokens(first) + OutputTokens(second);
        Exchange(Success(Answer(second.reply.content, input + output, Pricing.CalculateCost(ModelName, input, output))),
                 [opening, followUp])
  }

  /** The first request: the system and user turns, the match tool, the
      mini model with 1024 tokens at temperature 0.7. */
  lemma AskDotaOpening(question: string, first: Completion, second: Completion,
                       summarize: Option<string> -> Result<string, string>)
    ensures var x := AskDota(question, first, second, summarize);
      && 1 <= |x.requests| <= 2
      && x.requests[0].messages == [SystemTurn(SystemPrompt), UserTurn(question)]
      && x.requests[0].tools == [MatchTool]
      && x.requests[0].model == ModelName
      && x.requests[0].maxTokens == MaxTokens
      && x.requests[0].temperature == Some(Temperature)
  {
  }

  /** Without tool calls, one request is made and the first reply answers,
      with that request's usage priced at the mini rates. */
  lemma AskDotaDirect(question: string, first: Completion, second: Completion,
                      summarize: Option<string> -> Result<string, string>)
    requires first.reply.toolCalls.None?
    ensures var x := AskDota(question, first, second, summarize);
      && |x.requests| == 1
      && x.result.Success?
      && x.result.value.answer == first.reply.content
      && x.result.value.tokens == InputTokens(first) + OutputTokens(first)
      && x.result.value.cost == (InputTokens(first) as real / 1000000.0) * 0.150
                               + (OutputTokens(first) as real / 1000000.0) * 0.600
  {
  }

  /** With tool calls (even none) whose arguments all parse, a second
      request is made; it offers no tool and carries the conversation grown
      by the assistant turn and then one tool turn per call, in call order. */
  lemma AskDotaToolTurns(question: string, first: Completion, second: Completion,
                         summarize: Option<string> -> Result<string, string>)
    requires first.reply.toolCalls.Some?
    requires forall i | 0 <= i < |first.reply.toolCalls.value| ::
      first.reply.toolCalls.value[i].arguments.Parsed?
    ensures var calls := first.reply.toolCalls.value;
      var x := AskDota(question, first, second, summarize);
      && |x.requests| == 2
      && x.requests[1].model == ModelName
      && x.requests[1].maxTokens == MaxTokens
      && x.requests[1].tools == []
      && x.requests[1].temperature.None?
      && |x.requests[1].messages| == 3 + |calls|
      && x.requests[1].messages[..3]
         == [SystemTurn(SystemPrompt), UserTurn(question), AssistantTurn(first.reply)]
      && (forall i | 0 <= i < |calls| ::
            x.requests[1].messages[3 + i]
            == ToolTurn(calls[i].id, calls[i].name, ToolContent(calls[i], summarize)))
  {
    var calls := first.reply.toolCalls.value;
    var turns := ToolTurns(calls, summarize).value;
    var messages := InitialMessages(question) + [AssistantTurn(first.reply)] + turns;
    assert AskDota(question, first, second, summarize).requests[1].messages == messages;
    assert forall i | 0 <= i < |calls| :: messages[3 + i] == turns[i];
  }

  /** On the tool path the second reply answers, usage is summed over both
      responses, and pricing the sum equals pricing each response on its
      own. */
  lemma AskDotaToolUsage(question: string, first: Completion, second: Completion,
                         summarize: Option<string> -> Result<string, string>)
    requires first.reply.toolCalls.Some?
    requires forall i | 0 <= i < |first.reply.toolCalls.value| ::
      first.reply.toolCalls.value[i].arguments.Parsed?
    ensures var x := AskDota(question, first, second, summarize);
      && x.result.Success?
      && x.result.value.answer == second.reply.content
      && x.result.value.tokens
         == InputTokens(first) + OutputTokens(first) + InputTokens(second) + OutputTokens(second)
      && x.result.value.cost
         == Pricing.CalculateCost(ModelName, InputTokens(first), OutputTokens(first))
          + Pricing.CalculateCost(ModelName, InputTokens(second), OutputTokens(second))
  {
    Pricing.CostAdditive(ModelName, InputTokens(first), OutputTokens(first),
                         InputTokens(second), OutputTokens(second));
  }

  /** Tool failures are absorbed: a failing summarizer puts the error
      payload into that call's tool message, and an unknown function gets an
      empty one. */
  lemma ToolFailureAbsorbed(call: ToolCall, summarize: Option<string> -> Result<string, string>)
    requires call.arguments.Parsed?
    ensures call.name == ToolName && summarize(call.arguments.matchId).Failure? ==>
      ToolContent(call, summarize) == Json.ErrorPayload(summarize(call.arguments.matchId).error)
    ensures call.name != ToolName ==> ToolContent(call, summarize) == ""
  {
  }

  /** Unparseable arguments are not absorbed: the call fails after the
      first request and no second request is made. */
  lemma AskDotaMalformed(question: string, first: Completion, second: Completion,
                         summarize: Option<string> -> Result<string, string>)
    requires first.reply.toolCalls.Some?
    requires exists i | 0 <= i < |first.reply.toolCalls.value| ::
      first.reply.toolCalls.value[i].arguments.Unparseable?
    ensures var x := AskDota(question, first, second, summarize);
      x.result.Failure? && |x.requests| == 1
  {
  }
}
