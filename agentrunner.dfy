/**
 * The background agent's decision logic: the start/stop switch, the reading of the
 * model's `[tool:decide ...]` calls into one decision per task, the routing of a task by
 * its decision, and the bounded tool loop around the Groq model.
 *
 * The Groq client, the tool registry (tag parsing and tool execution) and the
 * task executor are foreign code: they enter as the function fields of `Groq` and as
 * function parameters. The repository of tasks is represented by the calls made to it.
 */
module AgentRunner {
  import opened Text

  // ---------------------------------------------------------------------------
  // The start/stop switch

  /** The module-level state of the runner: whether it is running, whether the poll
      timer is set, whether an API handle was given, and how many cycles were started
      at once by `startBackgroundAgent`. */
  class Agent {
    var isRunning: bool
    var polling: bool
    var hasApi: bool
    var cyclesStarted: nat

    /** The poll timer is set exactly while the agent runs. */
    predicate Valid()
      reads this
    {
      polling == isRunning
    }

    constructor()
      ensures Valid() && !isRunning && !hasApi && cyclesStarted == 0
    {
      isRunning := false;
      polling := false;
      hasApi := false;
      cyclesStarted := 0;
    }

    /** `startBackgroundAgent`: a no-op while running; otherwise it keeps the API handle,
        runs one cycle at once and sets the poll timer. */
    method Start(api: bool)
      requires Valid()
      modifies this
      ensures Valid() && isRunning
      ensures old(isRunning) ==> unchanged(this)
      ensures !old(isRunning) ==> hasApi == api && cyclesStarted == old(cyclesStarted) + 1
    {
      if isRunning {
        return;
      }
      hasApi := api;
      isRunning := true;
      cyclesStarted := cyclesStarted + 1;
      polling := true;
    }

    /** `stopBackgroundAgent`: a no-op while stopped; otherwise it clears the flag and
        the poll timer. */
    method Stop()
      requires Valid()
      modifies this
      ensures Valid() && !isRunning
      ensures !old(isRunning) ==> unchanged(this)
      ensures hasApi == old(hasApi) && cyclesStarted == old(cyclesStarted)
    {
      if !isRunning {
        return;
      }
      isRunning := false;
      if polling {
        polling := false;
      }
    }

    /** `isAgentRunning` */
    function IsAgentRunning(): (r: bool)
      requires Valid()
      reads this
      ensures r <==> polling
    {
      isRunning
    }

    /** The guard of `runAgentCycle`: a cycle does work only while running with an API
        handle. */
    function CycleProceeds(): (r: bool)
      reads this
      ensures r ==> isRunning
    {
      isRunning && hasApi
    }
  }

  // ---------------------------------------------------------------------------
  // Tool calls and decisions

  /** A parsed `[tool:name ...]` tag: the tool's name, its parameters, and the raw tag. */
  datatype ToolCall = ToolCall(toolName: string, params: map<string, string>, rawTag: string)

  /** A parameter as the source's `||` and `if` read it: a missing parameter and an
      empty one both read as "". */
  function Param(call: ToolCall, key: string): string {
    if key in call.params then call.params[key] else ""
  }

  /** A decision: the action text, the reason, and the payload adjustments if any. The
      action is kept as text, since the source does not check it against the three
      actions it knows. */
  datatype Decision = Decision(action: string, reason: string, adjustedPayload: Option<map<string, string>>)

  type Decisions = map<int, Decision>

  /** The parameters of a decide call that adjust the payload. */
  predicate IsAdjustable(key: string) {
    key == "message" || key == "resolvedThreadId" || key == "resolvedUserId"
  }

  /** The payload adjustments of a decide call: its non-empty adjustable parameters,
      or none when there are none. */
  function Adjustments(call: ToolCall): (r: Option<map<string, string>>)
    ensures r.None? <==> forall key | IsAdjustable(key) :: Param(call, key) == ""
    ensures r.Some? ==> forall key :: key in r.value <==> IsAdjustable(key) && Param(call, key) != ""
    ensures r.Some? ==> forall key | key in r.value :: r.value[key] == Param(call, key)
  {
    var m0: map<string, string> := map[];
    var m1 := if Param(call, "message") != "" then m0["message" := Param(call, "message")] else m0;
    var m2 := if Param(call, "resolvedThreadId") != "" then m1["resolvedThreadId" := Param(call, "resolvedThreadId")] else m1;
    var m3 := if Param(call, "resolvedUserId") != "" then m2["resolvedUserId" := Param(call, "resolvedUserId")] else m2;
    assert "message" in m3 <==> Param(call, "message") != "";
    assert "resolvedThreadId" in m3 <==> Param(call, "resolvedThreadId") != "";
    if |m3| > 0 then Some(m3) else None
  }

  /** The decision a decide call records, with its defaults. */
  function DecisionOf(call: ToolCall): Decision {
    Decision(
      if Param(call, "action") != "" then Param(call, "action") else "execute",
      if Param(call, "reason") != "" then Param(call, "reason") else "No reason",
      Adjustments(call))
  }

  /** `Number.parseInt(call.params.task_id, 10)`, with `None` for `NaN`. */
  function TaskIdOf(call: ToolCall): Option<int> {
    ParseInt(Param(call, "task_id"))
  }

  /** Which task a call decides: none for other tools, and none for a task id that
      reads as `NaN`. */
  function DecidedId(call: ToolCall): Option<int> {
    if call.toolName == "decide" then TaskIdOf(call) else None
  }

  /** The decide calls among all tool calls, in order. */
  function DecideCalls(calls: seq<ToolCall>): (r: seq<ToolCall>)
    ensures forall k | 0 <= k < |r| :: r[k].toolName == "decide"
  {
    if calls == [] then []
    else
      var rest := DecideCalls(calls[..|calls| - 1]);
      if calls[|calls| - 1].toolName == "decide" then rest + [calls[|calls| - 1]] else rest
  }

  /** The first loop of `parseBatchDecisions`, with the reading of a call's task id as
      `read`: each call with a task id sets that task's decision. */
  function RecordBy(calls: seq<ToolCall>, read: ToolCall -> Option<int>): Decisions {
    if calls == [] then map[]
    else
      var d := RecordBy(calls[..|calls| - 1], read);
      var c := calls[|calls| - 1];
      if read(c).Some? then d[read(c).value := DecisionOf(c)] else d
  }

  function Recorded(calls: seq<ToolCall>): Decisions {
    RecordBy(calls, DecidedId)
  }

  const NoDecisionFromGroq := Decision("execute", "No decision from Groq", None)

  /** The second loop of `parseBatchDecisions`: a task without a decision gets the
      default one. */
  function WithFallback(d: Decisions, ids: seq<int>): Decisions {
    if ids == [] then d
    else
      var e := WithFallback(d, ids[..|ids| - 1]);
      var id := ids[|ids| - 1];
      if id in e then e else e[id := NoDecisionFromGroq]
  }

  /** `parseBatchDecisions`, given the parsed tool calls of the response and the known task ids. */
  function BatchDecisions(calls: seq<ToolCall>, ids: seq<int>): Decisions {
    WithFallback(Recorded(DecideCalls(calls)), ids)
  }

  /** `parseBatchDecisions` */
  method ParseBatchDecisions(toolCalls: seq<ToolCall>, ids: seq<int>) returns (decisions: Decisions)
    ensures decisions == BatchDecisions(toolCalls, ids)
  {
    decisions := map[];
    var decideCalls := DecideCalls(toolCalls);
    for k := 0 to |decideCalls|
      invariant decisions == Recorded(decideCalls[..k])
    {
      assert decideCalls[..k + 1][..k] == decideCalls[..k];
      var call := decideCalls[k];
      var taskId := TaskIdOf(call);
      assert taskId == DecidedId(call);
      if taskId.None? {
        continue;
      }
      decisions := decisions[taskId.value := DecisionOf(call)];
    }
    assert decideCalls[..|decideCalls|] == decideCalls;
    ghost var recorded := decisions;
    for k := 0 to |ids|
      invariant decisions == WithFallback(recorded, ids[..k])
    {
      assert ids[..k + 1][..k] == ids[..k];
      if ids[k] !in decisions {
        decisions := decisions[ids[k] := NoDecisionFromGroq];
      }
    }
    assert ids[..|ids|] == ids;
  }

  // ---------------------------------------------------------------------------
  // Routing one task

  /** A pending task: its id, its (parsed) payload, and its retry counters. */
  datatype Task = Task(id: int, payload: map<string, string>, retryCount: int, maxRetries: int)

  /** What `executeTask` reports. */
  datatype ExecResult = ExecResult(success: bool, data: string, error: string)

  /** The result stored with a completed task: `{ skipped: true, reason }` for a skipped
      task, or the executor's data. */
  datatype Completion = SkippedFor(reason: string) | Produced(data: string)

  /** The calls made to the repository of tasks and to the executor. */
  datatype Effect =
    | MarkProcessing(id: int)
    | MarkCompleted(id: int, result: Completion)
    | MarkFailed(id: int, error: string, retryCount: int, maxRetries: int)
    | Execute(id: int, payload: map<string, string>)

  /** `{ ...payload, ...adjusted }`: the adjustments override the payload key by key. */
  function Merge(payload: map<string, string>, adjusted: Option<map<string, string>>): (r: map<string, string>)
    ensures forall key :: key in r <==> key in payload || (adjusted.Some? && key in adjusted.value)
    ensures forall key | key in r ::
      r[key] == if adjusted.Some? && key in adjusted.value then adjusted.value[key] else payload[key]
  {
    if adjusted.Some? then payload + adjusted.value else payload
  }

  /** The effects of `processTaskWithDecision`, with the executor as `execute`. */
  function TaskEffects(task: Task, decision: Decision, execute: map<string, string> -> ExecResult): seq<Effect> {
    if decision.action == "skip" then [MarkProcessing(task.id), MarkCompleted(task.id, SkippedFor(decision.reason))]
    else if decision.action == "delay" then
      [MarkProcessing(task.id), MarkFailed(task.id, "Delayed: " + decision.reason, 0, task.maxRetries + 1)]
    else
      var payload := Merge(task.payload, decision.adjustedPayload);
      var result := execute(payload);
      [MarkProcessing(task.id), Execute(task.id, payload)]
        + if result.success then [MarkCompleted(task.id, Produced(result.data))]
          else [MarkFailed(task.id, if result.error != "" then result.error else "Unknown error", task.retryCount, task.maxRetries)]
  }

  /** `processTaskWithDecision` */
  method ProcessTaskWithDecision(task: Task, decision: Decision, execute: map<string, string> -> ExecResult) returns (effects: seq<Effect>)
    ensures effects == TaskEffects(task, decision, execute)
  {
    effects := [MarkProcessing(task.id)];
    if decision.action == "skip" {
      effects := effects + [MarkCompleted(task.id, SkippedFor(decision.reason))];
      return;
    }
    if decision.action == "delay" {
      effects := effects + [MarkFailed(task.id, "Delayed: " + decision.reason, 0, task.maxRetries + 1)];
      return;
    }
    var finalPayload := task.payload;
    if decision.adjustedPayload.Some? {
      finalPayload := finalPayload + decision.adjustedPayload.value;
    }
    effects := effects + [Execute(task.id, finalPayload)];
    var result := execute(finalPayload);
    if result.success {
      effects := effects + [MarkCompleted(task.id, Produced(result.data))];
    } else {
      var error := if result.error != "" then result.error else "Unknown error";
      effects := effects + [MarkFailed(task.id, error, task.retryCount, task.maxRetries)];
    }
  }

  // ---------------------------------------------------------------------------
  // The batch

  /** How the one Groq call of a batch went: disabled (or no key), thrown, or answered
      with these tool calls. */
  datatype GroqOutcome = Disabled | Threw | Answered(calls: seq<ToolCall>)

  /** Every task executes, for the given reason. */
  function AllExecute(ids: seq<int>, reason: string): (r: Decisions)
    ensures forall id :: id in r <==> id in ids
    ensures forall id | id in r :: r[id] == Decision("execute", reason, None)
  {
    if ids == [] then map[] else AllExecute(ids[..|ids| - 1], reason)[ids[|ids| - 1] := Decision("execute", reason, None)]
  }

  /** The decisions of `processTasksInParallel`. */
  function BatchPlan(ids: seq<int>, outcome: GroqOutcome): (r: Decisions)
    ensures !outcome.Answered? ==> forall id :: id in r <==> id in ids
    ensures !outcome.Answered? ==> forall id | id in r :: r[id].action == "execute" && r[id].adjustedPayload.None?
  {
    match outcome
    case Disabled => AllExecute(ids, "Groq disabled")
    case Threw => AllExecute(ids, "Groq error")
    case Answered(calls) => BatchDecisions(calls, ids)
  }

  /** The decision a task is processed with: its own, or a default. */
  function DecisionFor(d: Decisions, id: int): (r: Decision)
    ensures id !in d ==> r.action == "execute" && r.adjustedPayload.None?
    ensures id in d ==> r == d[id]
  {
    if id in d then d[id] else Decision("execute", "No decision", None)
  }

  function TaskIds(tasks: seq<Task>): (r: seq<int>)
    ensures |r| == |tasks| && forall k | 0 <= k < |r| :: r[k] == tasks[k].id
  {
    if tasks == [] then [] else TaskIds(tasks[..|tasks| - 1]) + [tasks[|tasks| - 1].id]
  }

  // ---------------------------------------------------------------------------
  // The tool loop

  datatype Role = System | User | Assistant

  datatype Message = Message(role: Role, content: string)

  /** One tool's result as `executeAllTools` reports it; `data` is already JSON text. */
  datatype ToolOutcome = ToolOutcome(rawTag: string, success: bool, data: string, error: string)

  /** The foreign side of the loop: the model's answer to a conversation, the tag
      parser, and the tool executor. */
  datatype Groq = Groq(
    respond: seq<Message> -> string,
    parse: string -> seq<ToolCall>,
    execAll: seq<ToolCall> -> seq<ToolOutcome>)

  /** The tool calls other than `decide`. */
  function External(calls: seq<ToolCall>): (r: seq<ToolCall>)
    ensures forall k | 0 <= k < |r| :: r[k].toolName != "decide" && r[k] in calls
    ensures |r| == 0 <==> forall k | 0 <= k < |calls| :: calls[k].toolName == "decide"
  {
    if calls == [] then []
    else
      var rest := External(calls[..|calls| - 1]);
      if calls[|calls| - 1].toolName != "decide" then rest + [calls[|calls| - 1]] else rest
  }

  /** A response asks for tools when it holds a tool call other than `decide`. */
  predicate HasTools(g: Groq, response: string) {
    |External(g.parse(response))| > 0
  }

  /** One result line. */
  function ResultLine(o: ToolOutcome): string {
    if o.success then "\U{2705} " + o.rawTag + "\nK\U{1EBF}t qu\U{1EA3}: " + o.data
    else "\U{274C} " + o.rawTag + "\nL\U{1ED7}i: " + o.error
  }

  function ResultLines(os: seq<ToolOutcome>): (r: seq<string>)
    ensures |r| == |os| && forall k | 0 <= k < |r| :: r[k] == ResultLine(os[k])
  {
    if os == [] then [] else ResultLines(os[..|os| - 1]) + [ResultLine(os[|os| - 1])]
  }

  /** `Array.prototype.join` with a string separator. */
  function JoinWith(pieces: seq<string>, sep: string): string {
    if |pieces| == 0 then ""
    else if |pieces| == 1 then pieces[0]
    else pieces[0] + sep + JoinWith(pieces[1..], sep)
  }

  /** `executeGroqTools`: whether the response asked for tools, and their results. */
  function ToolResults(g: Groq, response: string): (bool, string) {
    var external := External(g.parse(response));
    if |external| == 0 then (false, "")
    else (true, JoinWith(ResultLines(g.execAll(external)), "\n\n"))
  }

  /** `executeGroqTools` */
  method ExecuteGroqTools(g: Groq, response: string) returns (hasTools: bool, results: string)
    ensures (hasTools, results) == ToolResults(g, response)
    ensures hasTools <==> HasTools(g, response)
  {
    var external := External(g.parse(response));
    if |external| == 0 {
      return false, "";
    }
    var outcomes := g.execAll(external);
    var lines: seq<string> := [];
    for k := 0 to |outcomes|
      invariant lines == ResultLines(outcomes[..k])
    {
      assert outcomes[..k + 1][..k] == outcomes[..k];
      lines := lines + [ResultLine(outcomes[k])];
    }
    assert outcomes[..|outcomes|] == outcomes;
    return true, JoinWith(lines, "\n\n");
  }

  /** The two messages added after an iteration that ran tools. */
  function Continuation(response: string, results: string): seq<Message> {
    [Message(Assistant, response),
     Message(User, "## K\U{1EBF}t qu\U{1EA3} th\U{1EF1}c thi tools:\n\n" + results
                   + "\n\nH\U{00E3}y ti\U{1EBF}p t\U{1EE5}c x\U{1EED} l\U{00FD} d\U{1EF1}a tr\U{00EA}n k\U{1EBF}t qu\U{1EA3} tr\U{00EA}n.")]
  }

  /** Where the loop ends: the last response, the conversation, the number of calls. */
  datatype Conversation = Conversation(final: string, messages: seq<Message>, calls: nat)

  /** `executeGroqTools` as a value: the tool step of the loop. */
  function ToolStep(g: Groq): string -> (bool, string) {
    response => ToolResults(g, response)
  }

  /** The loop of `callGroqWithTools` from iteration `i` with `final` so far, given the
      model's answers and the tool step. */
  function Converse(respond: seq<Message> -> string, tools: string -> (bool, string), msgs: seq<Message>, final: string, i: nat, max: int): (r: Conversation)
    decreases max - i
  {
    if i >= max then Conversation(final, msgs, i)
    else
      var response := respond(msgs);
      var (has, results) := tools(response);
      if !has then Conversation(response, msgs, i + 1)
      else Converse(respond, tools, msgs + Continuation(response, results), response, i + 1, max)
  }

  /** `callGroqWithTools`: the last response of the loop. */
  method CallGroqWithTools(g: Groq, messages: seq<Message>, maxToolIterations: int) returns (finalResponse: string)
    ensures finalResponse == Converse(g.respond, ToolStep(g), messages, "", 0, maxToolIterations).final
  {
    var currentMessages := messages;
    finalResponse := "";
    var iteration := 0;
    while iteration < maxToolIterations
      invariant Converse(g.respond, ToolStep(g), currentMessages, finalResponse, iteration, maxToolIterations)
             == Converse(g.respond, ToolStep(g), messages, "", 0, maxToolIterations)
      decreases maxToolIterations - iteration
    {
      var response := g.respond(currentMessages);
      finalResponse := response;
      var hasTools, results := ExecuteGroqTools(g, response);
      assert ToolStep(g)(response) == (hasTools, results);
      if !hasTools {
        break;
      }
      currentMessages := currentMessages + Continuation(response, results);
      iteration := iteration + 1;
    }
  }
}
