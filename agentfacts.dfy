/**
 * Properties of the background agent's decision logic: which decision each task
 * gets, how a decision routes a task, and how far the tool loop runs.
 */
module AgentFacts {
  import opened Text
  import opened AgentRunner

  // ---------------------------------------------------------------------------
  // Decisions

  /** The defaults of a decide call: a missing action executes, a missing reason reads
      "No reason", and a given one is kept. */
  lemma DecisionDefaults(call: ToolCall)
    ensures Param(call, "action") == "" ==> DecisionOf(call).action == "execute"
    ensures Param(call, "action") != "" ==> DecisionOf(call).action == Param(call, "action")
    ensures Param(call, "reason") == "" ==> DecisionOf(call).reason == "No reason"
    ensures Param(call, "reason") != "" ==> DecisionOf(call).reason == Param(call, "reason")
    ensures DecisionOf(call).adjustedPayload.None? <==>
      Param(call, "message") == "" && Param(call, "resolvedThreadId") == "" && Param(call, "resolvedUserId") == ""
  {
    var a := DecisionOf(call).adjustedPayload;
    if a.None? {
      assert IsAdjustable("message") && IsAdjustable("resolvedThreadId") && IsAdjustable("resolvedUserId");
    }
  }

  /** Where `parseInt` looks for the first digit: past the leading white space and one
      optional sign. */
  function NumberStart(t: string): (b: nat)
    ensures SpaceRunEnd(t, 0) <= b <= |t|
    ensures b > SpaceRunEnd(t, 0) ==> b == SpaceRunEnd(t, 0) + 1 && t[b - 1] in "+-"
  {
    var a := SpaceRunEnd(t, 0);
    if a < |t| && (t[a] == '-' || t[a] == '+') then a + 1 else a
  }

  /** A task id is `NaN` exactly when no digit follows its blanks and sign; a digit
      there always gives a number. */
  lemma NonNumericTaskId(t: string)
    ensures ParseInt(t).None? <==> !(NumberStart(t) < |t| && IsDigit(t[NumberStart(t)]))
  {
    var b := NumberStart(t);
    var e := DigitRunEnd(t, b);
    if b < |t| && IsDigit(t[b]) {
      assert e > b;
    }
  }

  /** A decide call whose task id has no digit after its blanks and sign is ignored. */
  lemma NaNTaskIdIgnored(calls: seq<ToolCall>, c: ToolCall, ids: seq<int>)
    requires var t := Param(c, "task_id"); !(NumberStart(t) < |t| && IsDigit(t[NumberStart(t)]))
    ensures BatchDecisions(calls + [c], ids) == BatchDecisions(calls, ids)
  {
    NonNumericTaskId(Param(c, "task_id"));
    IgnoredCall(calls, c, ids);
  }

  /** Filtering out the other tools first changes nothing: `Recorded` reads only decide
      calls. */
  lemma {:induction false} DecideCallsRecorded(calls: seq<ToolCall>)
    ensures Recorded(DecideCalls(calls)) == Recorded(calls)
  {
    if calls != [] {
      var init := calls[..|calls| - 1];
      var c := calls[|calls| - 1];
      DecideCallsRecorded(init);
      if c.toolName == "decide" {
        assert (DecideCalls(init) + [c])[..|DecideCalls(init)|] == DecideCalls(init);
      }
    }
  }

  /** The position of the last call that `read` takes for task `id`, if any. */
  function LastBy(calls: seq<ToolCall>, read: ToolCall -> Option<int>, id: int): (r: Option<nat>)
    ensures r.Some? ==>
      r.value < |calls| && read(calls[r.value]) == Some(id) && forall j | r.value < j < |calls| :: read(calls[j]) != Some(id)
    ensures r.None? ==> forall j | 0 <= j < |calls| :: read(calls[j]) != Some(id)
  {
    if calls == [] then None
    else if read(calls[|calls| - 1]) == Some(id) then Some(|calls| - 1)
    else LastBy(calls[..|calls| - 1], read, id)
  }

  /** A task has a recorded decision exactly when some call names it, and the decision
      is that of the last such call. */
  lemma {:induction false} RecordByIsLast(calls: seq<ToolCall>, read: ToolCall -> Option<int>, id: int)
    ensures id in RecordBy(calls, read) <==> LastBy(calls, read, id).Some?
    ensures LastBy(calls, read, id).Some? ==>
      RecordBy(calls, read)[id] == DecisionOf(calls[LastBy(calls, read, id).value])
  {
    if calls != [] {
      var init := calls[..|calls| - 1];
      RecordByIsLast(init, read, id);
      if read(calls[|calls| - 1]) != Some(id) {
        assert LastBy(calls, read, id) == LastBy(init, read, id);
        if LastBy(init, read, id).Some? {
          assert calls[LastBy(init, read, id).value] == init[LastBy(init, read, id).value];
        }
      }
    }
  }

  /** The fallback loop keeps every recorded decision and gives each other task the
      default. */
  lemma {:induction false} FallbackFills(d: Decisions, ids: seq<int>)
    ensures forall id :: id in WithFallback(d, ids) <==> id in d || id in ids
    ensures forall id | id in d :: WithFallback(d, ids)[id] == d[id]
    ensures forall id | id in ids && id !in d :: WithFallback(d, ids)[id] == NoDecisionFromGroq
  {
    if ids != [] {
      var init := ids[..|ids| - 1];
      FallbackFills(d, init);
      assert forall id :: id in ids <==> id in init || id == ids[|ids| - 1];
    }
  }

  /** `parseBatchDecisions`: every task gets a decision, a task some decide call names
      gets the last such call's decision, and any other task gets the default; no other
      id appears. */
  lemma BatchDecisionsSpec(calls: seq<ToolCall>, ids: seq<int>)
    ensures forall id :: id in BatchDecisions(calls, ids) <==> id in ids || LastBy(calls, DecidedId, id).Some?
    ensures forall id | LastBy(calls, DecidedId, id).Some? ::
      BatchDecisions(calls, ids)[id] == DecisionOf(calls[LastBy(calls, DecidedId, id).value])
    ensures forall id | id in ids && LastBy(calls, DecidedId, id).None? ::
      BatchDecisions(calls, ids)[id] == NoDecisionFromGroq
  {
    DecideCallsRecorded(calls);
    FallbackFills(Recorded(calls), ids);
    forall id
      ensures id in Recorded(calls) <==> LastBy(calls, DecidedId, id).Some?
      ensures LastBy(calls, DecidedId, id).Some? ==>
        Recorded(calls)[id] == DecisionOf(calls[LastBy(calls, DecidedId, id).value])
    {
      RecordByIsLast(calls, DecidedId, id);
    }
  }

  lemma RecordByAppend(calls: seq<ToolCall>, c: ToolCall, read: ToolCall -> Option<int>)
    ensures RecordBy(calls + [c], read)
      == if read(c).Some? then RecordBy(calls, read)[read(c).value := DecisionOf(c)] else RecordBy(calls, read)
  {
    assert (calls + [c])[..|calls|] == calls;
  }

  lemma RecordByLaterWins(calls: seq<ToolCall>, c: ToolCall, read: ToolCall -> Option<int>, ids: seq<int>, id: int)
    requires read(c) == Some(id)
    ensures id in WithFallback(RecordBy(calls + [c], read), ids)
    ensures WithFallback(RecordBy(calls + [c], read), ids)[id] == DecisionOf(c)
  {
    RecordByAppend(calls, c, read);
    FallbackFills(RecordBy(calls + [c], read), ids);
  }

  /** A later decide call for the same task overwrites an earlier one. */
  lemma LaterCallWins(calls: seq<ToolCall>, c: ToolCall, ids: seq<int>, id: int)
    requires DecidedId(c) == Some(id)
    ensures id in BatchDecisions(calls + [c], ids)
    ensures BatchDecisions(calls + [c], ids)[id] == DecisionOf(c)
  {
    DecideCallsRecorded(calls + [c]);
    RecordByLaterWins(calls, c, DecidedId, ids, id);
  }

  /** A call that is not a decide call, or whose task id is not a number, changes no
      decision. */
  lemma IgnoredCall(calls: seq<ToolCall>, c: ToolCall, ids: seq<int>)
    requires DecidedId(c).None?
    ensures BatchDecisions(calls + [c], ids) == BatchDecisions(calls, ids)
  {
    var all := calls + [c];
    assert all[..|all| - 1] == calls;
    DecideCallsRecorded(all);
    DecideCallsRecorded(calls);
  }

  // ---------------------------------------------------------------------------
  // Routing

  predicate Terminal(e: Effect) {
    e.MarkCompleted? || e.MarkFailed?
  }

  /** Every task is first marked processing and ends with exactly one final mark; it is
      executed, once, exactly when the decision is neither `skip` nor `delay`. */
  lemma TaskEffectsShape(task: Task, decision: Decision, execute: map<string, string> -> ExecResult)
    ensures var es := TaskEffects(task, decision, execute);
      2 <= |es| && es[0] == MarkProcessing(task.id) && Terminal(es[|es| - 1])
      && (forall k | 0 <= k < |es| - 1 :: !Terminal(es[k]))
      && ((exists k | 0 <= k < |es| :: es[k].Execute?) <==> decision.action != "skip" && decision.action != "delay")
  {
    var es := TaskEffects(task, decision, execute);
    if decision.action != "skip" && decision.action != "delay" {
      assert es[1].Execute?;
    }
  }

  /** `skip` completes a task as skipped with the decision's reason; `delay` fails it
      with the retry count reset and the retry limit raised by one, so that it is
      retried. */
  lemma SkipAndDelay(task: Task, decision: Decision, execute: map<string, string> -> ExecResult)
    ensures decision.action == "skip" ==>
      TaskEffects(task, decision, execute)[1] == MarkCompleted(task.id, SkippedFor(decision.reason))
    ensures decision.action == "delay" ==>
      TaskEffects(task, decision, execute)[1] == MarkFailed(task.id, "Delayed: " + decision.reason, 0, task.maxRetries + 1)
  {
  }

  /** On execute, a task runs with its payload overridden key by key by the decision's
      adjustments, and ends completed exactly when the executor succeeds; a failure
      keeps its retry counters. */
  lemma ExecuteMerges(task: Task, decision: Decision, execute: map<string, string> -> ExecResult)
    requires decision.action != "skip" && decision.action != "delay"
    ensures var es := TaskEffects(task, decision, execute);
      var p := es[1].payload;
      es[1].Execute? && es[1].id == task.id
      && (forall key :: key in p <==>
            key in task.payload || (decision.adjustedPayload.Some? && key in decision.adjustedPayload.value))
      && (forall key | key in p && decision.adjustedPayload.Some? && key in decision.adjustedPayload.value ::
            p[key] == decision.adjustedPayload.value[key])
      && (forall key | key in p && (decision.adjustedPayload.None? || key !in decision.adjustedPayload.value) ::
            p[key] == task.payload[key])
      && (es[2].MarkCompleted? <==> execute(p).success)
      && (es[2].MarkFailed? ==> es[2].retryCount == task.retryCount && es[2].maxRetries == task.maxRetries
                                && es[2].error != "")
  {
  }

  /** An execute decision without adjustments runs a task with its own payload. */
  lemma ExecuteUnadjusted(task: Task, reason: string, execute: map<string, string> -> ExecResult)
    ensures TaskEffects(task, Decision("execute", reason, None), execute)[1] == Execute(task.id, task.payload)
  {
    assert Merge(task.payload, None) == task.payload;
  }

  /** With Groq disabled, or when its call throws, a task of the batch executes with
      its payload unchanged. */
  lemma FallbackExecutesTask(task: Task, ids: seq<int>, outcome: GroqOutcome, execute: map<string, string> -> ExecResult)
    requires outcome.Disabled? || outcome.Threw?
    requires task.id in ids
    ensures var d := DecisionFor(BatchPlan(ids, outcome), task.id);
      d.action == "execute" && TaskEffects(task, d, execute)[1] == Execute(task.id, task.payload)
  {
    var reason := if outcome.Disabled? then "Groq disabled" else "Groq error";
    assert BatchPlan(ids, outcome) == AllExecute(ids, reason);
    assert DecisionFor(BatchPlan(ids, outcome), task.id) == Decision("execute", reason, None);
    ExecuteUnadjusted(task, reason, execute);
  }

  /** With Groq disabled, or when its call throws, every task executes with its payload
      unchanged. */
  lemma FallbackExecutesAll(tasks: seq<Task>, outcome: GroqOutcome, execute: map<string, string> -> ExecResult)
    requires outcome.Disabled? || outcome.Threw?
    ensures forall task | task in tasks ::
      var d := DecisionFor(BatchPlan(TaskIds(tasks), outcome), task.id);
      d.action == "execute" && TaskEffects(task, d, execute)[1] == Execute(task.id, task.payload)
  {
    var ids := TaskIds(tasks);
    forall task | task in tasks
      ensures var d := DecisionFor(BatchPlan(ids, outcome), task.id);
        d.action == "execute" && TaskEffects(task, d, execute)[1] == Execute(task.id, task.payload)
    {
      var k :| 0 <= k < |tasks| && tasks[k] == task;
      assert task.id == ids[k];
      FallbackExecutesTask(task, ids, outcome, execute);
    }
  }

  /** Whatever Groq does, every task of the batch gets a decision of its own. */
  lemma PlanCoversTasks(ids: seq<int>, outcome: GroqOutcome)
    ensures forall id | id in ids :: id in BatchPlan(ids, outcome)
  {
    if outcome.Answered? {
      BatchDecisionsSpec(outcome.calls, ids);
    }
  }

  // ---------------------------------------------------------------------------
  // The tool loop

  /** The loop from iteration `i` makes at least `i` and at most `max` calls, and one
      that stops before the bound stops at a response that asks for no tools. */
  lemma {:induction false} ConverseCalls(respond: seq<Message> -> string, tools: string -> (bool, string), msgs: seq<Message>, final: string, i: nat, max: int)
    ensures var r := Converse(respond, tools, msgs, final, i, max);
      i <= r.calls && r.calls <= (if i >= max then i else max)
      && (r.calls == i ==> r == Conversation(final, msgs, i))
      && (r.calls < max ==> r.calls > i && !tools(r.final).0)
    decreases max - i
  {
    if i < max {
      var response := respond(msgs);
      var (has, results) := tools(response);
      if has {
        ConverseCalls(respond, tools, msgs + Continuation(response, results), response, i + 1, max);
      }
    }
  }

  /** The conversation only grows, by two messages for each iteration that ran tools;
      each such pair starts with a response that asked for tools; and the final
      response is the last one received. */
  lemma {:induction false} ConverseMessages(respond: seq<Message> -> string, tools: string -> (bool, string), msgs: seq<Message>, final: string, i: nat, max: int)
    ensures var r := Converse(respond, tools, msgs, final, i, max);
      msgs <= r.messages
      && |r.messages| == |msgs| + 2 * (r.calls - i) - (if r.calls > i && !tools(r.final).0 then 2 else 0)
      && (forall j | 0 <= j < (|r.messages| - |msgs|) / 2 ::
            r.messages[|msgs| + 2 * j].role == Assistant && tools(r.messages[|msgs| + 2 * j].content).0)
      && (r.calls > i && tools(r.final).0 ==> r.messages[|r.messages| - 2] == Message(Assistant, r.final))
      && (r.calls > i && !tools(r.final).0 ==> r.final == respond(r.messages))
    decreases max - i
  {
    ConverseCalls(respond, tools, msgs, final, i, max);
    if i < max {
      var response := respond(msgs);
      var (has, results) := tools(response);
      if has {
        var next := msgs + Continuation(response, results);
        ConverseMessages(respond, tools, next, response, i + 1, max);
        ConverseCalls(respond, tools, next, response, i + 1, max);
        var r := Converse(respond, tools, next, response, i + 1, max);
        assert next[|msgs|] == Message(Assistant, response);
        forall j | 0 <= j < (|r.messages| - |msgs|) / 2
          ensures r.messages[|msgs| + 2 * j].role == Assistant && tools(r.messages[|msgs| + 2 * j].content).0
        {
          if j > 0 {
            assert |msgs| + 2 * j == |next| + 2 * (j - 1);
          } else {
            assert r.messages[|msgs|] == next[|msgs|];
          }
        }
        if r.calls == i + 1 {
          assert r.messages[|r.messages| - 2] == next[|msgs|];
        }
      }
    }
  }

  /** The tool step asks to continue exactly when the response holds a tool call other
      than `decide`. */
  lemma ToolStepHasTools(g: Groq, response: string)
    ensures ToolStep(g)(response).0 <==> HasTools(g, response)
  {
  }

  /** `callGroqWithTools` makes at most `maxToolIterations` calls, and at least one when
      the bound is positive; with no iterations allowed it returns the empty text. */
  lemma ToolLoopBound(g: Groq, msgs: seq<Message>, max: int)
    ensures var r := Converse(g.respond, ToolStep(g), msgs, "", 0, max);
      (max <= 0 ==> r.calls == 0 && r.final == "")
      && (max > 0 ==> 1 <= r.calls <= max)
  {
    ConverseCalls(g.respond, ToolStep(g), msgs, "", 0, max);
  }

  /** The loop stops at the first response that asks for no tools other than `decide`,
      returning that response; until then each iteration adds the response and the tool
      results to the conversation, each added response having asked for tools. */
  lemma ToolLoopStops(g: Groq, msgs: seq<Message>, max: int)
    ensures var r := Converse(g.respond, ToolStep(g), msgs, "", 0, max);
      (r.calls < max ==> !HasTools(g, r.final) && r.final == g.respond(r.messages))
      && (r.calls > 0 ==> |r.messages| == |msgs| + 2 * r.calls - (if HasTools(g, r.final) then 0 else 2))
      && msgs <= r.messages
      && (forall j | 0 <= j < (|r.messages| - |msgs|) / 2 ::
            r.messages[|msgs| + 2 * j].role == Assistant && HasTools(g, r.messages[|msgs| + 2 * j].content))
  {
    var r := Converse(g.respond, ToolStep(g), msgs, "", 0, max);
    ConverseCalls(g.respond, ToolStep(g), msgs, "", 0, max);
    ConverseMessages(g.respond, ToolStep(g), msgs, "", 0, max);
    ToolStepHasTools(g, r.final);
    forall j | 0 <= j < (|r.messages| - |msgs|) / 2
      ensures HasTools(g, r.messages[|msgs| + 2 * j].content)
    {
      ToolStepHasTools(g, r.messages[|msgs| + 2 * j].content);
    }
  }
}
