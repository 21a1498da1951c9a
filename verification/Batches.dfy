/** What the workflow loop makes of a batch of calls, call by call: which checkpoint stops it, what its execution gives,
    and what it leaves in the transcript. */
module Batches {
  import opened Wrappers
  import opened Response
  import opened Transcript
  import opened Steps
  import opened StepEnforcer
  import opened Inference
  import opened Runner
  import FreshId
  import Json
  import V = ResponseValidator

  // ---------- which checkpoint stops a batch ----------

  predicate SomeTerminal(rules: Rules, calls: seq<ToolCall>) {
    exists i | 0 <= i < |calls| :: calls[i].tool in rules.terminal
  }

  predicate SomeOther(rules: Rules, calls: seq<ToolCall>) {
    exists i | 0 <= i < |calls| :: calls[i].tool !in rules.terminal
  }

  predicate SomePending(rules: Rules, log: seq<Execution>) {
    exists j | 0 <= j < |rules.required| :: forall i | 0 <= i < |log| :: log[i].tool != rules.required[j]
  }

  predicate Lacks(rules: Rules, log: seq<Execution>, call: ToolCall) {
    call.tool in rules.prerequisites
    && exists k | 0 <= k < |rules.prerequisites[call.tool]| :: !MetBy(log, call.args, rules.prerequisites[call.tool][k])
  }

  lemma {:induction false} LacksIs(rules: Rules, log: seq<Execution>, call: ToolCall)
    ensures CallAllowed(rules, log, call) <==> !Lacks(rules, log, call)
  {
    hide Met, MetBy;
    var ps := PrerequisitesOf(rules, call.tool);
    forall k | 0 <= k < |ps| ensures Met(log, call.args, ps[k]) <==> MetBy(log, call.args, ps[k]) {
      MetMeans(log, call.args, ps[k]);
    }
  }

  /** A batch is mixed, else too early, else lacking a prerequisite, else objected to, else allowed. */
  lemma {:induction false} CheckpointsExactly(world: World, rules: Rules, log: seq<Execution>, calls: seq<ToolCall>,
                                              round: nat)
    ensures Judge(world, rules, log, calls, round)
            == if SomeTerminal(rules, calls) && SomeOther(rules, calls) then MixedBatch
               else if SomeTerminal(rules, calls) && SomePending(rules, log) then TooEarly
               else if exists i | 0 <= i < |calls| :: Lacks(rules, log, calls[i]) then Lacking
               else if world.objection(round, calls).Some? || world.finalObjection(round, calls).Some? then Objected
               else Allowed
  {
    hide CallAllowed, Lacks;
    forall i | 0 <= i < |calls| ensures CallAllowed(rules, log, calls[i]) <==> !Lacks(rules, log, calls[i]) {
      LacksIs(rules, log, calls[i]);
    }
    assert Satisfied(rules.required, log) <==> !SomePending(rules, log) by {
      assert forall j | 0 <= j < |rules.required| ::
          Ran(log, rules.required[j]) <==> !(forall i | 0 <= i < |log| :: log[i].tool != rules.required[j]);
    }
    hide Satisfied, SomePending;
  }

  // ---------- executing a batch ----------

  /** One call: unknown tools are not executed; an output is logged, and is the value of the batch if its tool is a
      terminal one; only a broken tool is an error. */
  lemma {:induction false} OneCall(world: World, tools: set<string>, terminal: set<string>, call: ToolCall, from: nat)
    ensures var o: ToolOutcome := if call.tool in tools then world.execute(from, call) else NotFound;
            var outs := Outcomes(world, tools, [call], from);
            && outs == [o]
            && Found(tools, [call], 1) == (if call.tool in tools then 1 else 0)
            && Executed([call], outs, 1)
               == (match o case Output(_) => [Execution(call.tool, call.args)] case _ => [])
            && HardErrors(outs, 1) == (match o case Broken(_) => 1 case _ => 0)
            && TerminalValue(world, terminal, [call], outs, 1)
               == match o case Output(value) => (if call.tool in terminal then Some(world.interpret(value)) else None)
                          case _ => None
  {
    var outs := Outcomes(world, tools, [call], from);
    assert Found(tools, [call], 0) == 0 && HardErrors(outs, 0) == 0 && Executed([call], outs, 0) == [];
    assert TerminalValue(world, terminal, [call], outs, 0) == None;
  }

  lemma {:induction false} FoundInARow(tools: set<string>, a: seq<ToolCall>, b: seq<ToolCall>, n: nat)
    requires n <= |b|
    ensures Found(tools, a + b, |a| + n) == Found(tools, a, |a|) + Found(tools, b, n)
  {
    if n == 0 {
      FoundBefore(tools, a, b, |a|);
    } else {
      FoundInARow(tools, a, b, n - 1);
    }
  }

  lemma {:induction false} FoundBefore(tools: set<string>, a: seq<ToolCall>, b: seq<ToolCall>, n: nat)
    requires n <= |a|
    ensures Found(tools, a + b, n) == Found(tools, a, n)
  {
    if n > 0 {
      FoundBefore(tools, a, b, n - 1);
    }
  }

  lemma {:induction false} OutcomesInARow(world: World, tools: set<string>, a: seq<ToolCall>, b: seq<ToolCall>,
                                          from: nat)
    ensures Outcomes(world, tools, a + b, from)
            == Outcomes(world, tools, a, from) + Outcomes(world, tools, b, from + Found(tools, a, |a|))
  {
    var outs := Outcomes(world, tools, a + b, from);
    var x, y := Outcomes(world, tools, a, from), Outcomes(world, tools, b, from + Found(tools, a, |a|));
    forall i | 0 <= i < |a + b| ensures outs[i] == (x + y)[i] {
      if i < |a| {
        FoundBefore(tools, a, b, i);
      } else {
        FoundInARow(tools, a, b, i - |a|);
      }
      hide Found;
    }
  }

  lemma {:induction false} TalliesBefore(world: World, terminal: set<string>, a: seq<ToolCall>, x: seq<ToolOutcome>,
                                         b: seq<ToolCall>, y: seq<ToolOutcome>, n: nat)
    requires |x| == |a| && |y| == |b| && n <= |a|
    ensures Executed(a + b, x + y, n) == Executed(a, x, n) && HardErrors(x + y, n) == HardErrors(x, n)
    ensures TerminalValue(world, terminal, a + b, x + y, n) == TerminalValue(world, terminal, a, x, n)
  {
    if n > 0 {
      TalliesBefore(world, terminal, a, x, b, y, n - 1);
    }
  }

  lemma {:induction false} TalliesInARow(world: World, terminal: set<string>, a: seq<ToolCall>, x: seq<ToolOutcome>,
                                         b: seq<ToolCall>, y: seq<ToolOutcome>, n: nat)
    requires |x| == |a| && |y| == |b| && n <= |b|
    ensures Executed(a + b, x + y, |a| + n) == Executed(a, x, |a|) + Executed(b, y, n)
    ensures HardErrors(x + y, |a| + n) == HardErrors(x, |a|) + HardErrors(y, n)
    ensures var later := TerminalValue(world, terminal, b, y, n);
            TerminalValue(world, terminal, a + b, x + y, |a| + n)
            == if later.Some? then later else TerminalValue(world, terminal, a, x, |a|)
  {
    if n == 0 {
      TalliesBefore(world, terminal, a, x, b, y, |a|);
    } else {
      TalliesInARow(world, terminal, a, x, b, y, n - 1);
      assert (a + b)[|a| + n - 1] == b[n - 1] && (x + y)[|a| + n - 1] == y[n - 1];
    }
  }

  /** Batches in a row: outcomes, log and errors come one after the other, and the last terminal output counts. */
  lemma {:induction false} CallsInARow(world: World, tools: set<string>, terminal: set<string>, a: seq<ToolCall>,
                                       b: seq<ToolCall>, from: nat)
    ensures Found(tools, a + b, |a + b|) == Found(tools, a, |a|) + Found(tools, b, |b|)
    ensures var x, y := Outcomes(world, tools, a, from), Outcomes(world, tools, b, from + Found(tools, a, |a|));
            var outs := Outcomes(world, tools, a + b, from);
            && outs == x + y
            && Executed(a + b, outs, |a + b|) == Executed(a, x, |a|) + Executed(b, y, |b|)
            && HardErrors(outs, |a + b|) == HardErrors(x, |a|) + HardErrors(y, |b|)
            && var later := TerminalValue(world, terminal, b, y, |b|);
               TerminalValue(world, terminal, a + b, outs, |a + b|)
               == if later.Some? then later else TerminalValue(world, terminal, a, x, |a|)
  {
    hide *;
    FoundInARow(tools, a, b, |b|);
    OutcomesInARow(world, tools, a, b, from);
    TalliesInARow(world, terminal, a, Outcomes(world, tools, a, from), b,
                  Outcomes(world, tools, b, from + Found(tools, a, |a|)), |b|);
  }

  /** How an executed batch ends the run: with a failure exactly when it broke a tool and the errors exceed their limit,
      and else with the value of its last terminal call that has an output. */
  lemma {:induction false} BatchEndsExactly(world: World, rules: Rules, calls: seq<ToolCall>, outs: seq<ToolOutcome>,
                                            errors: int, maxToolErrors: int, i: nat)
    requires |outs| == |calls|
    ensures var broke, r := (exists k | 0 <= k < |outs| :: outs[k].Broken?) && errors > maxToolErrors,
                            BatchEnd(world, rules, calls, outs, errors, maxToolErrors);
            && (broke ==> r == Some(ToolFailed))
            && (!broke && (forall k | 0 <= k < |calls| :: !TerminalOutput(rules, calls, outs, k)) ==> r == None)
            && (!broke && i < |calls| && TerminalOutput(rules, calls, outs, i)
                && (forall k | i < k < |calls| :: !TerminalOutput(rules, calls, outs, k))
                ==> r == Some(Finished(world.interpret(outs[i].value))))
  {
    SomeBroken(outs, |outs|);
    if i < |calls| && TerminalOutput(rules, calls, outs, i) {
      LastTerminal(world, rules, calls, outs, i, |calls|);
    }
    assert forall k | 0 <= k < |calls| ::
        TerminalOutput(rules, calls, outs, k) <==> calls[k].tool in rules.terminal && outs[k].Output?;
    hide HardErrors;
  }

  predicate TerminalOutput(rules: Rules, calls: seq<ToolCall>, outs: seq<ToolOutcome>, k: nat)
    requires k < |calls| == |outs|
  {
    calls[k].tool in rules.terminal && outs[k].Output?
  }

  lemma {:induction false} SomeBroken(outs: seq<ToolOutcome>, n: nat)
    requires n <= |outs|
    ensures HardErrors(outs, n) > 0 <==> exists k | 0 <= k < n :: outs[k].Broken?
  {
    if n > 0 {
      SomeBroken(outs, n - 1);
    }
  }

  lemma {:induction false} LastTerminal(world: World, rules: Rules, calls: seq<ToolCall>, outs: seq<ToolOutcome>,
                                        i: nat, n: nat)
    requires i < n <= |calls| == |outs| && TerminalOutput(rules, calls, outs, i)
    ensures (forall k | i < k < n :: !TerminalOutput(rules, calls, outs, k)) ==>
              TerminalValue(world, rules.terminal, calls, outs, n) == Some(world.interpret(outs[i].value))
  {
    if i < n - 1 && !TerminalOutput(rules, calls, outs, n - 1) {
      LastTerminal(world, rules, calls, outs, i, n - 1);
    }
  }

  // ---------- the log of a run ----------

  /** What the batches of the first `n` replies executed with an output, in order. */
  function RanIn(world: World, workflow: Workflow, start: Tally, n: nat): seq<Execution> {
    if n == 0 then []
    else
      RanIn(world, workflow, start, n - 1)
      + if JudgedAt(world, workflow, start, n - 1) == Some(Allowed) then
          var calls := CallsOf(world, workflow, n - 1);
          var outs := Outcomes(world, workflow.tools, calls, Replay(world, workflow, start, n - 1).executions);
          Executed(calls, outs, |calls|)
        else []
  }

  /** Existing tools called by the batches executed so far. */
  function CalledIn(world: World, workflow: Workflow, start: Tally, n: nat): nat {
    if n == 0 then 0
    else
      CalledIn(world, workflow, start, n - 1)
      + if JudgedAt(world, workflow, start, n - 1) == Some(Allowed) then
          var calls := CallsOf(world, workflow, n - 1);
          Found(workflow.tools, calls, |calls|)
        else 0
  }

  /** The log of a run holds what its allowed batches executed, and nothing else; executions are numbered through. */
  lemma {:induction false} LogIsWhatRan(world: World, workflow: Workflow, start: Tally, n: nat)
    ensures Replay(world, workflow, start, n).log == start.log + RanIn(world, workflow, start, n)
    ensures Replay(world, workflow, start, n).executions == start.executions + CalledIn(world, workflow, start, n)
  {
    hide Judge, CallsOf, Outcomes, HardErrors, Executed, Found, AcceptedReply, RejectedReply;
    if n > 0 {
      LogIsWhatRan(world, workflow, start, n - 1);
    }
  }

  // ---------- what is written ----------

  /** The identifier of call `i` of a batch drawn from `counter` on. */
  function IdOf(counter: nat, i: nat): string {
    FreshId.FormatId("call_", counter + i)
  }

  /** The messages before the results: the first call's reasoning, if it has any, and one message with all calls. */
  predicate Opens(calls: seq<ToolCall>, counter: nat, step: int, added: seq<Message>, n: nat) {
    && n < |added| && n == (if calls != [] && calls[0].reasoning.Some? then 1 else 0)
    && (n == 1 ==> added[0] == Message(Assistant, calls[0].reasoning.value, Reasoning, Some(step), None, None, None))
    && added[n].toolCalls.Some? && |added[n].toolCalls.value| == |calls|
    && added[n] == Message(Assistant, "", MessageType.ToolCall, Some(step), None, None, added[n].toolCalls)
    && forall i | 0 <= i < |calls| :: added[n].toolCalls.value[i] == CallInfo(calls[i].tool, IdOf(counter, i))
  }

  lemma {:induction false} OpensIs(calls: seq<ToolCall>, counter: nat, step: int, results: seq<Message>)
    ensures var n := |Front(calls, step)|;
            var added := Front(calls, step) + [CallMessage(CountedInfos(calls, counter), step)] + results;
            && Opens(calls, counter, step, added, n) && |added| == n + 1 + |results|
            && forall i | 0 <= i < |results| :: added[n + 1 + i] == results[i]
  {
    hide FreshId.FormatId;
  }

  /** A batch that is answered with nudges: one for each call, with its name and identifier. */
  lemma {:induction false} NudgedIs(calls: seq<ToolCall>, counter: nat, kind: MessageType, text: string, step: int)
    ensures var added, n := Nudged(calls, counter, kind, text, step), |Front(calls, step)|;
            && Opens(calls, counter, step, added, n) && |added| == n + 1 + |calls|
            && forall i | 0 <= i < |calls| ::
                 added[n + 1 + i]
                 == Message(Tool, text, kind, Some(step), Some(calls[i].tool), Some(IdOf(counter, i)), None)
  {
    hide FreshId.FormatId, Opens, Front;
    OpensIs(calls, counter, step, ResultMessages(CountedInfos(calls, counter), text, kind, step));
  }

  /** What a result says: the rendered output, or what went wrong. */
  function Content(world: World, o: ToolOutcome): string {
    match o
    case Output(value) => world.render(value)
    case NotFound => "[TOOL_ERROR] Tool not found"
    case Unresolved(text) => "[ToolResolutionError] " + text
    case Broken(text) => "[ToolError] ToolExecutionError: " + text
  }

  lemma {:induction false} ResultIs(world: World, calls: seq<ToolCall>, counter: nat, outs: seq<ToolOutcome>, step: int,
                                    i: nat)
    requires |outs| == |calls| && i < |calls|
    ensures ToolResults(world, CountedInfos(calls, counter), outs, step)[i]
            == Message(Tool, Content(world, outs[i]), ToolResult, Some(step), Some(calls[i].tool),
                       Some(IdOf(counter, i)), None)
  {
    hide FreshId.FormatId;
    assert CountedInfos(calls, counter)[i] == CallInfo(calls[i].tool, IdOf(counter, i));
    assert ContentOf(world, outs[i]) == Content(world, outs[i]);
    hide CountedInfos, Content, ContentOf;
  }

  /** A batch that is executed: one result for each call, in order. */
  lemma {:induction false} PerformedIs(world: World, calls: seq<ToolCall>, counter: nat, outs: seq<ToolOutcome>,
                                       step: int)
    requires |outs| == |calls|
    ensures var infos, n := CountedInfos(calls, counter), |Front(calls, step)|;
            var added := Front(calls, step) + [CallMessage(infos, step)] + ToolResults(world, infos, outs, step);
            && Opens(calls, counter, step, added, n) && |added| == n + 1 + |calls|
            && forall i | 0 <= i < |calls| ::
                 added[n + 1 + i] == Message(Tool, Content(world, outs[i]), ToolResult, Some(step), Some(calls[i].tool),
                                             Some(IdOf(counter, i)), None)
  {
    assert |CountedInfos(calls, counter)| == |calls|;
    hide FreshId.FormatId, Opens, Front, Content, CountedInfos, IdOf, CallMessage;
    var results := ToolResults(world, CountedInfos(calls, counter), outs, step);
    OpensIs(calls, counter, step, results);
    forall i | 0 <= i < |calls|
      ensures results[i] == Message(Tool, Content(world, outs[i]), ToolResult, Some(step), Some(calls[i].tool),
                                    Some(IdOf(counter, i)), None)
    {
      ResultIs(world, calls, counter, outs, step, i);
    }
    hide ToolResults;
  }

  /** What a rejected answer leaves: a text itself and a nudge to the user, an empty batch the nudge alone; and any
      other batch every call's reasoning in order, one message with all calls, and for each a result with the reason.
      */
  lemma {:induction false} RejectedIs(response: LLMResponse, why: V.Rejection, nudge: string, step: int,
                                      infos: seq<CallInfo>)
    ensures var said := Message(User, nudge, RetryNudge, Some(step), None, None, None);
            var added := Rejected(response, why, nudge, step, infos);
            match response
            case Text(content) =>
              added == [Message(Assistant, content, TextResponse, Some(step), None, None, None), said]
            case ToolCalls(calls) =>
              if calls == [] then added == [said]
              else
                var front := Reasonings(calls, step, |calls|);
                && |added| == |front| + 1 + |infos| && added[..|front|] == front
                && added[|front|] == Message(Assistant, "", MessageType.ToolCall, Some(step), None, None, Some(infos))
                && forall i | 0 <= i < |infos| ::
                     added[|front| + 1 + i]
                     == Message(Tool, ReasonText(why) + " " + nudge, RetryNudge, Some(step), Some(infos[i].name),
                                Some(infos[i].callId), None)
  {
  }

  function ReasonText(why: V.Rejection): string {
    match why
    case UnknownTool(_) => "[UnknownTool]"
    case InvalidArguments => "[InvalidArguments]"
    case EmptyBatch => "[Guardrail]"
    case NoToolCall => "[Guardrail]"
  }

  /** The reasoning of calls in a row is that of each, where it has any. */
  lemma {:induction false} ReasoningsInARow(calls: seq<ToolCall>, call: ToolCall, step: int)
    ensures Reasonings([], step, 0) == []
    ensures Reasonings(calls + [call], step, |calls| + 1)
            == Reasonings(calls, step, |calls|)
               + match call.reasoning
                 case Some(text) => [Message(Assistant, text, Reasoning, Some(step), None, None, None)]
                 case None => []
  {
    ReasoningsBefore(calls, call, step, |calls|);
  }

  lemma {:induction false} ReasoningsBefore(calls: seq<ToolCall>, call: ToolCall, step: int, n: nat)
    requires n <= |calls|
    ensures Reasonings(calls + [call], step, n) == Reasonings(calls, step, n)
  {
    if n > 0 {
      ReasoningsBefore(calls, call, step, n - 1);
    }
  }
}
