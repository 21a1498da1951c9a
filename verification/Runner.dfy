/** The workflow loop: infer, enforce, execute, until a terminal tool has run or the budget of
    model calls is spent.

    The run is an object made of the conversation, the error tracker and the step enforcer. */
module Runner {
  import opened Wrappers
  import opened Response
  import opened Transcript
  import opened Steps
  import opened StepEnforcer
  import opened Pairing
  import opened Inference
  import ErrorTracker
  import FreshId
  import Json
  import V = ResponseValidator

  datatype Workflow = Workflow(rules: Rules, tools: set<string>, validator: V.Validator)

  datatype ToolOutcome = Output(value: Json.Value) | NotFound | Unresolved(text: string) | Broken(text: string)

  /** What an existing tool can answer. */
  type ToolReply = o: ToolOutcome | !o.NotFound? witness Broken("")

  /** The outside: the inference environment, cancellation, the tools, the scorers' objections, and wording.
      Tool executions are numbered, as are rounds of the loop. */
  datatype World = World(
    inference: Environment,
    cancelled: nat -> bool,
    execute: (nat, ToolCall) -> ToolReply,
    objection: (nat, seq<ToolCall>) -> Option<string>,
    finalObjection: (nat, seq<ToolCall>) -> Option<string>,
    blockedNudge: Verdict -> string,
    mixedNudge: seq<string> -> string,
    render: Json.Value -> string,
    interpret: Json.Value -> Json.Value)

  datatype RunResult =
    | Finished(value: Json.Value)
    | Cancelled | BackendError | RetriesSpent | StepEnforcement | PrerequisiteError | ToolFailed | MaxIterations

  // ---------- which executions are safe ----------

  function AsCall(e: Execution): ToolCall {
    ToolCall.ToolCall(e.tool, e.args, None, None)
  }

  /** Every execution had its prerequisites met, and every terminal one all required steps done, by earlier
      executions. */
  ghost predicate SafeLog(rules: Rules, log: seq<Execution>) {
    forall i | 0 <= i < |log| :: SafeAt(rules, log[..i], log[i])
  }

  predicate SafeAt(rules: Rules, before: seq<Execution>, e: Execution) {
    CallAllowed(rules, before, AsCall(e)) && (e.tool in rules.terminal ==> Satisfied(rules.required, before))
  }

  /** After a terminal tool nothing but terminal tools runs. */
  predicate TerminalsLast(rules: Rules, log: seq<Execution>) {
    forall i, j | 0 <= i < j < |log| :: log[i].tool in rules.terminal ==> log[j].tool in rules.terminal
  }

  predicate NoTerminal(rules: Rules, log: seq<Execution>) {
    forall i | 0 <= i < |log| :: log[i].tool !in rules.terminal
  }

  predicate Mixed(rules: Rules, calls: seq<ToolCall>) {
    HasTerminal(rules.terminal, calls) && HasOther(rules.terminal, calls)
  }

  /** The executions of the first `n` calls that gave an output. */
  function Executed(calls: seq<ToolCall>, outs: seq<ToolOutcome>, n: nat): seq<Execution>
    requires n <= |outs| <= |calls|
  {
    if n == 0 then []
    else
      Executed(calls, outs, n - 1)
      + (if outs[n - 1].Output? then [Execution(calls[n - 1].tool, calls[n - 1].args)] else [])
  }

  lemma SafeNext(rules: Rules, log: seq<Execution>, more: seq<Execution>, call: ToolCall)
    requires SafeLog(rules, log + more) && CallAllowed(rules, log, call)
    requires call.tool in rules.terminal ==> Satisfied(rules.required, log)
    ensures SafeLog(rules, log + more + [Execution(call.tool, call.args)])
  {
    var e := Execution(call.tool, call.args);
    var all := log + more + [e];
    assert all[..|log + more|] == log + more;
    CallAllowedMonotone(rules, log, more, call);
    hide CallAllowed, Satisfied;
    forall i | 0 <= i < |all| ensures SafeAt(rules, all[..i], all[i]) {
      if i < |log + more| {
        assert all[..i] == (log + more)[..i];
        assert SafeAt(rules, (log + more)[..i], (log + more)[i]);
      }
    }
  }

  lemma CallAllowedMonotone(rules: Rules, log: seq<Execution>, more: seq<Execution>, call: ToolCall)
    requires CallAllowed(rules, log, call)
    ensures CallAllowed(rules, log + more, AsCall(Execution(call.tool, call.args)))
    ensures Satisfied(rules.required, log) ==> Satisfied(rules.required, log + more)
  {
    var ps := PrerequisitesOf(rules, call.tool);
    hide Met, Satisfied;
    RecordingIsMonotone(log, more, rules.required, call.args, NameOnly(""));
    forall i | 0 <= i < |ps| ensures Met(log + more, call.args, ps[i]) {
      RecordingIsMonotone(log, more, rules.required, call.args, ps[i]);
    }
  }

  /** Executing an allowed batch, however its calls turn out, keeps the log safe. */
  lemma {:induction false} BatchIsSafe(rules: Rules, log: seq<Execution>, calls: seq<ToolCall>,
                                       outs: seq<ToolOutcome>, n: nat)
    requires n <= |calls| == |outs| && SafeLog(rules, log)
    requires StepsAllow(rules, log, calls) && PrerequisitesAllow(rules, log, calls)
    ensures SafeLog(rules, log + Executed(calls, outs, n))
  {
    hide SafeLog, CallAllowed, Satisfied;
    if n == 0 {
      assert log + [] == log;
    } else {
      BatchIsSafe(rules, log, calls, outs, n - 1);
      var more, call := Executed(calls, outs, n - 1), calls[n - 1];
      if outs[n - 1].Output? {
        assert call.tool in rules.terminal ==> HasTerminal(rules.terminal, calls);
        SafeNext(rules, log, more, call);
        assert log + (more + [Execution(call.tool, call.args)]) == log + more + [Execution(call.tool, call.args)];
      } else {
        assert more + [] == more;
      }
    }
  }

  lemma {:induction false} ExecutedTools(calls: seq<ToolCall>, outs: seq<ToolOutcome>, n: nat, terminal: set<string>)
    requires n <= |calls| == |outs|
    ensures !HasTerminal(terminal, calls) ==>
            forall i | 0 <= i < |Executed(calls, outs, n)| :: Executed(calls, outs, n)[i].tool !in terminal
    ensures !HasOther(terminal, calls) ==>
            forall i | 0 <= i < |Executed(calls, outs, n)| :: Executed(calls, outs, n)[i].tool in terminal
  {
    if n > 0 {
      ExecutedTools(calls, outs, n - 1, terminal);
    }
  }

  lemma TerminalsStayLast(rules: Rules, log: seq<Execution>, calls: seq<ToolCall>, outs: seq<ToolOutcome>)
    requires |calls| == |outs| && NoTerminal(rules, log) && !Mixed(rules, calls)
    ensures TerminalsLast(rules, log + Executed(calls, outs, |calls|))
    ensures !HasTerminal(rules.terminal, calls) ==> NoTerminal(rules, log + Executed(calls, outs, |calls|))
  {
    hide Executed, HasTerminal, HasOther;
    ExecutedTools(calls, outs, |calls|, rules.terminal);
  }

  // ---------- the transcript ----------

  /** Identifiers straight from the counter, without looking at the transcript. */
  function CountedInfos(calls: seq<ToolCall>, counter: nat): seq<CallInfo> {
    seq(|calls|, i requires 0 <= i < |calls| => CallInfo(calls[i].tool,
                                                         FreshId.FormatId(FreshId.CALL_PREFIX, counter + i)))
  }

  /** Only the first call's reasoning is kept. */
  function Front(calls: seq<ToolCall>, step: int): seq<Message> {
    if calls != [] && calls[0].reasoning.Some? then [ReasoningMessage(calls[0].reasoning.value, step)] else []
  }

  /** No call of the transcript carries an identifier made from one of these numbers. */
  ghost predicate Unclaimed(ms: seq<Message>, numbers: set<nat>) {
    forall k | k in numbers :: FreshId.FormatId(FreshId.CALL_PREFIX, k) !in CallIds(ms, |ms|)
  }

  /** What holds of the transcript at every point of a run that began with `ms0`, when the runner itself has `drawn`
      these numbers and the run has `written` these messages: it stays paired, orderly, or unblocked if no batch was
      rejected or blocked, where compaction respects that; call identifiers stay unique when the seed's are and none of
      its calls carries one that was drawn; and without compaction only then. */
  ghost predicate Healthy(env: Environment, ms0: seq<Message>, ms: seq<Message>, counter: nat, drawn: set<nat>,
                          written: seq<Message>)
  {
    && (KeepsPairing(env) && WellPaired(ms0) ==> WellPaired(ms))
    && (KeepsOrder(env) && Orderly(ms0) ==> Orderly(ms))
    && (KeepsUnblocked(env) && Unblocked(ms0) && NoNudgeAnswers(written, |written|) ==> Unblocked(ms))
    && (forall k | k in drawn :: k < counter)
    && (KeepsUnique(env) ==> Traced(ms0, ms, counter))
    && (KeepsUnique(env) && UniqueCalls(ms0) && Unclaimed(ms0, drawn) ==> UniqueCalls(ms))
    && (NeverCompacts(env) ==> ms == ms0 + written && (UniqueCalls(ms) ==> UniqueCalls(ms0) && Unclaimed(ms0, drawn)))
  }

  lemma TracedTwice(ms0: seq<Message>, ms: seq<Message>, from: nat, ms': seq<Message>, to: nat)
    requires Traced(ms0, ms, from) && Traced(ms, ms', to) && from <= to
    ensures Traced(ms0, ms', to)
  {
    hide CallIds, FreshId.FormatId;
    forall id | id in CallIds(ms', |ms'|) && id !in CallIds(ms0, |ms0|) ensures MadeBelow(id, to) {
      if id in CallIds(ms, |ms|) {
        assert MadeBelow(id, from);
      }
    }
  }

  lemma HealthyAfterInference(env: Environment, ms0: seq<Message>, ms: seq<Message>, from: nat, drawn: set<nat>,
                              written: seq<Message>, ms': seq<Message>, to: nat, persisted: seq<Message>,
                              numbers: seq<nat>)
    requires Healthy(env, ms0, ms, from, drawn, written) && Coherent(env, ms, from, ms', to, persisted, numbers)
    ensures Healthy(env, ms0, ms', to, drawn, written + persisted)
  {
    hide KeepsPairing, KeepsOrder, KeepsUnique, WellPaired, Orderly, Regular, UniqueCalls, NeverCompacts, CallIds,
         Mentions, Numbered, Traced, Unclaimed, Unblocked, KeepsUnblocked, NoNudgeAnswers, FreshId.FormatId;
    NoNudgeAnswersConcat(written, persisted);
    if NeverCompacts(env) {
      assert ms0 + written + persisted == ms0 + (written + persisted);
    }
    if KeepsUnique(env) {
      TracedTwice(ms0, ms, from, ms', to);
    }
    if NeverCompacts(env) && UniqueCalls(ms') {
      UniqueParts(ms, persisted);
    }
  }

  lemma TracedIsFresh(ms0: seq<Message>, ms: seq<Message>, counter: nat, k: nat)
    requires Traced(ms0, ms, counter) && k >= counter
             && FreshId.FormatId(FreshId.CALL_PREFIX, k) !in CallIds(ms0, |ms0|)
    ensures FreshId.FormatId(FreshId.CALL_PREFIX, k) !in CallIds(ms, |ms|)
  {
    hide FreshId.FormatId, CallIds;
    var id := FreshId.FormatId(FreshId.CALL_PREFIX, k);
    if id in CallIds(ms, |ms|) {
      assert MadeBelow(id, counter);
      var j: nat :| j < counter && id == FreshId.FormatId(FreshId.CALL_PREFIX, j);
      FreshId.FormatIdInjective(FreshId.CALL_PREFIX, j, k);
    }
  }

  lemma CountedAreNumbered(calls: seq<ToolCall>, counter: nat) returns (numbers: seq<nat>)
    ensures Numbered(IdsOf(CountedInfos(calls, counter)), numbers, counter, counter + |calls|)
  {
    hide FreshId.FormatId;
    numbers := seq(|calls|, i requires 0 <= i < |calls| => counter + i);
  }

  /** The numbers the runner draws for `n` calls. */
  function Drawn(counter: nat, n: nat): (numbers: set<nat>)
    ensures forall k :: k in numbers <==> counter <= k < counter + n
  {
    if n == 0 then {} else Drawn(counter, n - 1) + {counter + n - 1}
  }

  /** A counted group with its results keeps the transcript healthy. */
  lemma HealthyGroup(env: Environment, ms0: seq<Message>, ms: seq<Message>, counter: nat, drawn: set<nat>,
                     written: seq<Message>, calls: seq<ToolCall>, results: seq<Message>, step: int)
    requires Healthy(env, ms0, ms, counter, drawn, written)
    requires Answers(CountedInfos(calls, counter), results) && InStep(results, Some(step))
    ensures var group := Front(calls, step) + [CallMessage(CountedInfos(calls, counter), step)] + results;
            && Healthy(env, ms0, ms + group, counter + |calls|, drawn + Drawn(counter, |calls|), written + group)
            && Extends(ms, ms + group)
  {
    var front, infos := Front(calls, step), CountedInfos(calls, counter);
    FrontIsPlain(calls, step);
    hide FreshId.FormatId, KeepsPairing, KeepsOrder, KeepsUnique, NeverCompacts, WellPaired, Orderly, Regular,
         UniqueCalls, Traced, Unclaimed, CallIds, Numbered, Answers, InStep, AllPlain, NoWarnings, NoIds, CountedInfos,
         Front, IdsOf, Unblocked, KeepsUnblocked, NoNudgeAnswers;
    var group := front + [CallMessage(infos, step)] + results;
    GroupFits(front, infos, results, step);
    GroupIsRegular(front, CallMessage(infos, step), results);
    ExtendsBy(ms, group);
    hide Extends;
    if KeepsPairing(env) && WellPaired(ms0) {
      WellPairedConcat(ms, group);
    }
    UnblockedExtended(ms, written, group);
    UnclaimedUnion(ms0, drawn, Drawn(counter, |calls|));
    var numbers := CountedAreNumbered(calls, counter);
    NumberedAreUnique(group, numbers, counter, counter + |calls|);
    if KeepsUnique(env) {
      TracedExtended(ms0, ms, counter, group, numbers, counter + |calls|);
      if UniqueCalls(ms0) && Unclaimed(ms0, drawn + Drawn(counter, |calls|)) {
        GroupIsFresh(ms0, ms, calls, counter, group);
      }
    }
    if NeverCompacts(env) {
      assert ms0 + written + group == ms0 + (written + group);
    }
    if NeverCompacts(env) && UniqueCalls(ms + group) {
      UniqueParts(ms, group);
      GroupWasUnclaimed(ms0, ms, calls, counter, group);
    }
  }

  lemma UnblockedExtended(ms: seq<Message>, written: seq<Message>, group: seq<Message>)
    requires WellPaired(group) && Regular(group)
    ensures Orderly(ms) ==> Orderly(ms + group)
    ensures NoNudgeAnswers(written + group, |written + group|) ==>
              NoNudgeAnswers(written, |written|) && (Unblocked(ms) ==> Unblocked(ms + group))
  {
    hide WellPaired, Regular, NoNudgeAnswers;
    if Orderly(ms) {
      OrderlyExtended(ms, group);
    }
    NoNudgeAnswersConcat(written, group);
    NoNudgeAnswersConcat(ms, group);
  }

  lemma UnclaimedUnion(ms: seq<Message>, a: set<nat>, b: set<nat>)
    ensures Unclaimed(ms, a + b) <==> Unclaimed(ms, a) && Unclaimed(ms, b)
  {
    hide FreshId.FormatId, CallIds;
  }

  /** The runner's own calls are unique where none of their numbers was claimed. */
  lemma GroupIsFresh(ms0: seq<Message>, ms: seq<Message>, calls: seq<ToolCall>, counter: nat, group: seq<Message>)
    requires Traced(ms0, ms, counter) && Unclaimed(ms0, Drawn(counter, |calls|))
    requires CallIds(group, |group|) == IdsOf(CountedInfos(calls, counter)) && UniqueCalls(ms) && UniqueCalls(group)
    ensures UniqueCalls(ms + group)
  {
    hide FreshId.FormatId, CallIds, IdsOf, CountedInfos, Traced, UniqueCalls;
    CountedIds(calls, counter);
    forall id | id in CallIds(group, |group|) ensures id !in CallIds(ms, |ms|) {
      var k: nat :| counter <= k < counter + |calls| && id == FreshId.FormatId(FreshId.CALL_PREFIX, k);
      assert k in Drawn(counter, |calls|);
      TracedIsFresh(ms0, ms, counter, k);
    }
    UniqueConcat(ms, group);
  }

  /** And only there, when the seed's calls are still in the transcript. */
  lemma GroupWasUnclaimed(ms0: seq<Message>, ms: seq<Message>, calls: seq<ToolCall>, counter: nat, group: seq<Message>)
    requires ms0 <= ms && CallIds(group, |group|) == IdsOf(CountedInfos(calls, counter))
    requires UniqueCalls(ms) && UniqueCalls(group) && UniqueCalls(ms + group)
    ensures Unclaimed(ms0, Drawn(counter, |calls|))
  {
    hide FreshId.FormatId, CallIds, IdsOf, CountedInfos, UniqueCalls;
    CountedIds(calls, counter);
    UniqueConcat(ms, group);
    var rest := ms[|ms0|..];
    assert ms == ms0 + rest;
    CallIdsConcat(ms0, rest, |rest|);
  }

  lemma FrontIsPlain(calls: seq<ToolCall>, step: int)
    ensures AllPlain(Front(calls, step)) && NoWarnings(Front(calls, step)) && NoIds(Front(calls, step))
  {
  }

  /** The runner does not look: its call message keeps the calls unique exactly when none of the
      counter's next identifiers is already on a call, as it may be in a seeded transcript. */
  lemma {:induction false} CountedCallsCollideExactly(calls: seq<ToolCall>, counter: nat, step: int, seed: seq<Message>)
    requires UniqueCalls(seed)
    ensures UniqueCalls(seed + [CallMessage(CountedInfos(calls, counter), step)])
            <==> forall k: nat | counter <= k < counter + |calls| ::
                FreshId.FormatId(FreshId.CALL_PREFIX, k) !in CallIds(seed, |seed|)
  {
    hide CallIds, FreshId.FormatId, Distinct, IdsOf, CountedInfos;
    var infos := CountedInfos(calls, counter);
    var call := CallMessage(infos, step);
    var x, y := CallIds(seed, |seed|), IdsOf(infos);
    var numbers := CountedAreNumbered(calls, counter);
    NumberedAreDistinct(y, numbers, counter, counter + |calls|);
    CallIdsConcat(seed, [call], 1);
    OneCallIds(infos, step);
    DistinctExactly(x, y);
    CountedIds(calls, counter);
  }

  lemma CountedIds(calls: seq<ToolCall>, counter: nat)
    ensures var y := IdsOf(CountedInfos(calls, counter));
            && (forall k: nat | counter <= k < counter + |calls| :: FreshId.FormatId(FreshId.CALL_PREFIX, k) in y)
            && (forall id | id in y ::
                exists k: nat :: counter <= k < counter + |calls| && id == FreshId.FormatId(FreshId.CALL_PREFIX, k))
  {
    hide FreshId.FormatId;
    var y := IdsOf(CountedInfos(calls, counter));
    forall k: nat | counter <= k < counter + |calls| ensures FreshId.FormatId(FreshId.CALL_PREFIX, k) in y {
      assert y[k - counter] == FreshId.FormatId(FreshId.CALL_PREFIX, k);
    }
    forall id | id in y ensures
        exists k: nat :: counter <= k < counter + |calls| && id == FreshId.FormatId(FreshId.CALL_PREFIX, k) {
      var i :| 0 <= i < |y| && y[i] == id;
      assert id == FreshId.FormatId(FreshId.CALL_PREFIX, counter + i);
    }
  }

  // ---------- executing a batch ----------

  /** The text of the result message a call leaves behind. */
  function ContentOf(world: World, o: ToolOutcome): string {
    match o
    case Output(value) => world.render(value)
    case NotFound => "[TOOL_ERROR] Tool not found"
    case Unresolved(text) => "[ToolResolutionError] " + text
    case Broken(text) => "[ToolError] ToolExecutionError: " + text
  }

  function ToolResults(world: World, infos: seq<CallInfo>, outs: seq<ToolOutcome>, step: int): seq<Message>
    requires |infos| == |outs|
  {
    seq(|infos|, i requires 0 <= i < |infos| => ResultMessage(infos[i], ContentOf(world, outs[i]), ToolResult, step))
  }

  function HardErrors(outs: seq<ToolOutcome>, n: nat): nat
    requires n <= |outs|
  {
    if n == 0 then 0 else HardErrors(outs, n - 1) + (if outs[n - 1].Broken? then 1 else 0)
  }

  /** The value of the last terminal call among the first `n` that gave an output. */
  function TerminalValue(world: World, terminal: set<string>, calls: seq<ToolCall>, outs: seq<ToolOutcome>,
                         n: nat): (r: Option<Json.Value>)
    requires n <= |outs| <= |calls|
    ensures r.Some? <==> exists i | 0 <= i < n :: calls[i].tool in terminal && outs[i].Output?
  {
    if n == 0 then None
    else if calls[n - 1].tool in terminal && outs[n - 1].Output? then Some(world.interpret(outs[n - 1].value))
    else TerminalValue(world, terminal, calls, outs, n - 1)
  }

  /** How many of the first `n` calls name an existing tool: each of these is one execution. */
  function Found(tools: set<string>, calls: seq<ToolCall>, n: nat): nat
    requires n <= |calls|
  {
    if n == 0 then 0 else Found(tools, calls, n - 1) + (if calls[n - 1].tool in tools then 1 else 0)
  }

  function OutcomeAt(world: World, tools: set<string>, calls: seq<ToolCall>, from: nat, i: nat): ToolOutcome
    requires i < |calls|
  {
    if calls[i].tool in tools then world.execute(from + Found(tools, calls, i), calls[i]) else NotFound
  }

  /** What a batch gets, the executions before it being `from`: existing tools are run in order, others are not found.
      */
  function Outcomes(world: World, tools: set<string>, calls: seq<ToolCall>, from: nat): (outs: seq<ToolOutcome>)
    ensures |outs| == |calls|
  {
    seq(|calls|, i requires 0 <= i < |calls| => OutcomeAt(world, tools, calls, from, i))
  }

  /** The batch ends the run: its outputs extend the log, and the value is that of its last terminal call with an
      output. */
  predicate EndsWith(world: World, workflow: Workflow, calls: seq<ToolCall>, from: nat, before: seq<Execution>,
                     after: seq<Execution>, value: Json.Value)
  {
    var outs := Outcomes(world, workflow.tools, calls, from);
    && NoTerminal(workflow.rules, before) && after == before + Executed(calls, outs, |calls|)
    && TerminalValue(world, workflow.rules.terminal, calls, outs, |calls|) == Some(value)
  }

  /** The calls of the `k`-th reply of the model. */
  function CallsOf(world: World, workflow: Workflow, k: nat): seq<ToolCall>
    requires AcceptedReply(world.inference, workflow.validator, k)
  {
    StripIds(V.Validate(workflow.validator, world.inference.reply(k).value).value)
  }

  /** The last reply was accepted, and its batch ended the run with this value. */
  ghost predicate FinishedBy(world: World, workflow: Workflow, llmCalls: nat, log: seq<Execution>, value: Json.Value) {
    && llmCalls >= 1 && AcceptedReply(world.inference, workflow.validator, llmCalls - 1)
    && EndsRun(world, workflow, CallsOf(world, workflow, llmCalls - 1), log, value)
  }

  ghost predicate EndsRun(world: World, workflow: Workflow, calls: seq<ToolCall>, log: seq<Execution>,
                          value: Json.Value) {
    exists from, before :: EndsWith(world, workflow, calls, from, before, log, value)
  }

  /** What the checkpoints make of a batch, in their order. */
  datatype Judgement = MixedBatch | TooEarly | Lacking | Objected | Allowed

  function Judge(world: World, rules: Rules, log: seq<Execution>, calls: seq<ToolCall>, round: nat): Judgement {
    if Mixed(rules, calls) then MixedBatch
    else if !StepsAllow(rules, log, calls) then TooEarly
    else if !PrerequisitesAllow(rules, log, calls) then Lacking
    else if world.objection(round, calls).Some? || world.finalObjection(round, calls).Some? then Objected
    else Allowed
  }

  /** How an executed batch ends: too many tool errors, a terminal output, or neither. */
  function BatchEnd(world: World, rules: Rules, calls: seq<ToolCall>, outs: seq<ToolOutcome>, errors: int,
                    maxToolErrors: int): Option<RunResult>
    requires |outs| == |calls|
  {
    if HardErrors(outs, |outs|) > 0 && errors > maxToolErrors then Some(ToolFailed)
    else match TerminalValue(world, rules.terminal, calls, outs, |calls|)
      case Some(v) => Some(Finished(v))
      case None => None
  }

  /** The last reply was accepted, and its batch was judged so by the log as it stands. */
  ghost predicate StoppedAt(world: World, workflow: Workflow, llmCalls: nat, log: seq<Execution>, j: Judgement) {
    && llmCalls >= 1 && AcceptedReply(world.inference, workflow.validator, llmCalls - 1)
    && Judge(world, workflow.rules, log, CallsOf(world, workflow, llmCalls - 1), llmCalls) == j
  }

  /** The last reply was accepted, and executing its batch broke a tool. */
  ghost predicate FailedBy(world: World, workflow: Workflow, llmCalls: nat, log: seq<Execution>) {
    && llmCalls >= 1 && AcceptedReply(world.inference, workflow.validator, llmCalls - 1)
    && Breaks(world, workflow, CallsOf(world, workflow, llmCalls - 1), log)
  }

  ghost predicate Breaks(world: World, workflow: Workflow, calls: seq<ToolCall>, log: seq<Execution>) {
    exists from, before :: BreaksFrom(world, workflow, calls, from, before, log)
  }

  predicate BreaksFrom(world: World, workflow: Workflow, calls: seq<ToolCall>, from: nat, before: seq<Execution>,
                       after: seq<Execution>)
  {
    var outs := Outcomes(world, workflow.tools, calls, from);
    HardErrors(outs, |outs|) > 0 && after == before + Executed(calls, outs, |calls|)
  }

  datatype BatchResult = Terminal(value: Json.Value) | Continue | Failed

  datatype Limits = Limits(maxIterations: int, maxRetries: int, maxToolErrors: int)

  /** What a run has executed and counted so far. */
  datatype Tally = Tally(log: seq<Execution>, executions: nat, retries: int, toolErrors: int, premature: int,
                         violations: int)

  /** What a batch makes of the tally, by the checkpoint that decides: an objection costs a retry, a premature or a
      lacking batch is counted, and an allowed one is executed. Nothing else moves. */
  function Next(world: World, workflow: Workflow, calls: seq<ToolCall>, round: nat, before: Tally): Tally {
    match Judge(world, workflow.rules, before.log, calls, round)
    case TooEarly => before.(premature := before.premature + 1)
    case Lacking => before.(violations := before.violations + 1)
    case Allowed =>
      var outs := Outcomes(world, workflow.tools, calls, before.executions);
      var hard := HardErrors(outs, |outs|);
      Tally(before.log + Executed(calls, outs, |calls|),
            before.executions + Found(workflow.tools, calls, |calls|), before.retries,
            if hard == 0 then 0 else before.toolErrors + hard,
            if hard == 0 then 0 else before.premature, if hard == 0 then 0 else before.violations)
    case _ => before.(retries := before.retries + 1)
  }

  /** How a batch moves the tally, and whether it ends the run: a blocked one does exactly when its counter passes its
      limit. */
  predicate Acted(world: World, workflow: Workflow, limits: Limits, calls: seq<ToolCall>, round: nat, before: Tally,
                  after: Tally, r: Option<RunResult>)
  {
    && after == Next(world, workflow, calls, round, before)
    && r == match Judge(world, workflow.rules, before.log, calls, round)
            case TooEarly => if after.premature > workflow.rules.maxPremature then Some(StepEnforcement) else None
            case Lacking => if after.violations > workflow.rules.maxViolations then Some(PrerequisiteError) else None
            case Allowed =>
              BatchEnd(world, workflow.rules, calls, Outcomes(world, workflow.tools, calls, before.executions),
                       after.toolErrors, limits.maxToolErrors)
            case _ => if after.retries > limits.maxRetries then Some(RetriesSpent) else None
  }

  /** The messages of a batch that is answered with a nudge per call. */
  function Nudged(calls: seq<ToolCall>, counter: nat, kind: MessageType, text: string, step: int): seq<Message> {
    var infos := CountedInfos(calls, counter);
    Front(calls, step) + [CallMessage(infos, step)] + ResultMessages(infos, text, kind, step)
  }

  /** What a batch leaves in the transcript, by the checkpoint that decides: an allowed one its results, any other a
      nudge that says which checkpoint it was and why, or nothing when it ends the run. */
  ghost predicate Wrote(world: World, workflow: Workflow, calls: seq<ToolCall>, round: nat, step: int, before: Tally,
                        counter: nat, added: seq<Message>, ended: bool)
  {
    var rules, log := workflow.rules, before.log;
    var j := Judge(world, rules, log, calls, round);
    if j.Allowed? then
      var infos := CountedInfos(calls, counter);
      var outs := Outcomes(world, workflow.tools, calls, before.executions);
      added == Front(calls, step) + [CallMessage(infos, step)] + ToolResults(world, infos, outs, step)
    else if ended then added == []
    else if j.MixedBatch? then
      var nudge := world.mixedNudge(PendingOf(rules.required, log, |rules.required|));
      added == Nudged(calls, counter, RetryNudge, "[MixedTerminalBatch] " + nudge, step)
    else if j.TooEarly? then NudgedEarly(world, rules, log, calls, before.premature + 1, step, counter, added)
    else if j.Lacking? then NudgedLacking(world, rules, log, calls, step, counter, added)
    else
      var objection := world.objection(round, calls);
      added == Nudged(calls, counter, RetryNudge,
                      if objection.Some? then "[ClassifierNudge] " + objection.value
                      else "[FinalResponseNudge] " + GetOr(world.finalObjection(round, calls)), step)
  }

  function GetOr(text: Option<string>): string {
    if text.Some? then text.value else ""
  }

  ghost predicate NudgedEarly(world: World, rules: Rules, log: seq<Execution>, calls: seq<ToolCall>, attempts: int,
                              step: int, counter: nat, added: seq<Message>)
  {
    exists v | ReportsPremature(rules, log, calls, attempts, v) ::
      added == Nudged(calls, counter, StepNudge, "[StepEnforcementError] " + world.blockedNudge(v), step)
  }

  ghost predicate NudgedLacking(world: World, rules: Rules, log: seq<Execution>, calls: seq<ToolCall>, step: int,
                                counter: nat, added: seq<Message>)
  {
    exists v | ReportsMissing(rules, log, calls, v) ::
      added == Nudged(calls, counter, PrerequisiteNudge, "[PrerequisiteError] " + world.blockedNudge(v), step)
  }

  // ---------- the tally of a run is its history ----------

  /** The tally after the first `n` replies of the model: a rejected reply costs a retry, an accepted one clears them
      and has its batch acted on. A reply that never came moves nothing. */
  function Replay(world: World, workflow: Workflow, start: Tally, n: nat): Tally {
    if n == 0 then start
    else
      var t := Replay(world, workflow, start, n - 1);
      if AcceptedReply(world.inference, workflow.validator, n - 1) then
        Next(world, workflow, CallsOf(world, workflow, n - 1), n, t.(retries := 0))
      else if RejectedReply(world.inference, workflow.validator, n - 1) then t.(retries := t.retries + 1)
      else t
  }

  /** How the batch of the `k`-th reply was judged, if it was accepted. */
  function JudgedAt(world: World, workflow: Workflow, start: Tally, k: nat): Option<Judgement> {
    if AcceptedReply(world.inference, workflow.validator, k) then
      Some(Judge(world, workflow.rules, Replay(world, workflow, start, k).log, CallsOf(world, workflow, k), k + 1))
    else None
  }

  /** How many tools broke when the batch of the `k`-th reply was executed, if it was. */
  function BrokenAt(world: World, workflow: Workflow, start: Tally, k: nat): nat {
    if JudgedAt(world, workflow, start, k) == Some(Allowed) then
      var outs := Outcomes(world, workflow.tools, CallsOf(world, workflow, k),
                           Replay(world, workflow, start, k).executions);
      HardErrors(outs, |outs|)
    else 0
  }

  /** The batch of the `k`-th reply was executed and no tool broke. */
  predicate CleanAt(world: World, workflow: Workflow, start: Tally, k: nat) {
    JudgedAt(world, workflow, start, k) == Some(Allowed) && BrokenAt(world, workflow, start, k) == 0
  }

  /** The number of replies up to the last clean batch among the first `n`. */
  function LastClean(world: World, workflow: Workflow, start: Tally, n: nat): (m: nat)
    ensures m <= n
  {
    if n == 0 || CleanAt(world, workflow, start, n - 1) then n else LastClean(world, workflow, start, n - 1)
  }

  function LastAccepted(world: World, workflow: Workflow, n: nat): (m: nat)
    ensures m <= n
  {
    if n == 0 || AcceptedReply(world.inference, workflow.validator, n - 1) then n
    else LastAccepted(world, workflow, n - 1)
  }

  /** How many batches of the replies from `from` to before `n` were judged so. */
  function Times(world: World, workflow: Workflow, start: Tally, j: Judgement, from: nat, n: nat): nat
    requires from <= n
  {
    if n == from then 0
    else
      Times(world, workflow, start, j, from, n - 1)
      + if JudgedAt(world, workflow, start, n - 1) == Some(j) then 1 else 0
  }

  function BrokenSince(world: World, workflow: Workflow, start: Tally, from: nat, n: nat): nat
    requires from <= n
  {
    if n == from then 0
    else BrokenSince(world, workflow, start, from, n - 1) + BrokenAt(world, workflow, start, n - 1)
  }

  function RejectedSince(world: World, workflow: Workflow, from: nat, n: nat): nat
    requires from <= n
  {
    if n == from then 0
    else
      RejectedSince(world, workflow, from, n - 1)
      + if RejectedReply(world.inference, workflow.validator, n - 1) then 1 else 0
  }

  /** What a counter begins with that was last cleared after `since` replies. */
  function Carried(since: nat, first: int): int {
    if since == 0 then first else 0
  }

  /** The premature batches since the last clean one. */
  function PrematureSince(world: World, workflow: Workflow, start: Tally, n: nat): int {
    var m := LastClean(world, workflow, start, n);
    Carried(m, start.premature) + Times(world, workflow, start, TooEarly, m, n)
  }

  /** The batches lacking a prerequisite since the last clean one. */
  function LackingSince(world: World, workflow: Workflow, start: Tally, n: nat): int {
    var m := LastClean(world, workflow, start, n);
    Carried(m, start.violations) + Times(world, workflow, start, Lacking, m, n)
  }

  /** The broken tools since the last clean batch. */
  function ErrorsSince(world: World, workflow: Workflow, start: Tally, n: nat): int {
    var m := LastClean(world, workflow, start, n);
    Carried(m, start.toolErrors) + BrokenSince(world, workflow, start, m, n)
  }

  /** The rejected replies since the last accepted one, and one more if its batch was objected to. */
  function RetriesSince(world: World, workflow: Workflow, start: Tally, n: nat): int {
    var m := LastAccepted(world, workflow, n);
    Carried(m, start.retries) + RejectedSince(world, workflow, m, n)
    + if m > 0 && JudgedAt(world, workflow, start, m - 1) in {Some(MixedBatch), Some(Objected)} then 1 else 0
  }

  lemma {:induction false} LastIsLast(world: World, workflow: Workflow, start: Tally, n: nat)
    ensures var m := LastClean(world, workflow, start, n);
            && (m > 0 ==> CleanAt(world, workflow, start, m - 1))
            && forall k | m <= k < n :: !CleanAt(world, workflow, start, k)
    ensures var m := LastAccepted(world, workflow, n);
            && (m > 0 ==> AcceptedReply(world.inference, workflow.validator, m - 1))
            && forall k | m <= k < n :: !AcceptedReply(world.inference, workflow.validator, k)
  {
    hide CleanAt, AcceptedReply;
    if n > 0 {
      LastIsLast(world, workflow, start, n - 1);
    }
  }

  /** Each counter is the number of those events since whatever clears it. */
  lemma {:induction false} CountersAreHistory(world: World, workflow: Workflow, start: Tally, n: nat)
    ensures var t := Replay(world, workflow, start, n);
            && t.premature == PrematureSince(world, workflow, start, n)
            && t.violations == LackingSince(world, workflow, start, n)
            && t.toolErrors == ErrorsSince(world, workflow, start, n)
            && t.retries == RetriesSince(world, workflow, start, n)
  {
    hide Judge, CallsOf, Outcomes, HardErrors, Executed, Found, AcceptedReply, RejectedReply;
    if n > 0 {
      CountersAreHistory(world, workflow, start, n - 1);
    }
  }

  /** What it takes to end a run by a limit: more of those events since the counter was last cleared than the limit
      allows. */
  predicate Earned(world: World, workflow: Workflow, limits: Limits, start: Tally, n: nat, r: RunResult) {
    match r
    case StepEnforcement => PrematureSince(world, workflow, start, n) > workflow.rules.maxPremature
    case PrerequisiteError => LackingSince(world, workflow, start, n) > workflow.rules.maxViolations
    case ToolFailed => ErrorsSince(world, workflow, start, n) > limits.maxToolErrors
    case RetriesSpent => RetriesSince(world, workflow, start, n) > limits.maxRetries
    case _ => true
  }

  /** Why a run ended so: the counter that is beyond its limit, and what became of the last reply. */
  ghost predicate Explained(world: World, workflow: Workflow, limits: Limits, llmCalls: nat, t: Tally, r: RunResult) {
    match r
    case Finished(value) => FinishedBy(world, workflow, llmCalls, t.log, value)
    case Cancelled => world.cancelled(llmCalls)
    case BackendError => llmCalls >= 1 && world.inference.reply(llmCalls - 1).None?
    case RetriesSpent =>
      && t.retries > limits.maxRetries && llmCalls >= 1
      && (|| RejectedReply(world.inference, workflow.validator, llmCalls - 1)
          || StoppedAt(world, workflow, llmCalls, t.log, MixedBatch)
          || StoppedAt(world, workflow, llmCalls, t.log, Objected))
    case StepEnforcement =>
      t.premature > workflow.rules.maxPremature && StoppedAt(world, workflow, llmCalls, t.log, TooEarly)
    case PrerequisiteError =>
      t.violations > workflow.rules.maxViolations && StoppedAt(world, workflow, llmCalls, t.log, Lacking)
    case ToolFailed => t.toolErrors > limits.maxToolErrors && FailedBy(world, workflow, llmCalls, t.log)
    case MaxIterations => 0 <= limits.maxRetries < I32_MAX ==> llmCalls >= limits.maxIterations
  }

  /** The `n`-th reply did not end the run: the counter it moved is within its limit, and an executed batch gave no
      terminal output. */
  predicate GoesOn(world: World, workflow: Workflow, limits: Limits, start: Tally, n: nat)
    requires n >= 1
  {
    var t, j := Replay(world, workflow, start, n), JudgedAt(world, workflow, start, n - 1);
    && (RejectedReply(world.inference, workflow.validator, n - 1) ==> t.retries <= limits.maxRetries)
    && (j == Some(TooEarly) ==> t.premature <= workflow.rules.maxPremature)
    && (j == Some(Lacking) ==> t.violations <= workflow.rules.maxViolations)
    && (j == Some(MixedBatch) || j == Some(Objected) ==> t.retries <= limits.maxRetries)
    && (j == Some(Allowed) ==>
          && (BrokenAt(world, workflow, start, n - 1) > 0 ==> t.toolErrors <= limits.maxToolErrors)
          && var calls := CallsOf(world, workflow, n - 1);
             var outs := Outcomes(world, workflow.tools, calls, Replay(world, workflow, start, n - 1).executions);
             TerminalValue(world, workflow.rules.terminal, calls, outs, |calls|) == None)
  }

  /** None of these replies ended the run. */
  ghost predicate AllGoOn(world: World, workflow: Workflow, limits: Limits, start: Tally, n: nat) {
    forall k: nat | 1 <= k <= n :: GoesOn(world, workflow, limits, start, k)
  }

  lemma {:induction false} FewerGoOn(world: World, workflow: Workflow, limits: Limits, start: Tally, n: nat)
    requires AllGoOn(world, workflow, limits, start, n)
    ensures n >= 1 ==> AllGoOn(world, workflow, limits, start, n - 1)
  {
    hide GoesOn;
  }

  /** Rejected replies within the limit do not end the run. */
  lemma {:induction false} RejectionsGoOn(world: World, workflow: Workflow, limits: Limits, start: Tally, from: nat,
                                          n: nat)
    requires from <= n && AllGoOn(world, workflow, limits, start, from)
    requires forall k | from <= k < n :: RejectedReply(world.inference, workflow.validator, k)
    requires n > from ==> Replay(world, workflow, start, from).retries + n - from <= limits.maxRetries
    ensures AllGoOn(world, workflow, limits, start, n)
    ensures Replay(world, workflow, start, n)
            == Replay(world, workflow, start, from).(retries := Replay(world, workflow, start, from).retries + n - from)
  {
    hide Next, CallsOf, V.Validate, BrokenAt, Outcomes, TerminalValue, Judge;
    if n > from {
      RejectionsGoOn(world, workflow, limits, start, from, n - 1);
      assert RejectedReply(world.inference, workflow.validator, n - 1);
      RejectedIsNotAccepted(world, workflow, n - 1);
      hide AcceptedReply, RejectedReply;
      assert JudgedAt(world, workflow, start, n - 1) == None;
      assert GoesOn(world, workflow, limits, start, n);
      hide GoesOn;
    }
  }

  lemma {:induction false} RejectedIsNotAccepted(world: World, workflow: Workflow, k: nat)
    requires RejectedReply(world.inference, workflow.validator, k)
    ensures !AcceptedReply(world.inference, workflow.validator, k)
  {
  }

  /** A batch that did not end the run goes on. */
  lemma {:induction false} BatchGoesOn(world: World, workflow: Workflow, limits: Limits, start: Tally, n: nat,
                                       before: Tally, after: Tally)
    requires n >= 1 && AllGoOn(world, workflow, limits, start, n - 1)
    requires AcceptedReply(world.inference, workflow.validator, n - 1)
    requires before == Replay(world, workflow, start, n - 1).(retries := 0)
    requires after == Replay(world, workflow, start, n)
    requires Acted(world, workflow, limits, CallsOf(world, workflow, n - 1), n, before, after, None)
    ensures AllGoOn(world, workflow, limits, start, n)
  {
    hide Next, CallsOf, V.Validate, Outcomes, TerminalValue, Judge, HardErrors;
    var calls := CallsOf(world, workflow, n - 1);
    assert JudgedAt(world, workflow, start, n - 1)
        == Some(Judge(world, workflow.rules, before.log, calls, n));
    hide Replay;
    assert GoesOn(world, workflow, limits, start, n);
    hide GoesOn;
  }

  /** What an inference that used the replies from `round` to before `n` leaves behind: the tally is that of the
      replies, but for the batch still to be acted on; and an inference without a result has used up the budget, the
      retries or the backend. */
  ghost predicate Answered(world: World, workflow: Workflow, limits: Limits, start: Tally, t: Tally, inferred: Inferred,
                           round: nat, n: nat)
  {
    && (!inferred.Accepted? ==> t == Replay(world, workflow, start, n))
    && (n > round ==> AllGoOn(world, workflow, limits, start, n - 1))
    && match inferred
       case Accepted(calls, _, attempts) =>
         && attempts == n - round >= 1 && AcceptedReply(world.inference, workflow.validator, n - 1)
         && calls == CallsOf(world, workflow, n - 1) && t == Replay(world, workflow, start, n - 1).(retries := 0)
         && Replay(world, workflow, start, n) == Next(world, workflow, calls, n, t)
       case NoneLeft => 0 <= limits.maxRetries < I32_MAX ==> n >= limits.maxIterations
       case RetriesExhausted =>
         n > round && RejectedReply(world.inference, workflow.validator, n - 1) && t.retries > limits.maxRetries
       case BackendFailed => n > round && world.inference.reply(n - 1).None?
  }

  /** One run of one workflow. */
  class WorkflowRun {
    const workflow: Workflow
    const limits: Limits
    const world: World
    const conv: Conversation
    const tracker: ErrorTracker.ErrorTracker
    const enforcer: StepEnforcer
    var executions: nat
    /** The numbers made into identifiers without a look at the transcript. */
    ghost var drawn: set<nat>
    /** All messages the run has put into the transcript, in order. */
    ghost var written: seq<Message>
    /** The transcript before each request to the model, as it was handed to the context manager. */
    ghost var asked: seq<seq<Message>>

    ghost predicate Valid()
      reads this, enforcer, enforcer.tracker
    {
      && enforcer.Valid() && enforcer.rules == workflow.rules
      && tracker.maxRetries == limits.maxRetries && tracker.maxToolErrors == limits.maxToolErrors
    }

    ghost function Look(): Tally
      reads this, tracker, enforcer, enforcer.tracker
    {
      Tally(enforcer.tracker.log, executions, tracker.retries, tracker.toolErrors, enforcer.premature,
            enforcer.violations)
    }

    constructor (workflow: Workflow, limits: Limits, world: World, messages: seq<Message>)
      ensures Valid() && fresh(conv) && fresh(tracker) && fresh(enforcer) && fresh(enforcer.tracker)
      ensures this.workflow == workflow && this.limits == limits && this.world == world
      ensures conv.messages == messages && conv.counter == 0 && drawn == {} && written == [] && asked == []
      ensures Look() == Tally([], 0, 0, 0, 0, 0)
    {
      this.workflow, this.limits, this.world := workflow, limits, world;
      executions, drawn, written, asked := 0, {}, [], [];
      conv := new Conversation(messages);
      tracker := new ErrorTracker.ErrorTracker(limits.maxRetries, limits.maxToolErrors);
      enforcer := new StepEnforcer(workflow.rules);
    }

    method EmitAssistantToolCalls(calls: seq<ToolCall>, step: int) returns (infos: seq<CallInfo>)
      modifies conv, this`drawn
      ensures drawn == old(drawn) + Drawn(old(conv.counter), |calls|)
      ensures infos == CountedInfos(calls, old(conv.counter))
      ensures conv.messages == old(conv.messages) + Front(calls, step) + [CallMessage(infos, step)]
      ensures conv.counter == old(conv.counter) + |calls|
    {
      hide FreshId.FormatId;
      ghost var before := conv.messages;
      if calls != [] && calls[0].reasoning.Some? {
        conv.messages := conv.messages + [ReasoningMessage(calls[0].reasoning.value, step)];
      }
      assert conv.messages == before + Front(calls, step);
      infos := [];
      for i := 0 to |calls|
        invariant infos == CountedInfos(calls, old(conv.counter))[..i]
        invariant conv.counter == old(conv.counter) + i && conv.messages == before + Front(calls, step)
        invariant drawn == old(drawn)
      {
        infos := infos + [CallInfo(calls[i].tool, FreshId.FormatId(FreshId.CALL_PREFIX, conv.counter))];
        conv.counter := conv.counter + 1;
      }
      drawn := drawn + Drawn(old(conv.counter), |calls|);
      conv.messages := conv.messages + [CallMessage(infos, step)];
    }

    /** Answers a batch that is not executed with one nudge per call. */
    method Block(calls: seq<ToolCall>, kind: MessageType, text: string, step: int, ghost ms0: seq<Message>)
      returns (ghost added: seq<Message>)
      requires Healthy(world.inference, ms0, conv.messages, conv.counter, drawn, written) && IsNudge(kind)
      modifies conv, this`drawn, this`written
      ensures added == Nudged(calls, old(conv.counter), kind, text, step)
      ensures conv.messages == old(conv.messages) + added && written == old(written) + added
      ensures Healthy(world.inference, ms0, conv.messages, conv.counter, drawn, written)
      ensures Extends(old(conv.messages), conv.messages)
    {
      hide Healthy, Front, CountedInfos, Answers, NoWarnings, InStep, Extends;
      ghost var before, counter, already := conv.messages, conv.counter, drawn;
      var infos := EmitAssistantToolCalls(calls, step);
      ghost var begun := conv.messages;
      for i := 0 to |infos|
        invariant conv.messages == begun + ResultMessages(infos[..i], text, kind, step)
        invariant conv.counter == counter + |calls| && drawn == already + Drawn(counter, |calls|)
        invariant written == old(written)
      {
        assert ResultMessages(infos[..i + 1], text, kind, step)
            == ResultMessages(infos[..i], text, kind, step) + [ResultMessage(infos[i], text, kind, step)];
        conv.messages := conv.messages + [ResultMessage(infos[i], text, kind, step)];
      }
      assert infos[..|infos|] == infos;
      ResultMessagesAnswer(infos, text, kind, step);
      ghost var nudges := ResultMessages(infos, text, kind, step);
      HealthyGroup(world.inference, ms0, before, counter, already, written, calls, nudges, step);
      added := Front(calls, step) + [CallMessage(infos, step)] + nudges;
      assert conv.messages == before + added;
      written := written + added;
    }

    /** Runs the calls one after the other. The log gains exactly the calls that gave an output, every call
        gets its result message, and only calls that broke count as errors. */
    method ExecuteToolBatch(calls: seq<ToolCall>, infos: seq<CallInfo>, step: int)
      returns (r: BatchResult, ghost outs: seq<ToolOutcome>)
      requires Valid() && NamesMatch(infos, calls)
      modifies this`executions, conv`messages, tracker, enforcer, enforcer.tracker
      ensures Valid() && outs == Outcomes(world, workflow.tools, calls, old(executions))
      ensures executions == old(executions) + Found(workflow.tools, calls, |calls|)
      ensures enforcer.tracker.log == old(enforcer.tracker.log) + Executed(calls, outs, |calls|)
      ensures conv.messages == old(conv.messages) + ToolResults(world, infos, outs, step)
      ensures tracker.retries == old(tracker.retries)
      ensures tracker.toolErrors == if HardErrors(outs, |outs|) == 0
              then 0 else old(tracker.toolErrors) + HardErrors(outs, |outs|)
      ensures HardErrors(outs, |outs|) == 0 ==> enforcer.premature == 0 && enforcer.violations == 0
      ensures HardErrors(outs, |outs|) > 0 ==>
                enforcer.premature == old(enforcer.premature) && enforcer.violations == old(enforcer.violations)
      ensures r.Failed? <==> HardErrors(outs, |outs|) > 0 && tracker.toolErrors > limits.maxToolErrors
      ensures !r.Failed? ==> TerminalValue(world, workflow.rules.terminal, calls, outs, |calls|)
                             == if r.Terminal? then Some(r.value) else None
    {
      hide HardErrors, TerminalValue, Executed, ContentOf, ResultMessage, OutcomeAt, Found, ToolResults;
      var terminal: Option<Json.Value> := None;
      var results: seq<Message> := [];
      outs := [];
      var hadError := false;
      BatchBegins(world, workflow.rules.terminal, calls);
      assert enforcer.tracker.log + [] == enforcer.tracker.log;
      for i := 0 to |calls|
        invariant Valid() && |outs| == i
        invariant forall j | 0 <= j < i :: outs[j] == OutcomeAt(world, workflow.tools, calls, old(executions), j)
        invariant executions == old(executions) + Found(workflow.tools, calls, i)
        invariant enforcer.tracker.log == old(enforcer.tracker.log) + Executed(calls, outs, i)
        invariant results == ToolResults(world, infos[..i], outs, step)
        invariant conv.messages == old(conv.messages) && tracker.retries == old(tracker.retries)
        invariant enforcer.premature == old(enforcer.premature) && enforcer.violations == old(enforcer.violations)
        invariant tracker.toolErrors == old(tracker.toolErrors) + HardErrors(outs, i)
        invariant hadError <==> HardErrors(outs, i) > 0
        invariant terminal == TerminalValue(world, workflow.rules.terminal, calls, outs, i)
      {
        var out := ExecuteCall(calls[i]);
        NextOutcome(world, workflow.tools, calls, old(executions), i);
        BatchStep(world, workflow.rules.terminal, calls, outs, out);
        if out.Output? && calls[i].tool in workflow.rules.terminal {
          terminal := Some(world.interpret(out.value));
        }
        hadError := hadError || out.Broken?;
        ResultsStep(world, infos, outs, out, step);
        results := results + [ResultMessage(infos[i], ContentOf(world, out), ToolResult, step)];
        outs := outs + [out];
      }
      assert infos[..|calls|] == infos;
      conv.messages := conv.messages + results;
      if hadError {
        if tracker.ToolErrorsExhausted() {
          return Failed, outs;
        }
      } else {
        tracker.ResetErrors();
        enforcer.ResetPremature();
        enforcer.ResetViolations();
      }
      r := if terminal.Some? then Terminal(terminal.value) else Continue;
    }

    method ExecuteCall(call: ToolCall) returns (out: ToolOutcome)
      requires Valid()
      modifies this`executions, tracker, enforcer.tracker
      ensures Valid()
      ensures out == if call.tool in workflow.tools then world.execute(old(executions), call) else NotFound
      ensures executions == old(executions) + if call.tool in workflow.tools then 1 else 0
      ensures enforcer.tracker.log == old(enforcer.tracker.log) + if out.Output?
              then [Execution(call.tool, call.args)] else []
      ensures tracker.toolErrors == old(tracker.toolErrors) + if out.Broken? then 1 else 0
      ensures tracker.retries == old(tracker.retries)
    {
      if call.tool !in workflow.tools {
        return NotFound;
      }
      out := world.execute(executions, call);
      executions := executions + 1;
      match out
      case Output(_) => enforcer.Record(call.tool, Some(call.args));
      case Unresolved(_) => tracker.RecordResult(false, true);
      case Broken(_) => tracker.RecordResult(false, false);
      case NotFound =>
    }

    /** A batch the scorers object to costs a retry, and is answered with a nudge unless the retries are spent. */
    method Object(calls: seq<ToolCall>, text: string, step: int, ghost ms0: seq<Message>)
      returns (r: Option<RunResult>, ghost added: seq<Message>)
      requires Valid() && tracker.retries >= 0
      requires Healthy(world.inference, ms0, conv.messages, conv.counter, drawn, written)
      modifies conv, tracker, this`drawn, this`written
      ensures Valid() && tracker.retries >= 0
      ensures Healthy(world.inference, ms0, conv.messages, conv.counter, drawn, written)
      ensures Extends(old(conv.messages), conv.messages)
      ensures r == if tracker.retries > limits.maxRetries then Some(RetriesSpent) else None
      ensures conv.messages == old(conv.messages) + added
      ensures added == if r.Some? then [] else Nudged(calls, old(conv.counter), RetryNudge, text, step)
      ensures tracker.retries == old(tracker.retries) + 1 && tracker.toolErrors == old(tracker.toolErrors)
    {
      hide Healthy, Extends, Nudged;
      ExtendsItself(conv.messages);
      assert conv.messages + [] == conv.messages;
      tracker.RecordRetry();
      if tracker.RetriesExhausted() {
        return Some(RetriesSpent), [];
      }
      added := Block(calls, RetryNudge, text, step, ms0);
      r := None;
    }

    /** Emits an accepted batch and executes it. */
    method Perform(calls: seq<ToolCall>, step: int, ghost ms0: seq<Message>)
      returns (r: Option<RunResult>, ghost outs: seq<ToolOutcome>, ghost added: seq<Message>)
      requires Valid() && Healthy(world.inference, ms0, conv.messages, conv.counter, drawn, written)
      modifies this`executions, this`drawn, this`written, conv, tracker, enforcer, enforcer.tracker
      ensures Valid() && Healthy(world.inference, ms0, conv.messages, conv.counter, drawn, written)
      ensures Extends(old(conv.messages), conv.messages)
      ensures tracker.retries == old(tracker.retries)
      ensures outs == Outcomes(world, workflow.tools, calls, old(executions))
      ensures executions == old(executions) + Found(workflow.tools, calls, |calls|)
      ensures enforcer.tracker.log == old(enforcer.tracker.log) + Executed(calls, outs, |calls|)
      ensures var infos := CountedInfos(calls, old(conv.counter));
              added == Front(calls, step) + [CallMessage(infos, step)] + ToolResults(world, infos, outs, step)
      ensures conv.messages == old(conv.messages) + added && written == old(written) + added
      ensures var hard := HardErrors(outs, |outs|);
              && tracker.toolErrors == (if hard == 0 then 0 else old(tracker.toolErrors) + hard)
              && enforcer.premature == (if hard == 0 then 0 else old(enforcer.premature))
              && enforcer.violations == (if hard == 0 then 0 else old(enforcer.violations))
      ensures r == BatchEnd(world, workflow.rules, calls, outs, tracker.toolErrors, limits.maxToolErrors)
    {
      hide Healthy, Front, Answers, InStep, Executed, TerminalValue, HardErrors, ToolResults, FreshId.FormatId, Extends;
      ghost var before, counter, already := conv.messages, conv.counter, drawn;
      var infos := EmitAssistantToolCalls(calls, step);
      var batch;
      batch, outs := ExecuteToolBatch(calls, infos, step);
      ghost var results := ToolResults(world, infos, outs, step);
      ToolResultsAnswer(world, infos, outs, step);
      HealthyGroup(world.inference, ms0, before, counter, already, written, calls, results, step);
      added := Front(calls, step) + [CallMessage(infos, step)] + results;
      assert conv.messages == before + added;
      written := written + added;
      match batch
      case Terminal(value) => r := Some(Finished(value));
      case Continue => r := None;
      case Failed => r := Some(ToolFailed);
    }

    /** The checkpoints in their order; a batch that one of them stops is answered with nudges, or ends the run. */
    method Checkpoints(calls: seq<ToolCall>, round: nat, step: int, ghost ms0: seq<Message>)
      returns (stopped: bool, r: Option<RunResult>, ghost added: seq<Message>)
      requires Valid() && tracker.retries >= 0
      requires Healthy(world.inference, ms0, conv.messages, conv.counter, drawn, written)
      modifies this`drawn, this`written, conv, tracker, enforcer
      ensures Valid() && tracker.retries >= 0
      ensures Healthy(world.inference, ms0, conv.messages, conv.counter, drawn, written)
      ensures Extends(old(conv.messages), conv.messages) && conv.messages == old(conv.messages) + added
      ensures stopped <==> !Judge(world, workflow.rules, enforcer.tracker.log, calls, round).Allowed?
      ensures stopped ==>
                && Acted(world, workflow, limits, calls, round, old(Look()), Look(), r)
                && Wrote(world, workflow, calls, round, step, old(Look()), old(conv.counter), added, r.Some?)
      ensures !stopped ==> Look() == old(Look()) && added == [] && conv.counter == old(conv.counter)
    {
      hide Healthy, Satisfied, HasTerminal, HasOther, PrerequisitesAllow, ReportsPremature, ReportsMissing, PendingOf,
           Executed, HardErrors, Outcomes, Found, Extends, Mixed, StepsAllow, Nudged, ToolResults, CountedInfos, Front,
           BatchEnd;
      ExtendsItself(conv.messages);
      assert conv.messages + [] == conv.messages;
      added := [];
      if Mixed(workflow.rules, calls) {
        var pending := enforcer.tracker.Pending();
        r, added := Object(calls, "[MixedTerminalBatch] " + world.mixedNudge(pending), step, ms0);
        return true, r, added;
      }
      var steps := enforcer.Check(calls);
      if !steps.Pass? {
        if enforcer.PrematureExhausted() {
          return true, Some(StepEnforcement), [];
        }
        added := Block(calls, StepNudge, "[StepEnforcementError] " + world.blockedNudge(steps), step, ms0);
        return true, None, added;
      }
      var prerequisites := enforcer.CheckPrerequisites(calls);
      if !prerequisites.Pass? {
        if enforcer.ViolationsExhausted() {
          return true, Some(PrerequisiteError), [];
        }
        added := Block(calls, PrerequisiteNudge, "[PrerequisiteError] " + world.blockedNudge(prerequisites), step, ms0);
        return true, None, added;
      }
      var objection := world.objection(round, calls);
      if objection.Some? {
        r, added := Object(calls, "[ClassifierNudge] " + objection.value, step, ms0);
        return true, r, added;
      }
      objection := world.finalObjection(round, calls);
      if objection.Some? {
        r, added := Object(calls, "[FinalResponseNudge] " + objection.value, step, ms0);
        return true, r, added;
      }
      stopped, r := false, None;
    }

    /** What the loop does with a validated batch: `None` to go on, or how the run ends. */
    method Act(calls: seq<ToolCall>, round: nat, step: int, ghost ms0: seq<Message>)
      returns (r: Option<RunResult>, ghost added: seq<Message>)
      requires Valid() && tracker.retries >= 0
      requires Healthy(world.inference, ms0, conv.messages, conv.counter, drawn, written)
      requires SafeLog(workflow.rules, enforcer.tracker.log) && NoTerminal(workflow.rules, enforcer.tracker.log)
      modifies this`executions, this`drawn, this`written, conv, tracker, enforcer, enforcer.tracker
      ensures Valid() && tracker.retries >= 0
      ensures Healthy(world.inference, ms0, conv.messages, conv.counter, drawn, written)
      ensures Extends(old(conv.messages), conv.messages) && conv.messages == old(conv.messages) + added
      ensures SafeLog(workflow.rules, enforcer.tracker.log) && TerminalsLast(workflow.rules, enforcer.tracker.log)
      ensures r.None? ==> NoTerminal(workflow.rules, enforcer.tracker.log)
      ensures r.Some? && r.value.Finished? ==>
                Satisfied(workflow.rules.required, enforcer.tracker.log)
                    && !NoTerminal(workflow.rules, enforcer.tracker.log)
      ensures Acted(world, workflow, limits, calls, round, old(Look()), Look(), r)
      ensures Wrote(world, workflow, calls, round, step, old(Look()), old(conv.counter), added, r.Some?)
    {
      hide Healthy, SafeLog, Satisfied, HasTerminal, HasOther, PrerequisitesAllow, Executed, TerminalValue, HardErrors,
           Front, ToolResults, CountedInfos, Outcomes, Found, Extends, Mixed, StepsAllow, NoTerminal, TerminalsLast,
           Judge, Acted, Wrote, Next;
      NoTerminalIsLast(workflow.rules, enforcer.tracker.log);
      ghost var before, counter := Look(), conv.counter;
      var stopped;
      stopped, r, added := Checkpoints(calls, round, step, ms0);
      if stopped {
        StoppedKeepsLog(world, workflow, limits, calls, round, before, Look(), r);
        return;
      }
      assert conv.messages == old(conv.messages);
      ghost var outs := [];
      r, outs, added := Perform(calls, step, ms0);
      PerformedActs(world, workflow, limits, calls, round, step, before, Look(), counter, outs, added, r);
      AllowedKeepsLog(world, workflow.rules, before.log, calls, outs, round);
    }

    /** Asks the model once the budget allows, again after each rejected reply, and keeps the account of it. */
    method Infer(round: nat, ghost ms0: seq<Message>, ghost start: Tally) returns (inferred: Inferred, made: nat)
      requires Valid() && tracker.retries >= 0 && round < limits.maxIterations
      requires Healthy(world.inference, ms0, conv.messages, conv.counter, drawn, written)
      requires |asked| == round && Asked(world.inference, 0, ms0, asked, conv.messages)
      requires Look() == Replay(world, workflow, start, round) && AllGoOn(world, workflow, limits, start, round)
      modifies this`written, this`asked, conv, tracker
      ensures Valid() && tracker.retries >= 0 && round + made <= limits.maxIterations
      ensures Healthy(world.inference, ms0, conv.messages, conv.counter, drawn, written)
      ensures |asked| == round + made && Asked(world.inference, 0, ms0, asked, conv.messages)
      ensures Answered(world, workflow, limits, start, Look(), inferred, round, round + made)
    {
      hide Healthy, Coherent, Recorded, Persisted, RejectedReply, V.Validate, WellPaired, UniqueCalls, CallIds,
           Mentions, NeverCompacts, KeepsPairing, KeepsOrder, KeepsUnblocked, KeepsUnique, Orderly, Unblocked,
           NoNudgeAnswers, Replay, Next, Asked, Extends, StripIds, AllGoOn;
      ghost var before, from := conv.messages, conv.counter;
      var newMessages;
      ghost var numbers, notes, requests;
      inferred, made, newMessages, numbers, notes, requests :=
        RunInference(conv, tracker, workflow.validator, world.inference, round, round,
                     Some(limits.maxIterations - round));
      HealthyAfterInference(world.inference, ms0, before, from, drawn, written, conv.messages, conv.counter,
                            Persisted(newMessages, |newMessages|), numbers);
      written := written + Persisted(newMessages, |newMessages|);
      AskedConcat(world.inference, ms0, asked, before, requests, conv.messages);
      asked := asked + requests;
      if made > 0 {
        RejectionsGoOn(world, workflow, limits, start, round, round + made - 1);
        InferenceReplayed(world, workflow, start, round, round + made);
      }
    }

    /** The loop. `llmCalls` counts the model calls made: the `i`-th is answered by reply `i` of the environment. */
    method Run() returns (r: RunResult, llmCalls: nat)
      requires Valid() && enforcer.tracker.log == [] && tracker.retries == 0 && conv.counter == 0
      requires drawn == {} && written == [] && asked == []
      modifies this`executions, this`drawn, this`written, this`asked, conv, tracker, enforcer, enforcer.tracker
      ensures llmCalls <= limits.maxIterations || llmCalls == 0
      ensures SafeLog(workflow.rules, enforcer.tracker.log) && TerminalsLast(workflow.rules, enforcer.tracker.log)
      ensures r.Finished? ==>
                && Satisfied(workflow.rules.required, enforcer.tracker.log)
                && !NoTerminal(workflow.rules, enforcer.tracker.log)
      ensures !r.Finished? && !r.ToolFailed? ==> NoTerminal(workflow.rules, enforcer.tracker.log)
      ensures Explained(world, workflow, limits, llmCalls, Look(), r)
      ensures Look() == Replay(world, workflow, old(Look()), llmCalls)
      ensures Earned(world, workflow, limits, old(Look()), llmCalls, r)
      ensures llmCalls >= 1 ==> AllGoOn(world, workflow, limits, old(Look()), llmCalls - 1)
      ensures Healthy(world.inference, old(conv.messages), conv.messages, conv.counter, drawn, written)
      ensures |asked| == llmCalls && Asked(world.inference, 0, old(conv.messages), asked, conv.messages)
    {
      hide Healthy, SafeLog, Satisfied, NoTerminal, TerminalsLast, RejectedReply, AcceptedReply, Acted, StoppedAt,
           FailedBy, FinishedBy, CallsOf, Replay, PrematureSince, LackingSince, ErrorsSince, RetriesSince, Next,
           Asked, Extends, AllGoOn, Wrote;
      var iteration := 0;
      llmCalls := 0;
      EmptyLogIsSafe(workflow.rules);
      HealthyAtFirst(world.inference, conv.messages);
      ghost var start := Look();
      NothingReplayed(world, workflow, limits, start);
      NothingAsked(world.inference, 0, conv.messages);
      while iteration < limits.maxIterations
        invariant Valid() && tracker.retries >= 0 && iteration == llmCalls
        invariant llmCalls <= limits.maxIterations || llmCalls == 0
        invariant SafeLog(workflow.rules, enforcer.tracker.log) && NoTerminal(workflow.rules, enforcer.tracker.log)
        invariant TerminalsLast(workflow.rules, enforcer.tracker.log)
        invariant |asked| == llmCalls && Asked(world.inference, 0, old(conv.messages), asked, conv.messages)
        invariant Look() == Replay(world, workflow, old(Look()), llmCalls)
        invariant AllGoOn(world, workflow, limits, old(Look()), llmCalls)
        invariant Healthy(world.inference, old(conv.messages), conv.messages, conv.counter, drawn, written)
        decreases limits.maxIterations - iteration
      {
        FewerGoOn(world, workflow, limits, start, llmCalls);
        if world.cancelled(iteration) {
          return Cancelled, llmCalls;
        }
        var inferred, made := Infer(llmCalls, old(conv.messages), start);
        llmCalls := llmCalls + made;
        match inferred {
          case NoneLeft => return MaxIterations, llmCalls;
          case RetriesExhausted =>
            EndIsEarned(world, workflow, limits, start, llmCalls, Look(), RetriesSpent);
            return RetriesSpent, llmCalls;
          case BackendFailed => return BackendError, llmCalls;
          case Accepted(calls, _, attempts) =>
            iteration := iteration + attempts;
            ghost var tally, sent := Look(), conv.messages;
            ghost var wrote;
            var end;
            end, wrote := Act(calls, llmCalls, iteration, old(conv.messages));
            AskedExtended(world.inference, 0, old(conv.messages), asked, sent, conv.messages);
            ActedMoves(world, workflow, limits, calls, llmCalls, tally, Look(), end);
            if end.Some? {
              HowItEnded(world, workflow, limits, calls, llmCalls, tally, Look(), end.value);
              EndIsEarned(world, workflow, limits, start, llmCalls, Look(), end.value);
              return end.value, llmCalls;
            }
            BatchGoesOn(world, workflow, limits, start, llmCalls, tally, Look());
        }
      }
      FewerGoOn(world, workflow, limits, start, llmCalls);
      r := MaxIterations;
    }
  }

  lemma NothingReplayed(world: World, workflow: Workflow, limits: Limits, start: Tally)
    ensures Replay(world, workflow, start, 0) == start && AllGoOn(world, workflow, limits, start, 0)
  {
  }

  /** A round of inference: all its replies but the last are rejected. */
  lemma {:induction false} InferenceReplayed(world: World, workflow: Workflow, start: Tally, from: nat, n: nat)
    requires from < n && forall k | from <= k < n - 1 :: RejectedReply(world.inference, workflow.validator, k)
    ensures var t, after := Replay(world, workflow, start, from), Replay(world, workflow, start, n);
            && (AcceptedReply(world.inference, workflow.validator, n - 1) ==>
                  after == Next(world, workflow, CallsOf(world, workflow, n - 1), n, t.(retries := 0)))
            && (RejectedReply(world.inference, workflow.validator, n - 1) ==>
                  after == t.(retries := t.retries + n - from))
            && (world.inference.reply(n - 1).None? ==> after == t.(retries := t.retries + n - from - 1))
  {
    if n - 1 > from {
      InferenceReplayed(world, workflow, start, from, n - 1);
      assert RejectedReply(world.inference, workflow.validator, n - 2);
    }
    hide Next, CallsOf, V.Validate;
  }

  lemma ActedMoves(world: World, workflow: Workflow, limits: Limits, calls: seq<ToolCall>, round: nat, before: Tally,
                   after: Tally, r: Option<RunResult>)
    requires Acted(world, workflow, limits, calls, round, before, after, r)
    ensures after == Next(world, workflow, calls, round, before)
  {
  }

  lemma EndIsEarned(world: World, workflow: Workflow, limits: Limits, start: Tally, n: nat, t: Tally, end: RunResult)
    requires t == Replay(world, workflow, start, n) && Explained(world, workflow, limits, n, t, end)
    ensures Earned(world, workflow, limits, start, n, end)
  {
    CountersAreHistory(world, workflow, start, n);
    hide Replay, PrematureSince, LackingSince, ErrorsSince, RetriesSince;
  }

  /** A batch that is stopped leaves log and executions alone, and does not finish the run. */
  lemma {:induction false} StoppedKeepsLog(world: World, workflow: Workflow, limits: Limits, calls: seq<ToolCall>,
                                           round: nat, before: Tally, after: Tally, r: Option<RunResult>)
    requires !Judge(world, workflow.rules, before.log, calls, round).Allowed?
    requires Acted(world, workflow, limits, calls, round, before, after, r)
    ensures after.log == before.log && after.executions == before.executions && !(r.Some? && r.value.Finished?)
  {
    hide Judge;
  }

  lemma {:induction false} PerformedActs(world: World, workflow: Workflow, limits: Limits, calls: seq<ToolCall>,
                                         round: nat, step: int, before: Tally, after: Tally, counter: nat,
                                         outs: seq<ToolOutcome>, added: seq<Message>, r: Option<RunResult>)
    requires Judge(world, workflow.rules, before.log, calls, round).Allowed?
    requires outs == Outcomes(world, workflow.tools, calls, before.executions)
    requires after.log == before.log + Executed(calls, outs, |calls|)
    requires after.executions == before.executions + Found(workflow.tools, calls, |calls|)
    requires after.retries == before.retries
    requires var hard := HardErrors(outs, |outs|);
             && after.toolErrors == (if hard == 0 then 0 else before.toolErrors + hard)
             && after.premature == (if hard == 0 then 0 else before.premature)
             && after.violations == (if hard == 0 then 0 else before.violations)
    requires r == BatchEnd(world, workflow.rules, calls, outs, after.toolErrors, limits.maxToolErrors)
    requires var infos := CountedInfos(calls, counter);
             added == Front(calls, step) + [CallMessage(infos, step)] + ToolResults(world, infos, outs, step)
    ensures Acted(world, workflow, limits, calls, round, before, after, r)
    ensures Wrote(world, workflow, calls, round, step, before, counter, added, r.Some?)
  {
    hide Judge, BatchEnd, Executed, Outcomes, Found, HardErrors, CountedInfos, Front, ToolResults;
  }

  lemma {:induction false} AllowedKeepsLog(world: World, rules: Rules, log: seq<Execution>, calls: seq<ToolCall>,
                                           outs: seq<ToolOutcome>, round: nat)
    requires Judge(world, rules, log, calls, round).Allowed? && |outs| == |calls|
    requires SafeLog(rules, log) && NoTerminal(rules, log)
    ensures var after := log + Executed(calls, outs, |calls|);
            && SafeLog(rules, after) && TerminalsLast(rules, after)
            && if TerminalValue(world, rules.terminal, calls, outs, |calls|).Some?
               then !NoTerminal(rules, after) && Satisfied(rules.required, after)
               else NoTerminal(rules, after)
  {
    hide SafeLog, Satisfied, HasTerminal, HasOther, PrerequisitesAllow, Executed, TerminalValue, Mixed, StepsAllow,
         NoTerminal, TerminalsLast;
    BatchIsSafe(rules, log, calls, outs, |calls|);
    TerminalsStayLast(rules, log, calls, outs);
    BatchEnds(world, rules, log, calls, outs);
  }

  lemma NoTerminalIsLast(rules: Rules, log: seq<Execution>)
    requires NoTerminal(rules, log)
    ensures TerminalsLast(rules, log)
  {
  }

  lemma EmptyLogIsSafe(rules: Rules)
    ensures SafeLog(rules, []) && NoTerminal(rules, []) && TerminalsLast(rules, [])
  {
  }

  /** A batch that ends the run explains how it ended. */
  lemma HowItEnded(world: World, workflow: Workflow, limits: Limits, calls: seq<ToolCall>, llmCalls: nat,
                   before: Tally, after: Tally, end: RunResult)
    requires llmCalls >= 1 && AcceptedReply(world.inference, workflow.validator, llmCalls - 1)
    requires calls == CallsOf(world, workflow, llmCalls - 1) && NoTerminal(workflow.rules, before.log)
    requires Acted(world, workflow, limits, calls, llmCalls, before, after, Some(end))
    ensures Explained(world, workflow, limits, llmCalls, after, end)
    ensures !end.Finished? && !end.ToolFailed? ==> after.log == before.log
  {
    hide Executed, Outcomes, HardErrors, TerminalValue, StripIds, V.Validate, Judge, NoTerminal, RejectedReply;
    if Judge(world, workflow.rules, before.log, calls, llmCalls).Allowed? {
      var outs := Outcomes(world, workflow.tools, calls, before.executions);
      if end.Finished? {
        assert EndsWith(world, workflow, calls, before.executions, before.log, after.log, end.value);
      } else {
        assert BreaksFrom(world, workflow, calls, before.executions, before.log, after.log);
      }
    }
  }

  lemma HealthyAtFirst(env: Environment, ms: seq<Message>)
    ensures Healthy(env, ms, ms, 0, {}, [])
  {
  }

  /** A terminal output means a terminal tool is in the log, which needed all required steps before it. */
  lemma BatchEnds(world: World, rules: Rules, log: seq<Execution>, calls: seq<ToolCall>, outs: seq<ToolOutcome>)
    requires |outs| == |calls| && NoTerminal(rules, log) && StepsAllow(rules, log, calls)
    ensures var after := log + Executed(calls, outs, |calls|);
            if TerminalValue(world, rules.terminal, calls, outs, |calls|).Some?
            then !NoTerminal(rules, after) && Satisfied(rules.required, after)
            else NoTerminal(rules, after)
  {
    hide Satisfied, Executed;
    var after := log + Executed(calls, outs, |calls|);
    if TerminalValue(world, rules.terminal, calls, outs, |calls|).Some? {
      var i :| 0 <= i < |calls| && calls[i].tool in rules.terminal && outs[i].Output?;
      assert HasTerminal(rules.terminal, calls);
      RecordingIsMonotone(log, Executed(calls, outs, |calls|), rules.required, [], NameOnly(""));
      var k := ExecutedAt(calls, outs, |calls|, i);
      assert after[|log| + k].tool in rules.terminal;
    } else {
      forall k | 0 <= k < |Executed(calls, outs, |calls|)| ensures Executed(calls, outs,
          |calls|)[k].tool !in rules.terminal {
        var i := ExecutedFrom(calls, outs, |calls|, k);
      }
    }
  }

  lemma {:induction false} ExecutedAt(calls: seq<ToolCall>, outs: seq<ToolOutcome>, n: nat, i: nat) returns (k: nat)
    requires i < n <= |outs| <= |calls| && outs[i].Output?
    ensures k < |Executed(calls, outs, n)| && Executed(calls, outs, n)[k].tool == calls[i].tool
  {
    if i == n - 1 {
      k := |Executed(calls, outs, n - 1)|;
    } else {
      k := ExecutedAt(calls, outs, n - 1, i);
    }
  }

  lemma {:induction false} ExecutedFrom(calls: seq<ToolCall>, outs: seq<ToolOutcome>, n: nat, k: nat) returns (i: nat)
    requires n <= |outs| <= |calls| && k < |Executed(calls, outs, n)|
    ensures i < n && outs[i].Output? && Executed(calls, outs, n)[k].tool == calls[i].tool
  {
    if k < |Executed(calls, outs, n - 1)| {
      i := ExecutedFrom(calls, outs, n - 1, k);
    } else {
      i := n - 1;
    }
  }

  lemma BatchBegins(world: World, terminal: set<string>, calls: seq<ToolCall>)
    ensures Executed(calls, [], 0) == [] && HardErrors([], 0) == 0
            && TerminalValue(world, terminal, calls, [], 0) == None
    ensures forall tools :: Found(tools, calls, 0) == 0
    ensures forall step :: ToolResults(world, [], [], step) == []
  {
  }

  lemma NextOutcome(world: World, tools: set<string>, calls: seq<ToolCall>, from: nat, i: nat)
    requires i < |calls|
    ensures OutcomeAt(world, tools, calls, from, i)
            == if calls[i].tool in tools then world.execute(from + Found(tools, calls, i), calls[i]) else NotFound
    ensures Found(tools, calls, i + 1) == Found(tools, calls, i) + if calls[i].tool in tools then 1 else 0
  {
  }

  lemma BatchStep(world: World, terminal: set<string>, calls: seq<ToolCall>, outs: seq<ToolOutcome>, out: ToolOutcome)
    requires |outs| < |calls|
    ensures var call, n := calls[|outs|], |outs|;
            && Executed(calls, outs + [out], n + 1)
               == Executed(calls, outs, n) + (if out.Output? then [Execution(call.tool, call.args)] else [])
            && HardErrors(outs + [out], n + 1) == HardErrors(outs, n) + (if out.Broken? then 1 else 0)
            && TerminalValue(world, terminal, calls, outs + [out], n + 1)
               == if out.Output? && call.tool in terminal
                   then Some(world.interpret(out.value)) else TerminalValue(world, terminal, calls, outs, n)
  {
    BatchPrefix(world, terminal, calls, outs, out, |outs|);
  }

  lemma {:induction false} BatchPrefix(world: World, terminal: set<string>, calls: seq<ToolCall>,
                                       outs: seq<ToolOutcome>, out: ToolOutcome, n: nat)
    requires n <= |outs| < |calls|
    ensures Executed(calls, outs + [out], n) == Executed(calls, outs, n)
    ensures TerminalValue(world, terminal, calls, outs + [out], n) == TerminalValue(world, terminal, calls, outs, n)
    ensures HardErrors(outs + [out], n) == HardErrors(outs, n)
  {
    if n > 0 {
      BatchPrefix(world, terminal, calls, outs, out, n - 1);
    }
  }

  lemma ResultsStep(world: World, infos: seq<CallInfo>, outs: seq<ToolOutcome>, out: ToolOutcome, step: int)
    requires |outs| < |infos|
    ensures ToolResults(world, infos[..|outs| + 1], outs + [out], step)
            == ToolResults(world, infos[..|outs|], outs, step)
                + [ResultMessage(infos[|outs|], ContentOf(world, out), ToolResult, step)]
  {
    hide ContentOf, ResultMessage;
  }

  lemma ToolResultsAnswer(world: World, infos: seq<CallInfo>, outs: seq<ToolOutcome>, step: int)
    requires |infos| == |outs|
    ensures Answers(infos, ToolResults(world, infos, outs, step))
            && InStep(ToolResults(world, infos, outs, step), Some(step))
  {
  }
}
