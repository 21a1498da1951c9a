/** What holds over whole runs of the guardrails: any answers checked and any executions recorded, in any order. */
module GuardRuns {
  import opened Wrappers
  import opened Response
  import opened Steps
  import opened StepEnforcer
  import opened Guardrails
  import Json
  import V = ResponseValidator

  /** An answer of the model, and the scoring context it is checked with, if any. */
  datatype Answer = Answer(response: LLMResponse, context: Option<ScoringContext>)

  datatype Event = Checked(answer: Answer) | Recorded(names: seq<string>)

  function Step(cfg: Config, s: State, e: Event): State {
    match e
    case Checked(answer) => Check(cfg, s, answer.response, answer.context).0
    case Recorded(names) => Record(s, names)
  }

  /** The state after the first `n` events. */
  function After(cfg: Config, events: seq<Event>, n: nat): State
    requires n <= |events|
  {
    if n == 0 then FRESH else Step(cfg, After(cfg, events, n - 1), events[n - 1])
  }

  function OutcomeAt(cfg: Config, events: seq<Event>, n: nat): Outcome
    requires n < |events| && events[n].Checked?
  {
    Check(cfg, After(cfg, events, n), events[n].answer.response, events[n].answer.context).1
  }

  // ---------- the log is the history of recordings ----------

  predicate RecordedBefore(events: seq<Event>, n: nat, tool: string)
    requires n <= |events|
  {
    exists i | 0 <= i < n :: events[i].Recorded? && tool in events[i].names
  }

  lemma LogGrows(log: seq<Execution>, names: seq<string>, tool: string)
    ensures Ran(log + Logged(names), tool) <==> Ran(log, tool) || tool in names
  {
    var all := log + Logged(names);
    assert forall i | 0 <= i < |log| :: all[i] == log[i];
    assert forall i | 0 <= i < |names| :: all[|log| + i] == Execution(names[i], []);
  }

  lemma CheckKeepsLog(cfg: Config, s: State, response: LLMResponse, context: Option<ScoringContext>)
    ensures Check(cfg, s, response, context).0.log == s.log
  {
    hide StepsAllow, PrerequisitesAllow;
  }

  lemma {:induction false} LogIsHistory(cfg: Config, events: seq<Event>, n: nat, tool: string)
    requires n <= |events|
    ensures Ran(After(cfg, events, n).log, tool) <==> RecordedBefore(events, n, tool)
  {
    if n > 0 {
      hide Check, Ran, Logged, RecordedBefore;
      LogIsHistory(cfg, events, n - 1, tool);
      HistoryGrows(events, n, tool);
      var s := After(cfg, events, n - 1);
      match events[n - 1]
      case Checked(answer) => CheckKeepsLog(cfg, s, answer.response, answer.context);
      case Recorded(names) => LogGrows(s.log, names, tool);
    }
  }

  lemma HistoryGrows(events: seq<Event>, n: nat, tool: string)
    requires 0 < n <= |events|
    ensures RecordedBefore(events, n, tool)
            <==> RecordedBefore(events, n - 1, tool) || (events[n - 1].Recorded? && tool in events[n - 1].names)
  {
  }

  /** Recording through the facade passes no arguments on. */
  lemma {:induction false} LogHasNoArguments(cfg: Config, events: seq<Event>, n: nat, i: nat)
    requires n <= |events| && i < |After(cfg, events, n).log|
    ensures After(cfg, events, n).log[i].args == []
  {
    if n > 0 {
      hide Check;
      var s := After(cfg, events, n - 1);
      match events[n - 1] {
        case Checked(answer) => CheckKeepsLog(cfg, s, answer.response, answer.context);
        case Recorded(names) =>
      }
      if i < |s.log| {
        LogHasNoArguments(cfg, events, n - 1, i);
      }
    }
  }

  /** A prerequisite by the recordings so far; one on an argument is met only by a call that leaves it out or null. */
  predicate MetBefore(events: seq<Event>, n: nat, args: Args, p: Prerequisite)
    requires n <= |events|
  {
    RecordedBefore(events, n, p.tool) && (p.ArgMatched? ==> ArgOf(args, p.matchArg) == Json.Null)
  }

  lemma MetIsHistory(cfg: Config, events: seq<Event>, n: nat, args: Args, p: Prerequisite)
    requires n <= |events|
    ensures Met(After(cfg, events, n).log, args, p) <==> MetBefore(events, n, args, p)
  {
    hide After, RecordedBefore;
    LogIsHistory(cfg, events, n, p.tool);
    var log := After(cfg, events, n).log;
    if p.ArgMatched? {
      forall i | 0 <= i < |log| ensures log[i].args == [] {
        LogHasNoArguments(cfg, events, n, i);
      }
    }
  }

  // ---------- safety over every run ----------

  predicate AllRequiredRecorded(cfg: Config, events: seq<Event>, n: nat)
    requires n <= |events|
  {
    forall i | 0 <= i < |cfg.rules.required| :: RecordedBefore(events, n, cfg.rules.required[i])
  }

  predicate EveryPrerequisiteMet(cfg: Config, events: seq<Event>, n: nat, call: ToolCall)
    requires n <= |events|
  {
    var ps := PrerequisitesOf(cfg.rules, call.tool);
    forall i | 0 <= i < |ps| :: MetBefore(events, n, call.args, ps[i])
  }

  /** A batch is handed out for execution exactly when the answer is valid, it holds no terminal tool before
      all required steps are recorded, every prerequisite of every call is met by what was recorded before it,
      and no scorer that was asked objects. */
  lemma ExecutedExactly(cfg: Config, events: seq<Event>, n: nat, calls: seq<ToolCall>)
    requires n < |events| && events[n].Checked?
    ensures OutcomeAt(cfg, events, n) == Execute(calls) <==>
              && V.Validate(cfg.validator, events[n].answer.response) == Ok(calls)
              && (HasTerminal(cfg.rules.terminal, calls) ==> AllRequiredRecorded(cfg, events, n))
              && (forall i | 0 <= i < |calls| :: EveryPrerequisiteMet(cfg, events, n, calls[i]))
              && !(cfg.scorer.Some? && events[n].answer.context.Some?
                   && Objects(cfg.scorer.value, events[n].answer.context.value, calls))
  {
    hide After, RecordedBefore, Met, MetBefore, HasTerminal, Ran;
    var log := After(cfg, events, n).log;
    forall tool ensures Ran(log, tool) <==> RecordedBefore(events, n, tool) {
      LogIsHistory(cfg, events, n, tool);
    }
    forall args, p ensures Met(log, args, p) <==> MetBefore(events, n, args, p) {
      MetIsHistory(cfg, events, n, args, p);
    }
    forall call: ToolCall ensures CallAllowed(cfg.rules, log, call) <==> EveryPrerequisiteMet(cfg, events, n, call) {
    }
    hide CallAllowed, EveryPrerequisiteMet;
  }

  /** `record` reports the workflow finished exactly when it recorded a terminal tool and every required step
      has been recorded by then. */
  lemma FinishedExactly(cfg: Config, events: seq<Event>, n: nat)
    requires n < |events| && events[n].Recorded?
    ensures Finishes(cfg, After(cfg, events, n), events[n].names) <==>
              && (exists i | 0 <= i < |events[n].names| :: events[n].names[i] in cfg.rules.terminal)
              && AllRequiredRecorded(cfg, events, n + 1)
  {
    hide RecordedBefore, Ran;
    var m := n + 1;
    var log := After(cfg, events, m).log;
    assert After(cfg, events, m) == Record(After(cfg, events, n), events[n].names);
    forall tool ensures Ran(log, tool) <==> RecordedBefore(events, m, tool) {
      LogIsHistory(cfg, events, m, tool);
    }
    hide After;
  }

  /** Once all required steps are recorded they stay so. */
  lemma SatisfactionIsNeverLost(cfg: Config, events: seq<Event>, m: nat, n: nat)
    requires m <= n <= |events| && Satisfied(cfg.rules.required, After(cfg, events, m).log)
    ensures Satisfied(cfg.rules.required, After(cfg, events, n).log)
  {
    hide After, Ran;
    forall i | 0 <= i < |cfg.rules.required| ensures Ran(After(cfg, events, n).log, cfg.rules.required[i]) {
      var tool := cfg.rules.required[i];
      LogIsHistory(cfg, events, m, tool);
      LogIsHistory(cfg, events, n, tool);
    }
  }

  // ---------- bounded objections ----------

  function Trunc(n: int): nat {
    if n < 0 then 0 else n
  }

  /** Blocks still allowed count a whole round of retries each, since a valid answer resets the retries. */
  function Budget(cfg: Config, s: State): nat {
    var blocks := Trunc(cfg.rules.maxPremature - s.premature) + Trunc(cfg.rules.maxViolations - s.violations);
    blocks * (Trunc(cfg.maxRetries) + 1)
    + Trunc(cfg.maxRetries - s.retries)
  }

  predicate Objection(o: Outcome) {
    o.Retry? || o.StepBlocked?
  }

  lemma BlockSpends(blocks: int, round: int, left: int)
    requires blocks >= 1 && round >= 1 && 0 <= left
    ensures (blocks - 1) * round + (round - 1) < blocks * round + left
  {
    assert blocks * round == (blocks - 1) * round + round;
  }

  /** In its context the scorer objects to an answer that validation, steps and prerequisites let pass. */
  predicate ScorerObjectsTo(cfg: Config, log: seq<Execution>, a: Answer) {
    && cfg.scorer.Some? && a.context.Some? && V.Validate(cfg.validator, a.response).Ok?
    && var calls := V.Validate(cfg.validator, a.response).value;
       && StepsAllow(cfg.rules, log, calls) && PrerequisitesAllow(cfg.rules, log, calls)
       && Objects(cfg.scorer.value, a.context.value, calls)
  }

  /** The scorer can object, in some context, without the objection being fatal. */
  ghost predicate ScorerCanObject(cfg: Config, log: seq<Execution>) {
    cfg.maxRetries >= 1 && exists a :: ScorerObjectsTo(cfg, log, a)
  }

  lemma ObjectionSpends(cfg: Config, s: State, a: Answer)
    requires s.retries >= 0 && Objection(Check(cfg, s, a.response, a.context).1)
    requires a.context.Some? ==> !ScorerCanObject(cfg, s.log)
    ensures Budget(cfg, Check(cfg, s, a.response, a.context).0) < Budget(cfg, s)
    ensures Check(cfg, s, a.response, a.context).0.retries >= 0
  {
    hide StepsAllow, PrerequisitesAllow, Objects;
    assert a.context.Some? ==> cfg.maxRetries < 1 || !ScorerObjectsTo(cfg, s.log, a);
    var (s', o) := Check(cfg, s, a.response, a.context);
    if o.StepBlocked? {
      var blocks := Trunc(cfg.rules.maxPremature - s.premature) + Trunc(cfg.rules.maxViolations - s.violations);
      assert Trunc(cfg.rules.maxPremature - s'.premature) + Trunc(cfg.rules.maxViolations - s'.violations)
             == blocks - 1;
      BlockSpends(blocks, Trunc(cfg.maxRetries) + 1, Trunc(cfg.maxRetries - s.retries));
    } else {
      assert s'.premature == s.premature && s'.violations == s.violations && s'.retries == s.retries + 1;
      hide Check, ScorerObjectsTo;
    }
  }

  /** The state after checking the first `n` answers in a row, nothing being recorded between. */
  function AfterChecks(cfg: Config, s: State, answers: seq<Answer>, n: nat): State
    requires n <= |answers|
  {
    if n == 0 then s
    else Check(cfg, AfterChecks(cfg, s, answers, n - 1), answers[n - 1].response, answers[n - 1].context).0
  }

  predicate ObjectedAt(cfg: Config, s: State, answers: seq<Answer>, i: nat)
    requires i < |answers|
  {
    Objection(Check(cfg, AfterChecks(cfg, s, answers, i), answers[i].response, answers[i].context).1)
  }

  predicate AllObjections(cfg: Config, s: State, answers: seq<Answer>, n: nat)
    requires n <= |answers|
  {
    forall i | 0 <= i < n :: ObjectedAt(cfg, s, answers, i)
  }

  lemma {:induction false} ChecksKeepLog(cfg: Config, s: State, answers: seq<Answer>, n: nat)
    requires n <= |answers|
    ensures AfterChecks(cfg, s, answers, n).log == s.log
  {
    hide Check;
    if n > 0 {
      ChecksKeepLog(cfg, s, answers, n - 1);
      CheckKeepsLog(cfg, AfterChecks(cfg, s, answers, n - 1), answers[n - 1].response, answers[n - 1].context);
    }
  }

  lemma ObjectedSpends(cfg: Config, s: State, answers: seq<Answer>, i: nat)
    requires i < |answers| && ObjectedAt(cfg, s, answers, i) && AfterChecks(cfg, s, answers, i).retries >= 0
    requires answers[i].context.Some? ==> !ScorerCanObject(cfg, s.log)
    ensures AfterChecks(cfg, s, answers, i + 1).retries >= 0
    ensures Budget(cfg, AfterChecks(cfg, s, answers, i + 1)) < Budget(cfg, AfterChecks(cfg, s, answers, i))
  {
    hide Check, Budget, Objection, ScorerCanObject;
    ChecksKeepLog(cfg, s, answers, i);
    ObjectionSpends(cfg, AfterChecks(cfg, s, answers, i), answers[i]);
  }

  /** No answer is scored, or no scored answer can be objected to for good. */
  ghost predicate Spending(cfg: Config, log: seq<Execution>, answers: seq<Answer>) {
    forall i | 0 <= i < |answers| :: answers[i].context.Some? ==> !ScorerCanObject(cfg, log)
  }

  lemma {:induction false} ObjectionsSpend(cfg: Config, s: State, answers: seq<Answer>, n: nat)
    requires n <= |answers| && s.retries >= 0 && AllObjections(cfg, s, answers, n) && Spending(cfg, s.log, answers)
    ensures n + Budget(cfg, AfterChecks(cfg, s, answers, n)) <= Budget(cfg, s)
    ensures AfterChecks(cfg, s, answers, n).retries >= 0
  {
    hide ObjectedAt, Budget, Check, ScorerCanObject;
    if n > 0 {
      ObjectionsSpend(cfg, s, answers, n - 1);
      hide AfterChecks;
      ObjectedSpends(cfg, s, answers, n - 1);
    }
  }

  lemma {:induction false} CountersStayNonNegative(cfg: Config, events: seq<Event>, n: nat)
    requires n <= |events|
    ensures var s := After(cfg, events, n); s.premature >= 0 && s.violations >= 0 && s.retries >= 0
  {
    if n > 0 {
      hide StepsAllow, PrerequisitesAllow;
      CountersStayNonNegative(cfg, events, n - 1);
    }
  }

  /** The most answers in a row that are objected to: P, Q and R are the limits on premature attempts, prerequisite
      violations and retries. */
  function Bound(cfg: Config): int {
    (Trunc(cfg.rules.maxPremature) + Trunc(cfg.rules.maxViolations) + 1) * (Trunc(cfg.maxRetries) + 1) - 1
  }

  lemma BudgetAtMost(cfg: Config, s: State)
    requires s.premature >= 0 && s.violations >= 0 && s.retries >= 0
    ensures Budget(cfg, s) <= Bound(cfg)
  {
    var blocks := Trunc(cfg.rules.maxPremature - s.premature) + Trunc(cfg.rules.maxViolations - s.violations);
    var most := Trunc(cfg.rules.maxPremature) + Trunc(cfg.rules.maxViolations);
    var round := Trunc(cfg.maxRetries) + 1;
    MultiplyMonotone(blocks, most, round);
    assert (most + 1) * round == most * round + round;
  }

  lemma MultiplyMonotone(a: nat, b: nat, c: nat)
    requires a <= b
    ensures a * c <= b * c
  {
  }

  /** From any state a run can reach, at most (P+Q+1)(R+1)-1 answers in a row can be objected to: then one is executed
      or fatal. Answers may be scored, as long as the scorer cannot object to what the rules let pass. */
  lemma {:induction false} ObjectionsAreBounded(cfg: Config, events: seq<Event>, answers: seq<Answer>)
    requires AllObjections(cfg, After(cfg, events, |events|), answers, |answers|)
    requires Spending(cfg, After(cfg, events, |events|).log, answers)
    ensures |answers| <= Bound(cfg)
  {
    var s := After(cfg, events, |events|);
    CountersStayNonNegative(cfg, events, |events|);
    hide After, AllObjections, Spending, Budget;
    ObjectionsSpend(cfg, s, answers, |answers|);
    BudgetAtMost(cfg, s);
  }

  // ---------- the bound is reached ----------

  const NEVER_RESCUES: string -> seq<ToolCall> := (content: string) => []
  const BAD: Answer := Answer(Text(""), None)
  const EARLY: Answer := Answer(ToolCalls([ToolCall("finish", [], None, None)]), None)
  const LACKING: Answer := Answer(ToolCalls([ToolCall("use", [], None, None)]), None)

  /** One required step, a terminal tool, and a tool that needs the required step. */
  function Strict(maxPremature: nat, maxViolations: nat, maxRetries: nat): Config {
    Config(V.Validator({"finish", "use"}, (calls: seq<ToolCall>) => true, false, NEVER_RESCUES),
           Rules(["prepare"], {"finish"}, map["use" := [NameOnly("prepare")]], maxPremature, maxViolations),
           maxRetries, 0, None)
  }

  /** Blocks come as late as possible: before each one all retries are used up. */
  function Worst(maxPremature: nat, maxRetries: nat, blocks: nat, retries: nat): seq<Answer>
    decreases blocks, retries
  {
    if retries > 0 then Worst(maxPremature, maxRetries, blocks, retries - 1) + [BAD]
    else if blocks > 0 then
      Worst(maxPremature, maxRetries, blocks - 1, maxRetries) + [if blocks <= maxPremature then EARLY else LACKING]
    else []
  }

  function Blocked(maxPremature: nat, blocks: nat, retries: nat): State {
    if blocks <= maxPremature then State([], blocks, 0, retries, 0)
    else State([], maxPremature, blocks - maxPremature, retries, 0)
  }

  lemma StrictObjects(p: nat, q: nat, r: nat, blocks: nat, retries: nat)
    requires blocks <= p + q && retries <= r
    ensures retries < r ==>
              Check(Strict(p, q, r), Blocked(p, blocks, retries), BAD.response, None)
                  == (Blocked(p, blocks, retries + 1), Retry)
    ensures blocks < p ==>
              Check(Strict(p, q, r), Blocked(p, blocks, retries), EARLY.response, None)
                  == (Blocked(p, blocks + 1, 0), StepBlocked)
    ensures p <= blocks < p + q ==>
              Check(Strict(p, q, r), Blocked(p, blocks, retries), LACKING.response, None)
                  == (Blocked(p, blocks + 1, 0), StepBlocked)
  {
    var cfg, s := Strict(p, q, r), Blocked(p, blocks, retries);
    assert !Ran(s.log, "prepare");
    assert cfg.rules.required[0] == "prepare";
    assert EARLY.response.calls[0].tool in cfg.rules.terminal;
    assert !CallAllowed(cfg.rules, s.log, LACKING.response.calls[0]) by {
      assert !Met(s.log, LACKING.response.calls[0].args, PrerequisitesOf(cfg.rules, "use")[0]);
    }
    assert !HasTerminal(cfg.rules.terminal, LACKING.response.calls);
    hide Satisfied, HasTerminal, CallAllowed;
  }

  lemma {:induction false} ChecksPrefix(cfg: Config, s: State, answers: seq<Answer>, last: Answer, n: nat)
    requires n <= |answers|
    ensures AfterChecks(cfg, s, answers + [last], n) == AfterChecks(cfg, s, answers, n)
  {
    if n > 0 {
      hide Check;
      ChecksPrefix(cfg, s, answers, last, n - 1);
    }
  }

  lemma OneMoreObjection(cfg: Config, answers: seq<Answer>, last: Answer, s: State, s': State, o: Outcome)
    requires AllObjections(cfg, FRESH, answers, |answers|) && AfterChecks(cfg, FRESH, answers, |answers|) == s
    requires Check(cfg, s, last.response, last.context) == (s', o) && Objection(o)
    ensures var all := answers + [last];
            AllObjections(cfg, FRESH, all, |all|) && AfterChecks(cfg, FRESH, all, |all|) == s'
  {
    hide Check, Objection;
    var all := answers + [last];
    forall i | 0 <= i < |all| ensures ObjectedAt(cfg, FRESH, all, i) {
      ChecksPrefix(cfg, FRESH, answers, last, i);
      if i < |answers| {
        assert ObjectedAt(cfg, FRESH, answers, i);
      }
    }
    ChecksPrefix(cfg, FRESH, answers, last, |answers|);
  }

  lemma {:induction false} WorstCase(p: nat, q: nat, r: nat, blocks: nat, retries: nat)
    requires blocks <= p + q && retries <= r
    ensures var w := Worst(p, r, blocks, retries);
            && |w| == blocks * (r + 1) + retries
            && AllObjections(Strict(p, q, r), FRESH, w, |w|)
            && AfterChecks(Strict(p, q, r), FRESH, w, |w|) == Blocked(p, blocks, retries)
    decreases blocks, retries
  {
    hide Strict, Check, AllObjections;
    var cfg := Strict(p, q, r);
    if retries > 0 {
      WorstCase(p, q, r, blocks, retries - 1);
      StrictObjects(p, q, r, blocks, retries - 1);
      OneMoreObjection(cfg, Worst(p, r, blocks, retries - 1), BAD, Blocked(p, blocks, retries - 1),
                       Blocked(p, blocks, retries), Retry);
    } else if blocks > 0 {
      WorstCase(p, q, r, blocks - 1, r);
      StrictObjects(p, q, r, blocks - 1, r);
      OneMoreObjection(cfg, Worst(p, r, blocks - 1, r), if blocks <= p then EARLY else LACKING,
                       Blocked(p, blocks - 1, r), Blocked(p, blocks, 0), StepBlocked);
      assert blocks * (r + 1) == (blocks - 1) * (r + 1) + r + 1;
    } else {
      assert 0 * (r + 1) == 0;
      NoObjectionsYet(cfg);
    }
  }

  lemma NoObjectionsYet(cfg: Config)
    ensures AllObjections(cfg, FRESH, [], 0)
  {
  }

  /** For every choice of limits some run meets the bound exactly. */
  lemma ObjectionBoundIsReached(p: nat, q: nat, r: nat) returns (answers: seq<Answer>)
    ensures AllObjections(Strict(p, q, r), After(Strict(p, q, r), [], 0), answers, |answers|)
    ensures |answers| == (p + q + 1) * (r + 1) - 1
  {
    hide Strict, AllObjections;
    WorstCase(p, q, r, p + q, r);
    answers := Worst(p, r, p + q, r);
    assert (p + q + 1) * (r + 1) == (p + q) * (r + 1) + (r + 1);
  }

  // ---------- scorers ----------

  lemma ScorerRetries(cfg: Config, s: State, a: Answer)
    requires cfg.maxRetries >= 1 && ScorerObjectsTo(cfg, s.log, a)
    ensures Check(cfg, s, a.response, a.context).1 == Retry
  {
    hide Objects, StepsAllow, PrerequisitesAllow;
  }

  /** A scorer's objections spend nothing: each check resets the retries before the scorer objects. */
  lemma ScorerObjectsForEver(cfg: Config, s: State, a: Answer, n: nat)
    requires cfg.maxRetries >= 1 && ScorerObjectsTo(cfg, s.log, a)
    ensures var answers := seq(n, i => a); AllObjections(cfg, s, answers, n)
  {
    hide Check, AfterChecks, ScorerObjectsTo;
    var answers := seq(n, i => a);
    forall i | 0 <= i < n ensures ObjectedAt(cfg, s, answers, i) {
      ChecksKeepLog(cfg, s, answers, i);
      ScorerRetries(cfg, AfterChecks(cfg, s, answers, i), a);
    }
  }

  /** At most `most` answers in a row, scored or not, are objected to. */
  ghost predicate ObjectionsEnd(cfg: Config, s: State, most: int) {
    forall answers | AllObjections(cfg, s, answers, |answers|) :: |answers| <= most
  }

  /** From any state a run can reach, objections are bounded exactly when no answer that the rules let pass is
      objected to by a scorer whose objections are not fatal; and where they are bounded, the bound is the one without
      a scorer. */
  lemma {:induction false} ObjectionsEndExactly(cfg: Config, events: seq<Event>)
    ensures var s := After(cfg, events, |events|);
            && ((exists most: int :: ObjectionsEnd(cfg, s, most)) <==> !ScorerCanObject(cfg, s.log))
            && (ObjectionsEnd(cfg, s, Bound(cfg)) <==> !ScorerCanObject(cfg, s.log))
  {
    hide After, AllObjections, ScorerObjectsTo, Bound;
    var s := After(cfg, events, |events|);
    if ScorerCanObject(cfg, s.log) {
      var a :| ScorerObjectsTo(cfg, s.log, a);
      forall most: int ensures !ObjectionsEnd(cfg, s, most) {
        var n: nat := if most < 0 then 0 else most + 1;
        ScorerObjectsForEver(cfg, s, a, n);
        assert |seq(n, i => a)| == n;
      }
    } else {
      forall answers | AllObjections(cfg, s, answers, |answers|) ensures |answers| <= Bound(cfg) {
        ObjectionsAreBounded(cfg, events, answers);
      }
      assert ObjectionsEnd(cfg, s, Bound(cfg));
    }
  }
}
