/** The two-call facade over validation, step enforcement and the error counters. */
module Guardrails {
  import opened Wrappers
  import opened Response
  import opened Steps
  import opened StepEnforcer
  import ErrorTracker
  import Json
  import V = ResponseValidator

  /** What a scorer makes of one call; a failed scoring lets the call pass. */
  datatype Opinion = Fine | Advisory | Block | Failed

  /** What a scorer is told besides the call, in its serialised form. */
  type ScoringContext = Json.Value

  type Scorer = (ScoringContext, ToolCall) -> Opinion

  predicate Objects(scorer: Scorer, context: ScoringContext, calls: seq<ToolCall>) {
    exists i | 0 <= i < |calls| :: scorer(context, calls[i]).Advisory? || scorer(context, calls[i]).Block?
  }

  datatype Config = Config(validator: V.Validator, rules: Rules, maxRetries: int, maxToolErrors: int,
                           scorer: Option<Scorer>)

  datatype State = State(log: seq<Execution>, premature: int, violations: int, retries: int, toolErrors: int)

  const FRESH: State := State([], 0, 0, 0, 0)

  datatype Reason = BadResponses | SkippedSteps | PrerequisiteViolations | ClassifierObjections

  datatype Outcome = Execute(calls: seq<ToolCall>) | Retry | StepBlocked | Fatal(reason: Reason)

  // ---------- check and record as functions of the state ----------

  /** Validation, step enforcement, prerequisites and, with a scoring context, the scorer. */
  function Check(cfg: Config, s: State, response: LLMResponse, context: Option<ScoringContext>): (State, Outcome) {
    match V.Validate(cfg.validator, response)
    case Err(_) =>
      var s' := s.(retries := s.retries + 1);
      (s', if s'.retries > cfg.maxRetries then Fatal(BadResponses) else Retry)
    case Ok(calls) =>
      var valid := s.(retries := 0);
      if !StepsAllow(cfg.rules, s.log, calls) then
        var s' := valid.(premature := s.premature + 1);
        (s', if s'.premature > cfg.rules.maxPremature then Fatal(SkippedSteps) else StepBlocked)
      else if !PrerequisitesAllow(cfg.rules, s.log, calls) then
        var s' := valid.(violations := s.violations + 1);
        (s', if s'.violations > cfg.rules.maxViolations then Fatal(PrerequisiteViolations) else StepBlocked)
      else if cfg.scorer.Some? && context.Some? && Objects(cfg.scorer.value, context.value, calls) then
        (valid.(retries := 1), if 1 > cfg.maxRetries then Fatal(ClassifierObjections) else Retry)
      else (valid, Execute(calls))
  }

  function Logged(names: seq<string>): seq<Execution> {
    seq(|names|, i requires 0 <= i < |names| => Execution(names[i], []))
  }

  function Record(s: State, names: seq<string>): State {
    State(s.log + Logged(names), 0, 0, 0, 0)
  }

  predicate Finishes(cfg: Config, s: State, names: seq<string>) {
    (exists i | 0 <= i < |names| :: names[i] in cfg.rules.terminal)
        && Satisfied(cfg.rules.required, Record(s, names).log)
  }

  // ---------- the facade object ----------

  class Guardrails {
    const validator: V.Validator
    const errorTracker: ErrorTracker.ErrorTracker
    const stepEnforcer: StepEnforcer
    const scorer: Option<Scorer>

    ghost predicate Valid()
      reads this, stepEnforcer, stepEnforcer.tracker
    {
      stepEnforcer.Valid()
    }

    ghost function Cfg(): Config
      reads this, errorTracker, stepEnforcer
    {
      Config(validator, stepEnforcer.rules, errorTracker.maxRetries, errorTracker.maxToolErrors, scorer)
    }

    ghost function View(): State
      reads this, errorTracker, stepEnforcer, stepEnforcer.tracker
    {
      State(stepEnforcer.tracker.log, stepEnforcer.premature, stepEnforcer.violations, errorTracker.retries,
            errorTracker.toolErrors)
    }

    constructor (validator: V.Validator, rules: Rules, maxRetries: int, maxToolErrors: int, scorer: Option<Scorer>)
      ensures Valid() && fresh(errorTracker) && fresh(stepEnforcer) && fresh(stepEnforcer.tracker)
      ensures Cfg() == Config(validator, rules, maxRetries, maxToolErrors, scorer) && View() == FRESH
    {
      this.validator, this.scorer := validator, scorer;
      errorTracker := new ErrorTracker.ErrorTracker(maxRetries, maxToolErrors);
      stepEnforcer := new StepEnforcer(rules);
    }

    method CheckInner(response: LLMResponse, context: Option<ScoringContext>) returns (outcome: Outcome)
      requires Valid()
      modifies errorTracker, stepEnforcer
      ensures Valid()
      ensures (View(), outcome) == Check(Cfg(), old(View()), response, context)
    {
      hide Satisfied, StepsAllow, PrerequisitesAllow, ReportsPremature, ReportsMissing, Objects, V.Validate;
      var validation := V.Validate(validator, response);
      if validation.Err? {
        errorTracker.RecordRetry();
        if errorTracker.RetriesExhausted() {
          return Fatal(BadResponses);
        }
        return Retry;
      }
      errorTracker.ResetRetries();
      var calls := validation.value;
      var steps := stepEnforcer.Check(calls);
      if !steps.Pass? {
        if stepEnforcer.PrematureExhausted() {
          return Fatal(SkippedSteps);
        }
        return StepBlocked;
      }
      var prerequisites := stepEnforcer.CheckPrerequisites(calls);
      if !prerequisites.Pass? {
        if stepEnforcer.ViolationsExhausted() {
          return Fatal(PrerequisiteViolations);
        }
        return StepBlocked;
      }
      if scorer.Some? && context.Some? {
        var objection := AskScorer(scorer.value, context.value, calls);
        if objection {
          errorTracker.RecordRetry();
          if errorTracker.RetriesExhausted() {
            return Fatal(ClassifierObjections);
          }
          return Retry;
        }
      }
      outcome := Execute(calls);
    }

    /** Every call is scored; an advisory or a block is an objection. */
    method AskScorer(scorer: Scorer, context: ScoringContext, calls: seq<ToolCall>) returns (objection: bool)
      ensures objection <==> Objects(scorer, context, calls)
    {
      objection := false;
      for i := 0 to |calls|
        invariant objection <==>
                  exists j | 0 <= j < i :: scorer(context, calls[j]).Advisory? || scorer(context, calls[j]).Block?
      {
        var opinion := scorer(context, calls[i]);
        if opinion.Advisory? || opinion.Block? {
          objection := true;
        }
      }
    }

    method RecordExecuted(executed: seq<string>) returns (done: bool)
      requires Valid()
      modifies errorTracker, stepEnforcer, stepEnforcer.tracker
      ensures Valid()
      ensures View() == Record(old(View()), executed)
      ensures done <==> Finishes(Cfg(), old(View()), executed)
    {
      hide Satisfied;
      ghost var before := stepEnforcer.tracker.log;
      assert before + Logged(executed[..0]) == before;
      for i := 0 to |executed|
        invariant Valid() && stepEnforcer.tracker.log == before + Logged(executed[..i])
        invariant stepEnforcer.premature == old(stepEnforcer.premature)
                  && stepEnforcer.violations == old(stepEnforcer.violations)
      {
        stepEnforcer.Record(executed[i], None);
        assert Logged(executed[..i + 1]) == Logged(executed[..i]) + [Execution(executed[i], [])];
      }
      assert executed[..|executed|] == executed;
      errorTracker.ResetRetries();
      errorTracker.ResetErrors();
      stepEnforcer.ResetPremature();
      stepEnforcer.ResetViolations();
      var satisfied := stepEnforcer.tracker.IsSatisfied();
      done := (exists i | 0 <= i < |executed| :: executed[i] in stepEnforcer.rules.terminal) && satisfied;
    }
  }
}
