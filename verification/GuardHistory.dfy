/** The guardrails read off the history of a run: what every answer is judged as, what it is answered with, and what the
    counters count. */
module GuardHistory {
  import opened Wrappers
  import opened Response
  import opened Steps
  import opened StepEnforcer
  import opened Guardrails
  import opened GuardRuns
  import V = ResponseValidator

  // ---------- what an event is ----------

  /** Not usable, a terminal tool too early, a prerequisite lacking, disliked by the scorer, none of these; or a
      recording. */
  datatype Kind = Invalid | Early | Lacks | Disliked | Good | Taken

  predicate TooEarly(cfg: Config, events: seq<Event>, n: nat, calls: seq<ToolCall>)
    requires n <= |events|
  {
    && (exists i | 0 <= i < |calls| :: calls[i].tool in cfg.rules.terminal)
    && (exists j | 0 <= j < |cfg.rules.required| :: !RecordedBefore(events, n, cfg.rules.required[j]))
  }

  /** A call whose tool has a prerequisite that was not recorded, or that names an argument this call gives. */
  predicate LacksOne(cfg: Config, events: seq<Event>, n: nat, call: ToolCall)
    requires n <= |events|
  {
    call.tool in cfg.rules.prerequisites
    && exists k | 0 <= k < |cfg.rules.prerequisites[call.tool]| ::
         !MetBefore(events, n, call.args, cfg.rules.prerequisites[call.tool][k])
  }

  predicate Dislikes(cfg: Config, a: Answer, calls: seq<ToolCall>) {
    && cfg.scorer.Some? && a.context.Some?
    && exists i | 0 <= i < |calls| :: cfg.scorer.value(a.context.value, calls[i]) in {Advisory, Block}
  }

  /** The first of these that applies. */
  function KindAt(cfg: Config, events: seq<Event>, n: nat): Kind
    requires n < |events|
  {
    match events[n]
    case Recorded(_) => Taken
    case Checked(a) =>
      match V.Validate(cfg.validator, a.response)
      case Err(_) => Invalid
      case Ok(calls) =>
        if TooEarly(cfg, events, n, calls) then Early
        else if exists i | 0 <= i < |calls| :: LacksOne(cfg, events, n, calls[i]) then Lacks
        else if Dislikes(cfg, a, calls) then Disliked
        else Good
  }

  // ---------- what the counters count ----------

  /** How many events there are up to the last recording among the first `n`. */
  function LastTaken(cfg: Config, events: seq<Event>, n: nat): (m: nat)
    requires n <= |events|
    ensures m <= n
  {
    if n == 0 || events[n - 1].Recorded? then n else LastTaken(cfg, events, n - 1)
  }

  /** How many there are up to the last that was no unusable answer. */
  function LastUsable(cfg: Config, events: seq<Event>, n: nat): (m: nat)
    requires n <= |events|
    ensures m <= n
  {
    if n == 0 || KindAt(cfg, events, n - 1) != Invalid then n else LastUsable(cfg, events, n - 1)
  }

  function Times(cfg: Config, events: seq<Event>, kind: Kind, from: nat, n: nat): nat
    requires from <= n <= |events|
  {
    if n == from then 0
    else Times(cfg, events, kind, from, n - 1) + if KindAt(cfg, events, n - 1) == kind then 1 else 0
  }

  /** Premature answers since the last recording. */
  function EarlySince(cfg: Config, events: seq<Event>, n: nat): nat
    requires n <= |events|
  {
    Times(cfg, events, Early, LastTaken(cfg, events, n), n)
  }

  function LackingSince(cfg: Config, events: seq<Event>, n: nat): nat
    requires n <= |events|
  {
    Times(cfg, events, Lacks, LastTaken(cfg, events, n), n)
  }

  /** Unusable answers in a row, and one more if the one before them was disliked. */
  function UnusableSince(cfg: Config, events: seq<Event>, n: nat): nat
    requires n <= |events|
  {
    var m := LastUsable(cfg, events, n);
    (n - m) + if m > 0 && KindAt(cfg, events, m - 1) == Disliked then 1 else 0
  }

  /** The checkpoints decide by the history. */
  lemma {:induction false} KindIsJudged(cfg: Config, events: seq<Event>, n: nat, calls: seq<ToolCall>)
    requires n < |events| && events[n].Checked?
    ensures var log, a := After(cfg, events, n).log, events[n].answer;
            && (StepsAllow(cfg.rules, log, calls) <==> !TooEarly(cfg, events, n, calls))
            && (PrerequisitesAllow(cfg.rules, log, calls)
                <==> !exists i | 0 <= i < |calls| :: LacksOne(cfg, events, n, calls[i]))
            && (cfg.scorer.Some? && a.context.Some? && Objects(cfg.scorer.value, a.context.value, calls)
                <==> Dislikes(cfg, a, calls))
  {
    hide After, RecordedBefore, Met, MetBefore, Ran, V.Validate;
    var log := After(cfg, events, n).log;
    forall j | 0 <= j < |cfg.rules.required|
      ensures Ran(log, cfg.rules.required[j]) <==> RecordedBefore(events, n, cfg.rules.required[j])
    {
      LogIsHistory(cfg, events, n, cfg.rules.required[j]);
    }
    forall i | 0 <= i < |calls|
      ensures CallAllowed(cfg.rules, log, calls[i]) <==> !LacksOne(cfg, events, n, calls[i])
    {
      AllowedByHistory(cfg, events, n, calls[i]);
    }
    hide CallAllowed, LacksOne;
  }

  lemma {:induction false} AllowedByHistory(cfg: Config, events: seq<Event>, n: nat, call: ToolCall)
    requires n <= |events|
    ensures CallAllowed(cfg.rules, After(cfg, events, n).log, call) <==> !LacksOne(cfg, events, n, call)
  {
    hide After, Met, MetBefore;
    forall p ensures Met(After(cfg, events, n).log, call.args, p) <==> MetBefore(events, n, call.args, p) {
      MetIsHistory(cfg, events, n, call.args, p);
    }
  }

  /** What one event does to the counters, by its kind alone. */
  lemma {:induction false} KindCounts(cfg: Config, events: seq<Event>, n: nat)
    requires n < |events|
    ensures var s, s', kind := After(cfg, events, n), After(cfg, events, n + 1), KindAt(cfg, events, n);
            && s'.premature == (if kind == Taken then 0 else s.premature + if kind == Early then 1 else 0)
            && s'.violations == (if kind == Taken then 0 else s.violations + if kind == Lacks then 1 else 0)
            && s'.retries == (if kind == Invalid then s.retries + 1 else if kind == Disliked then 1 else 0)
            && (s.toolErrors == 0 ==> s'.toolErrors == 0)
            && s'.log == s.log + (if events[n].Recorded? then Logged(events[n].names) else [])
  {
    hide StepsAllow, PrerequisitesAllow, Objects, TooEarly, LacksOne, Dislikes, Logged, V.Validate;
    match events[n]
    case Recorded(_) =>
    case Checked(a) =>
      if V.Validate(cfg.validator, a.response).Ok? {
        KindIsJudged(cfg, events, n, V.Validate(cfg.validator, a.response).value);
      }
  }

  /** Each counter is the number of those events since what clears it, and no tool error is ever counted here. */
  lemma {:induction false} CountersAreHistory(cfg: Config, events: seq<Event>, n: nat)
    requires n <= |events|
    ensures var s := After(cfg, events, n);
            && s.premature == EarlySince(cfg, events, n) && s.violations == LackingSince(cfg, events, n)
            && s.retries == UnusableSince(cfg, events, n) && s.toolErrors == 0
  {
    hide After, KindAt;
    if n == 0 {
      FreshCounters(cfg, events);
    } else {
      CountersAreHistory(cfg, events, n - 1);
      KindCounts(cfg, events, n - 1);
      TakenIsRecorded(cfg, events, n - 1);
    }
  }

  lemma {:induction false} FreshCounters(cfg: Config, events: seq<Event>)
    ensures After(cfg, events, 0) == FRESH
  {
  }

  lemma {:induction false} TakenIsRecorded(cfg: Config, events: seq<Event>, n: nat)
    requires n < |events|
    ensures KindAt(cfg, events, n) == Taken <==> events[n].Recorded?
  {
  }

  // ---------- what an answer is answered with ----------

  /** Every answer is executed, retried, blocked or fatal by its kind and by how often that kind has come since the last
      recording or, for unusable ones, in a row. */
  lemma {:induction false} OutcomesAreHistory(cfg: Config, events: seq<Event>, n: nat)
    requires n < |events| && events[n].Checked?
    ensures OutcomeAt(cfg, events, n)
            == match KindAt(cfg, events, n)
               case Invalid =>
                 if UnusableSince(cfg, events, n + 1) > cfg.maxRetries then Fatal(BadResponses) else Retry
               case Early =>
                 if EarlySince(cfg, events, n + 1) > cfg.rules.maxPremature then Fatal(SkippedSteps) else StepBlocked
               case Lacks =>
                 if LackingSince(cfg, events, n + 1) > cfg.rules.maxViolations then Fatal(PrerequisiteViolations)
                 else StepBlocked
               case Disliked => if cfg.maxRetries < 1 then Fatal(ClassifierObjections) else Retry
               case _ => Execute(V.Validate(cfg.validator, events[n].answer.response).value)
  {
    var a := events[n].answer;
    CountersAreHistory(cfg, events, n + 1);
    assert After(cfg, events, n + 1) == Check(cfg, After(cfg, events, n), a.response, a.context).0;
    hide StepsAllow, PrerequisitesAllow, Objects, TooEarly, LacksOne, Dislikes, V.Validate, After, EarlySince,
         LackingSince, UnusableSince;
    if V.Validate(cfg.validator, a.response).Ok? {
      KindIsJudged(cfg, events, n, V.Validate(cfg.validator, a.response).value);
    }
  }
}
