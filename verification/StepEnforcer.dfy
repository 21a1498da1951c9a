/** Blocks terminal tools called too early and tools whose prerequisites have not run.

    What it decides depends on the rules of the workflow and on the log of executions;
    its two counters only decide when a block becomes fatal. */
module StepEnforcer {
  import opened Wrappers
  import opened Response
  import opened Steps

  datatype Rules = Rules(
    required: seq<string>, terminal: set<string>, prerequisites: map<string, seq<Prerequisite>>,
    maxPremature: int, maxViolations: int)

  predicate HasTerminal(terminal: set<string>, calls: seq<ToolCall>) {
    exists i | 0 <= i < |calls| :: calls[i].tool in terminal
  }

  predicate HasOther(terminal: set<string>, calls: seq<ToolCall>) {
    exists i | 0 <= i < |calls| :: calls[i].tool !in terminal
  }

  /** Whether the log allows the batch as far as the required steps are concerned. */
  predicate StepsAllow(rules: Rules, log: seq<Execution>, calls: seq<ToolCall>) {
    HasTerminal(rules.terminal, calls) ==> Satisfied(rules.required, log)
  }

  function PrerequisitesOf(rules: Rules, tool: string): seq<Prerequisite> {
    if tool in rules.prerequisites then rules.prerequisites[tool] else []
  }

  function MissingFor(rules: Rules, log: seq<Execution>, call: ToolCall): (r: seq<string>)
    ensures r == [] <==> CallAllowed(rules, log, call)
  {
    var ps := PrerequisitesOf(rules, call.tool);
    MissingOf(log, call.args, ps, |ps|)
  }

  predicate CallAllowed(rules: Rules, log: seq<Execution>, call: ToolCall) {
    var ps := PrerequisitesOf(rules, call.tool);
    forall i | 0 <= i < |ps| :: Met(log, call.args, ps[i])
  }

  predicate PrerequisitesAllow(rules: Rules, log: seq<Execution>, calls: seq<ToolCall>) {
    forall i | 0 <= i < |calls| :: CallAllowed(rules, log, calls[i])
  }

  datatype Verdict =
    | Pass
    | UnsafeBatch(tier: int, pending: seq<string>)
    | Premature(tool: string, tier: int, pending: seq<string>)
    | MissingPrerequisites(tool: string, missing: seq<string>)

  /** What a blocking verdict reports when terminal tools come too early. */
  predicate ReportsPremature(rules: Rules, log: seq<Execution>, calls: seq<ToolCall>, attempts: int, v: Verdict) {
    && (v.UnsafeBatch? || v.Premature?)
    && (v.UnsafeBatch? <==> HasOther(rules.terminal, calls))
    && v.tier == (if attempts < 3 then attempts else 3)
    && v.pending == PendingOf(rules.required, log, |rules.required|) != []
    && (v.Premature? ==> calls != [] && v.tool == calls[0].tool)
  }

  /** What a blocking verdict reports about prerequisites: the first call that lacks any, and all it lacks. */
  predicate ReportsMissing(rules: Rules, log: seq<Execution>, calls: seq<ToolCall>, v: Verdict) {
    && v.MissingPrerequisites? && v.missing != []
    && exists i | 0 <= i < |calls| ::
         && v.tool == calls[i].tool && v.missing == MissingFor(rules, log, calls[i])
         && forall j | 0 <= j < i :: CallAllowed(rules, log, calls[j])
  }

  /** More recorded executions never turn an allowed batch into a blocked one. */
  lemma AllowanceIsMonotone(rules: Rules, log: seq<Execution>, more: seq<Execution>, calls: seq<ToolCall>)
    ensures StepsAllow(rules, log, calls) ==> StepsAllow(rules, log + more, calls)
    ensures PrerequisitesAllow(rules, log, calls) ==> PrerequisitesAllow(rules, log + more, calls)
  {
    hide Met, Satisfied;
    RecordingIsMonotone(log, more, rules.required, [], NameOnly(""));
    forall i, k | 0 <= i < |calls| && 0 <= k < |PrerequisitesOf(rules, calls[i].tool)|
      ensures var p := PrerequisitesOf(rules, calls[i].tool)[k]; Met(log, calls[i].args, p) ==>
              Met(log + more, calls[i].args, p)
    {
      RecordingIsMonotone(log, more, rules.required, calls[i].args, PrerequisitesOf(rules, calls[i].tool)[k]);
    }
  }

  class StepEnforcer {
    const rules: Rules
    const tracker: StepTracker
    var premature: int
    var violations: int

    ghost predicate Valid()
      reads this, tracker
    {
      tracker.Valid() && tracker.required == rules.required
    }

    constructor (rules: Rules)
      ensures Valid() && fresh(tracker)
      ensures this.rules == rules && tracker.log == [] && premature == 0 && violations == 0
    {
      this.rules := rules;
      tracker := new StepTracker(rules.required);
      premature, violations := 0, 0;
    }

    method Check(calls: seq<ToolCall>) returns (v: Verdict)
      requires Valid()
      modifies this`premature
      ensures Valid()
      ensures v.Pass? <==> StepsAllow(rules, tracker.log, calls)
      ensures premature == old(premature) + if v.Pass? then 0 else 1
      ensures !v.Pass? ==> ReportsPremature(rules, tracker.log, calls, premature, v)
    {
      hide Satisfied;
      var satisfied := tracker.IsSatisfied();
      if satisfied || !HasTerminal(rules.terminal, calls) {
        return Pass;
      }
      premature := premature + 1;
      var tier := if premature < 3 then premature else 3;
      var pending := tracker.Pending();
      PendingOrSatisfied(rules.required, tracker.log);
      if HasOther(rules.terminal, calls) {
        return UnsafeBatch(tier, pending);
      }
      v := Premature(calls[0].tool, tier, pending);
    }

    method CheckPrerequisites(calls: seq<ToolCall>) returns (v: Verdict)
      requires Valid()
      modifies this`violations
      ensures Valid()
      ensures v.Pass? <==> PrerequisitesAllow(rules, tracker.log, calls)
      ensures violations == old(violations) + if v.Pass? then 0 else 1
      ensures !v.Pass? ==> ReportsMissing(rules, tracker.log, calls, v)
    {
      hide MissingOf, Met;
      for i := 0 to |calls|
        invariant Valid() && violations == old(violations)
        invariant forall j | 0 <= j < i :: CallAllowed(rules, tracker.log, calls[j])
      {
        var call := calls[i];
        if call.tool in rules.prerequisites {
          var missing := tracker.CheckPrerequisites(call.args, rules.prerequisites[call.tool]);
          assert missing == MissingFor(rules, tracker.log, call);
          if missing != [] {
            violations := violations + 1;
            return MissingPrerequisites(call.tool, missing);
          }
        }
      }
      v := Pass;
    }

    method Record(tool: string, args: Option<Args>)
      requires Valid()
      modifies tracker
      ensures Valid()
      ensures tracker.log == old(tracker.log) + [Execution(tool, if args.Some? then args.value else [])]
    {
      tracker.Record(tool, args);
    }

    method TerminalReached(calls: seq<ToolCall>) returns (r: bool)
      requires Valid()
      ensures r <==> HasTerminal(rules.terminal, calls) && Satisfied(rules.required, tracker.log)
    {
      var satisfied := tracker.IsSatisfied();
      r := HasTerminal(rules.terminal, calls) && satisfied;
    }

    method ResetPremature()
      modifies this`premature
      ensures premature == 0
    {
      premature := 0;
    }

    method ResetViolations()
      modifies this`violations
      ensures violations == 0
    {
      violations := 0;
    }

    predicate PrematureExhausted()
      reads this
    {
      premature > rules.maxPremature
    }

    predicate ViolationsExhausted()
      reads this
    {
      violations > rules.maxViolations
    }

    /** The required steps that have run, each once: together with the pending ones they are all required steps. */
    method CompletedSteps() returns (r: seq<string>)
      requires Valid()
      ensures forall s :: s in r <==> s in rules.required && Ran(tracker.log, s)
      ensures forall i, j | 0 <= i < j < |r| :: r[i] != r[j]
    {
      var pending := tracker.Pending();
      hide Ran, PendingOf;
      r := [];
      for i := 0 to |rules.required|
        invariant forall s :: s in r <==> s in rules.required[..i] && s !in pending
        invariant forall i, j | 0 <= i < j < |r| :: r[i] != r[j]
      {
        TakeOneMore(rules.required, i);
        if rules.required[i] !in pending && rules.required[i] !in r {
          r := r + [rules.required[i]];
        }
      }
      assert rules.required[..|rules.required|] == rules.required;
      PendingIsUnrun(rules.required, tracker.log);
    }
  }

  lemma TakeOneMore(xs: seq<string>, i: nat)
    requires i < |xs|
    ensures forall s :: s in xs[..i + 1] <==> s in xs[..i] || s == xs[i]
  {
    assert xs[..i + 1] == xs[..i] + [xs[i]];
  }

  lemma PendingIsUnrun(required: seq<string>, log: seq<Execution>)
    ensures forall s :: s in PendingOf(required, log, |required|) <==> s in required && !Ran(log, s)
  {
    hide Ran, PendingOf;
    forall s ensures s in PendingOf(required, log, |required|) <==> s in required && !Ran(log, s) {
      PendingExactly(required, log, |required|, s);
    }
  }

  lemma PendingOrSatisfied(required: seq<string>, log: seq<Execution>)
    ensures PendingOf(required, log, |required|) == [] <==> Satisfied(required, log)
  {
    hide Ran;
  }
}
