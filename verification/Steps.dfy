/** Which tools have run, which required steps are pending, and which prerequisites a call misses.

    The tracker keeps two indexes of what has run. They are specified by a log of the
    executions, and what they answer is stated of that log. */
module Steps {
  import opened Wrappers
  import opened Response
  import Json

  datatype Prerequisite = NameOnly(tool: string) | ArgMatched(tool: string, matchArg: string)

  /** One recorded execution. Everything below is judged by the log of these. */
  datatype Execution = Execution(tool: string, args: Args)

  function ArgOf(args: Args, key: string): Json.Value {
    var v := Json.Lookup(args, key);
    if v.Some? then v.value else Json.Null
  }

  // ---------- what the log says ----------

  predicate Ran(log: seq<Execution>, tool: string) {
    exists i | 0 <= i < |log| :: log[i].tool == tool
  }

  predicate RanWith(log: seq<Execution>, tool: string, key: string, value: Json.Value) {
    exists i | 0 <= i < |log| :: log[i].tool == tool && Json.Equiv(ArgOf(log[i].args, key), value)
  }

  predicate Met(log: seq<Execution>, args: Args, p: Prerequisite) {
    match p
    case NameOnly(tool) => Ran(log, tool)
    case ArgMatched(tool, key) => RanWith(log, tool, key, ArgOf(args, key))
  }

  predicate Satisfied(required: seq<string>, log: seq<Execution>) {
    forall i | 0 <= i < |required| :: Ran(log, required[i])
  }

  /** The required steps of the first `n` that have not run, in declaration order. */
  function PendingOf(required: seq<string>, log: seq<Execution>, n: nat): (r: seq<string>)
    requires n <= |required|
    ensures r == [] <==> forall i | 0 <= i < n :: Ran(log, required[i])
    ensures forall s | s in r :: s in required && !Ran(log, s)
  {
    if n == 0 then []
    else PendingOf(required, log, n - 1) + (if Ran(log, required[n - 1]) then [] else [required[n - 1]])
  }

  /** The tools of the first `n` prerequisites that are not met, in order. */
  function MissingOf(log: seq<Execution>, args: Args, ps: seq<Prerequisite>, n: nat): (r: seq<string>)
    requires n <= |ps|
    ensures r == [] <==> forall i | 0 <= i < n :: Met(log, args, ps[i])
  {
    if n == 0 then []
    else MissingOf(log, args, ps, n - 1) + (if Met(log, args, ps[n - 1]) then [] else [ps[n - 1].tool])
  }

  /** What has run stays run: recording more never unmeets a prerequisite nor reopens a step. */
  lemma {:induction false} RecordingIsMonotone(log: seq<Execution>, more: seq<Execution>, required: seq<string>,
                                               args: Args, p: Prerequisite)
    ensures Satisfied(required, log) ==> Satisfied(required, log + more)
    ensures Met(log, args, p) ==> Met(log + more, args, p)
    ensures PendingOf(required, log, |required|) == [] ==> PendingOf(required, log + more, |required|) == []
  {
    hide Json.Equiv;
    assert forall i | 0 <= i < |log| :: (log + more)[i] == log[i];
    assert forall tool | Ran(log, tool) :: Ran(log + more, tool);
  }

  /** Of the required steps, exactly the ones that have run are not pending. */
  lemma {:induction false} PendingExactly(required: seq<string>, log: seq<Execution>, n: nat, s: string)
    requires n <= |required|
    ensures s in PendingOf(required, log, n) <==> !Ran(log, s) && exists i | 0 <= i < n :: required[i] == s
  {
    hide Ran, PendingOf;
    NonePending(required, log);
    if n > 0 {
      PendingExactly(required, log, n - 1, s);
      PendingNext(required, log, n - 1);
      var before := PendingOf(required, log, n - 1);
      assert s in before + [required[n - 1]] <==> s in before || s == required[n - 1];
    }
  }

  /** Pending steps come in declaration order: those of a longer list are those of its parts in a row. */
  lemma {:induction false} PendingInOrder(a: seq<string>, b: seq<string>, log: seq<Execution>)
    ensures PendingOf([], log, 0) == []
    ensures PendingOf(a + b, log, |a + b|) == PendingOf(a, log, |a|) + PendingOf(b, log, |b|)
    ensures |b| == 1 ==> PendingOf(b, log, 1) == if exists i | 0 <= i < |log| :: log[i].tool == b[0] then [] else b
    decreases |b|
  {
    hide PendingOf;
    NonePending([], log);
    if b == [] {
      assert a + b == a;
    } else {
      var front, last := b[..|b| - 1], b[|b| - 1];
      PendingInOrder(a, front, log);
      assert a + b == a + front + [last] && b == front + [last];
      PendingOfMore(a + front, last, log);
      PendingOfMore(front, last, log);
    }
  }

  lemma {:induction false} NonePending(required: seq<string>, log: seq<Execution>)
    ensures PendingOf(required, log, 0) == []
  {
  }

  lemma {:induction false} PendingNext(required: seq<string>, log: seq<Execution>, n: nat)
    requires n < |required|
    ensures PendingOf(required, log, n + 1)
            == PendingOf(required, log, n) + if Ran(log, required[n]) then [] else [required[n]]
  {
    hide Ran;
  }

  lemma {:induction false} PendingOfMore(a: seq<string>, s: string, log: seq<Execution>)
    ensures PendingOf(a + [s], log, |a| + 1) == PendingOf(a, log, |a|) + if Ran(log, s) then [] else [s]
  {
    hide Ran, PendingOf;
    PendingOfPrefix(a, s, log, |a|);
    PendingNext(a + [s], log, |a|);
  }

  lemma {:induction false} PendingOfPrefix(a: seq<string>, s: string, log: seq<Execution>, n: nat)
    requires n <= |a|
    ensures PendingOf(a + [s], log, n) == PendingOf(a, log, n)
  {
    hide Ran, PendingOf;
    NonePending(a, log);
    NonePending(a + [s], log);
    if n > 0 {
      PendingOfPrefix(a, s, log, n - 1);
      PendingNext(a, log, n - 1);
      PendingNext(a + [s], log, n - 1);
    }
  }

  /** The missing tools of a longer list of prerequisites are those of its parts in a row. A prerequisite by name is met
      when its tool has run; one on an argument when some run of its tool had the same value there, an argument that is
      left out counting as null. */
  lemma {:induction false} MissingInOrder(log: seq<Execution>, args: Args, a: seq<Prerequisite>, b: seq<Prerequisite>)
    ensures MissingOf(log, args, [], 0) == []
    ensures MissingOf(log, args, a + b, |a + b|) == MissingOf(log, args, a, |a|) + MissingOf(log, args, b, |b|)
    ensures |b| == 1 ==> MissingOf(log, args, b, 1) == if MetBy(log, args, b[0]) then [] else [b[0].tool]
    decreases |b|
  {
    hide MissingOf, Met, MetBy;
    NoneMissing(log, args);
    if b == [] {
      assert a + b == a;
    } else {
      var front, last := b[..|b| - 1], b[|b| - 1];
      MissingInOrder(log, args, a, front);
      assert a + b == a + front + [last] && b == front + [last];
      MissingOfMore(log, args, a + front, last, |a + front|);
      MissingOfMore(log, args, front, last, |front|);
      MetMeans(log, args, last);
    }
  }

  lemma {:induction false} NoneMissing(log: seq<Execution>, args: Args)
    ensures MissingOf(log, args, [], 0) == []
  {
  }

  lemma {:induction false} MissingOfMore(log: seq<Execution>, args: Args, a: seq<Prerequisite>, p: Prerequisite, n: nat)
    requires n <= |a|
    ensures MissingOf(log, args, a + [p], n) == MissingOf(log, args, a, n)
    ensures MissingOf(log, args, a + [p], |a| + 1)
            == MissingOf(log, args, a + [p], |a|) + if Met(log, args, p) then [] else [p.tool]
  {
    hide Met;
    if n > 0 {
      MissingOfMore(log, args, a, p, n - 1);
    }
  }

  /** The two arguments lists hold equal values under a key, or neither holds any but null. */
  predicate SameArgument(a: Args, b: Args, key: string) {
    match (Json.Lookup(a, key), Json.Lookup(b, key))
    case (Some(v), Some(w)) => Json.Equiv(v, w)
    case (Some(v), None) => v == Json.Null
    case (None, Some(w)) => w == Json.Null
    case (None, None) => true
  }

  predicate MetBy(log: seq<Execution>, args: Args, p: Prerequisite) {
    exists i | 0 <= i < |log| ::
        log[i].tool == p.tool && (p.ArgMatched? ==> SameArgument(log[i].args, args, p.matchArg))
  }

  lemma {:induction false} MetMeans(log: seq<Execution>, args: Args, p: Prerequisite)
    ensures Met(log, args, p) <==> MetBy(log, args, p)
  {
    if p.ArgMatched? {
      forall i | 0 <= i < |log|
        ensures Json.Equiv(ArgOf(log[i].args, p.matchArg), ArgOf(args, p.matchArg))
                <==> SameArgument(log[i].args, args, p.matchArg)
      {
      }
      hide SameArgument, Json.Equiv, ArgOf;
    }
  }

  // ---------- the two indexes the tracker keeps ----------

  /** The tool names of the first `n` executions, each once, in the order of first execution. */
  function Names(log: seq<Execution>, n: nat): (r: seq<string>)
    requires n <= |log|
  {
    if n == 0 then []
    else
      var r := Names(log, n - 1);
      if log[n - 1].tool in r then r else r + [log[n - 1].tool]
  }

  /** The arguments of every execution of a tool among the first `n`. */
  function Invocations(log: seq<Execution>, tool: string, n: nat): seq<Args>
    requires n <= |log|
  {
    if n == 0 then []
    else Invocations(log, tool, n - 1) + (if log[n - 1].tool == tool then [log[n - 1].args] else [])
  }

  lemma {:induction false} NamesAreRan(log: seq<Execution>, n: nat, tool: string)
    requires n <= |log|
    ensures tool in Names(log, n) <==> exists i | 0 <= i < n :: log[i].tool == tool
  {
    if n > 0 {
      NamesAreRan(log, n - 1, tool);
    }
  }

  lemma CompletedIffRan(log: seq<Execution>, tool: string)
    ensures tool in Names(log, |log|) <==> Ran(log, tool)
  {
    NamesAreRan(log, |log|, tool);
  }

  lemma {:induction false} InvocationsAreRan(log: seq<Execution>, tool: string, n: nat, key: string, value: Json.Value)
    requires n <= |log|
    ensures AnyMatches(Invocations(log, tool, n), key, value)
            <==> exists i | 0 <= i < n :: log[i].tool == tool && Json.Equiv(ArgOf(log[i].args, key), value)
  {
    hide Json.Equiv, AnyMatches, ArgOf;
    if n > 0 {
      InvocationsAreRan(log, tool, n - 1, key, value);
      MatchesAppend(Invocations(log, tool, n - 1), log[n - 1].args, key, value);
    } else {
      MatchesNothing(key, value);
    }
  }

  lemma MatchedIffRanWith(log: seq<Execution>, tool: string, key: string, value: Json.Value)
    ensures AnyMatches(Invocations(log, tool, |log|), key, value) <==> RanWith(log, tool, key, value)
    ensures tool !in Names(log, |log|) ==> !RanWith(log, tool, key, value)
  {
    hide Json.Equiv;
    InvocationsAreRan(log, tool, |log|, key, value);
    NamesAreRan(log, |log|, tool);
  }

  lemma MatchesNothing(key: string, value: Json.Value)
    ensures !AnyMatches([], key, value)
  {
  }

  lemma MatchesAppend(before: seq<Args>, args: Args, key: string, value: Json.Value)
    ensures AnyMatches(before + [], key, value) == AnyMatches(before, key, value)
    ensures AnyMatches(before + [args], key, value)
            <==> AnyMatches(before, key, value) || Json.Equiv(ArgOf(args, key), value)
  {
    hide Json.Equiv, ArgOf;
    var all := before + [args];
    assert before + [] == before;
    assert all[|before|] == args;
    assert forall i | 0 <= i < |before| :: all[i] == before[i];
  }

  predicate AnyMatches(invocations: seq<Args>, key: string, value: Json.Value) {
    exists i | 0 <= i < |invocations| :: Json.Equiv(ArgOf(invocations[i], key), value)
  }

  lemma LogPrefix(log: seq<Execution>, e: Execution, n: nat, tool: string)
    requires n <= |log|
    ensures Names(log + [e], n) == Names(log, n)
    ensures Invocations(log + [e], tool, n) == Invocations(log, tool, n)
  {
    if n > 0 {
      LogPrefix(log, e, n - 1, tool);
    }
  }

  /** What one more execution adds to the two indexes. */
  lemma LogMore(log: seq<Execution>, e: Execution, tool: string)
    ensures var n := |log|;
            && Names(log + [e], n + 1) == (if e.tool in Names(log, n) then Names(log, n) else Names(log, n) + [e.tool])
            && Invocations(log + [e], tool, n + 1) == Invocations(log, tool, n)
               + (if e.tool == tool then [e.args] else [])
    ensures tool !in Names(log, |log|) ==> Invocations(log, tool, |log|) == []
  {
    LogPrefix(log, e, |log|, tool);
    NotRunNotInvoked(log, tool, |log|);
  }

  /** The tracker of one workflow run. */
  class StepTracker {
    const required: seq<string>
    var completed: seq<string>
    var executed: map<string, seq<Args>>
    ghost var log: seq<Execution>

    ghost predicate Valid()
      reads this
    {
      && completed == Names(log, |log|)
      && (forall tool :: tool in executed <==> tool in completed)
      && (forall tool | tool in executed :: executed[tool] == Invocations(log, tool, |log|))
    }

    constructor (required: seq<string>)
      ensures Valid() && this.required == required && log == []
    {
      this.required := required;
      completed, executed, log := [], map[], [];
    }

    method Record(tool: string, args: Option<Args>)
      requires Valid()
      modifies this
      ensures Valid() && log == old(log) + [Execution(tool, if args.Some? then args.value else [])]
    {
      hide Names, Invocations;
      var recorded := if args.Some? then args.value else [];
      ghost var before, e := log, Execution(tool, recorded);
      forall t ensures Names(before + [e], |before| + 1)
                         == (if tool in Names(before, |before|)
                             then Names(before, |before|) else Names(before, |before|) + [tool])
                       && Invocations(before + [e], t, |before| + 1)
                         == Invocations(before, t, |before|) + (if tool == t then [recorded] else [])
      {
        LogMore(before, e, t);
      }
      LogMore(before, e, tool);
      if tool !in completed {
        completed := completed + [tool];
      }
      executed := executed[tool := (if tool in executed then executed[tool] else []) + [recorded]];
      log := log + [e];
    }

    method IsSatisfied() returns (r: bool)
      requires Valid()
      ensures r <==> Satisfied(required, log)
    {
      forall tool ensures tool in completed <==> Ran(log, tool) {
        CompletedIffRan(log, tool);
      }
      hide Ran;
      r := forall i | 0 <= i < |required| :: required[i] in completed;
    }

    method Pending() returns (r: seq<string>)
      requires Valid()
      ensures r == PendingOf(required, log, |required|)
    {
      hide Ran;
      r := [];
      for i := 0 to |required|
        invariant r == PendingOf(required, log, i)
      {
        CompletedIffRan(log, required[i]);
        if required[i] !in completed {
          r := r + [required[i]];
        }
      }
    }

    /** `None` when every prerequisite is met, otherwise the tools that are missing. */
    method CheckPrerequisites(args: Args, prerequisites: seq<Prerequisite>) returns (missing: seq<string>)
      requires Valid()
      ensures missing == MissingOf(log, args, prerequisites, |prerequisites|)
    {
      hide Json.Equiv, Ran, RanWith, AnyMatches;
      missing := [];
      for i := 0 to |prerequisites|
        invariant missing == MissingOf(log, args, prerequisites, i)
      {
        match prerequisites[i]
        case NameOnly(tool) =>
          CompletedIffRan(log, tool);
          if tool !in completed {
            missing := missing + [tool];
          }
        case ArgMatched(tool, key) =>
          MatchedIffRanWith(log, tool, key, ArgOf(args, key));
          if tool !in executed || !AnyMatches(executed[tool], key, ArgOf(args, key)) {
            missing := missing + [tool];
          }
      }
    }
  }

  lemma {:induction false} NotRunNotInvoked(log: seq<Execution>, tool: string, n: nat)
    requires n <= |log|
    ensures tool !in Names(log, n) ==> Invocations(log, tool, n) == []
  {
    if n > 0 {
      NotRunNotInvoked(log, tool, n - 1);
    }
  }
}
