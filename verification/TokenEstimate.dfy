/** The run-length token estimator for tool outputs, and the gate that accepts a
    compressed candidate only when the estimator says it is smaller. */
module TokenEstimate {
  import opened Wrappers
  import Utf8

  const ALPHA_CHARS_PER_EXTRA_TOKEN: nat := 7
  const DIGIT_CHARS_PER_TOKEN: nat := 3
  const PUNCT_CHARS_PER_TOKEN: nat := 2
  const SPACE_RUN_CHARS_PER_TOKEN: nat := 8

  // ---------- runs and their costs ----------

  datatype RunClass = Alpha | Digit | Space | Newline | Punct

  /** Unicode's alphabetic property, of which nothing is assumed. */
  type Alphabet = char -> bool

  function ClassOf(alphabetic: Alphabet, c: char): RunClass {
    if alphabetic(c) || c == '_' then Alpha
    else if '0' <= c <= '9' then Digit
    else if c == ' ' || c == '\t' then Space
    else if c == '\n' then Newline
    else Punct
  }

  function DivCeil(n: nat, d: nat): nat
    requires d > 0
  {
    if n % d == 0 then n / d else n / d + 1
  }

  predicate IsWord(next: Option<RunClass>) {
    next == Some(Alpha) || next == Some(Digit)
  }

  type pos = n: int | n >= 1 witness 1

  function RunCost(cls: RunClass, len: pos, next: Option<RunClass>): nat {
    match cls
    case Alpha => 1 + (len - 1) / ALPHA_CHARS_PER_EXTRA_TOKEN
    case Digit => DivCeil(len, DIGIT_CHARS_PER_TOKEN)
    case Punct => DivCeil(len, PUNCT_CHARS_PER_TOKEN)
    case Space =>
      if IsWord(next) then DivCeil(len - 1, SPACE_RUN_CHARS_PER_TOKEN)
      else if DivCeil(len, SPACE_RUN_CHARS_PER_TOKEN) >= 1 then DivCeil(len, SPACE_RUN_CHARS_PER_TOKEN) else 1
    case Newline => len
  }

  datatype Run = Run(cls: RunClass, len: pos)

  type Runs = seq<Run>

  function Push(runs: Runs, c: RunClass): Runs {
    var n := |runs|;
    if n > 0 && runs[n - 1].cls == c then runs[..n - 1] + [Run(c, runs[n - 1].len + 1)]
    else runs + [Run(c, 1)]
  }

  /** The runs of the first `n` characters. */
  function RunsOf(alphabetic: Alphabet, s: string, n: nat): Runs
    requires n <= |s|
  {
    if n == 0 then [] else Push(RunsOf(alphabetic, s, n - 1), ClassOf(alphabetic, s[n - 1]))
  }

  function NextClass(runs: Runs, i: nat): Option<RunClass> {
    if i + 1 < |runs| then Some(runs[i + 1].cls) else None
  }

  /** The cost of the runs from `i` on. */
  function CostFrom(runs: Runs, i: nat): nat
    requires i <= |runs|
    decreases |runs| - i
  {
    if i == |runs| then 0
    else RunCost(runs[i].cls, runs[i].len, NextClass(runs, i)) + CostFrom(runs, i + 1)
  }

  function Estimate(alphabetic: Alphabet, s: string): nat {
    CostFrom(RunsOf(alphabetic, s, |s|), 0)
  }

  method EstimateTokens(alphabetic: Alphabet, value: string) returns (total: int)
    ensures total == Estimate(alphabetic, value)
  {
    var runs: Runs := [];
    for i := 0 to |value|
      invariant runs == RunsOf(alphabetic, value, i)
    {
      var cls, n := ClassOf(alphabetic, value[i]), |runs|;
      if n > 0 && runs[n - 1].cls == cls {
        runs := runs[..n - 1] + [Run(cls, runs[n - 1].len + 1)];
      } else {
        runs := runs + [Run(cls, 1)];
      }
    }
    total := 0;
    for idx := 0 to |runs|
      invariant total + CostFrom(runs, idx) == CostFrom(runs, 0)
    {
      total := total + RunCost(runs[idx].cls, runs[idx].len, NextClass(runs, idx));
    }
  }

  // ---------- the estimate against the length ----------

  function CharsFrom(runs: Runs, i: nat): nat
    requires i <= |runs|
    decreases |runs| - i
  {
    if i == |runs| then 0 else runs[i].len + CharsFrom(runs, i + 1)
  }

  lemma {:induction false} CharsAppend(runs: Runs, r: Run, i: nat)
    requires i <= |runs|
    ensures CharsFrom(runs + [r], i) == CharsFrom(runs, i) + r.len
    decreases |runs| - i
  {
    if i < |runs| {
      CharsAppend(runs, r, i + 1);
    }
  }

  lemma {:induction false} RunsCoverText(alphabetic: Alphabet, s: string, n: nat)
    requires n <= |s|
    ensures CharsFrom(RunsOf(alphabetic, s, n), 0) == n
  {
    if n > 0 {
      hide Push, ClassOf;
      RunsCoverText(alphabetic, s, n - 1);
      CharsPush(RunsOf(alphabetic, s, n - 1), ClassOf(alphabetic, s[n - 1]));
    }
  }

  lemma CharsPush(runs: Runs, c: RunClass)
    ensures CharsFrom(Push(runs, c), 0) == CharsFrom(runs, 0) + 1
  {
    var k := |runs|;
    hide CharsFrom;
    if k > 0 && runs[k - 1].cls == c {
      CharsAppend(runs[..k - 1], runs[k - 1], 0);
      CharsAppend(runs[..k - 1], Run(c, runs[k - 1].len + 1), 0);
      assert runs == runs[..k - 1] + [runs[k - 1]];
    } else {
      CharsAppend(runs, Run(c, 1), 0);
    }
  }

  /** One run costs at least an eighth of its length, except that a space before a word may
      owe one character, which the word's own run can pay; and never more than its length. */
  lemma RunCostBounds(cls: RunClass, len: pos, next: Option<RunClass>)
    ensures RunCost(cls, len, next) <= len
    ensures len <= 8 * RunCost(cls, len, next) + (if cls.Space? && IsWord(next) then 1 else 0)
    ensures cls.Alpha? || cls.Digit? ==> len + 1 <= 8 * RunCost(cls, len, next)
  {
  }

  lemma {:induction false} CostAgainstChars(runs: Runs, i: nat)
    requires i <= |runs|
    ensures CostFrom(runs, i) <= CharsFrom(runs, i) <= 8 * CostFrom(runs, i)
    ensures i < |runs| && IsWord(Some(runs[i].cls)) ==> CharsFrom(runs, i) + 1 <= 8 * CostFrom(runs, i)
    decreases |runs| - i
  {
    if i < |runs| {
      CostAgainstChars(runs, i + 1);
      RunCostBounds(runs[i].cls, runs[i].len, NextClass(runs, i));
    }
  }

  /** A text of `n` characters is estimated at no more than `n` tokens and no fewer than `n / 8`. */
  lemma EstimateWithinLength(alphabetic: Alphabet, s: string)
    ensures Estimate(alphabetic, s) <= |s| <= 8 * Estimate(alphabetic, s)
  {
    RunsCoverText(alphabetic, s, |s|);
    CostAgainstChars(RunsOf(alphabetic, s, |s|), 0);
  }

  // ---------- the estimate of a concatenation ----------

  /** The same runs with `k` more characters in the first one. */
  function Grow(y: Runs, k: nat): Runs
    requires y != []
  {
    [Run(y[0].cls, k + y[0].len)] + y[1..]
  }

  /** Joining the runs of two texts: the runs at the seam grow together when they agree. */
  function Merge(x: Runs, y: Runs): Runs {
    if x != [] && y != [] && x[|x| - 1].cls == y[0].cls then x[..|x| - 1] + Grow(y, x[|x| - 1].len) else x + y
  }

  lemma GrowPushTail(r: Run, tail: Runs, k: nat, c: RunClass)
    requires tail != []
    ensures Push([r] + tail, c) != [] && Push([r] + tail, c)[0].cls == r.cls
    ensures Grow(Push([r] + tail, c), k) == Push(Grow([r] + tail, k), c)
  {
    hide Push;
    PushBehind([r], tail, c);
    PushBehind([Run(r.cls, k + r.len)], tail, c);
    assert ([r] + tail)[1..] == tail && ([r] + Push(tail, c))[1..] == Push(tail, c);
  }

  lemma GrowPush(y: Runs, k: nat, c: RunClass)
    requires y != []
    ensures Push(y, c) != [] && Push(y, c)[0].cls == y[0].cls
    ensures Grow(Push(y, c), k) == Push(Grow(y, k), c)
  {
    if |y| == 1 {
      GrowPushOne(y[0], k, c);
      assert y == [y[0]];
    } else {
      var tail := y[1..];
      assert [y[0]] + tail == y;
      GrowPushTail(y[0], tail, k, c);
    }
  }

  lemma GrowPushOne(r: Run, k: nat, c: RunClass)
    ensures Push([r], c)[0].cls == r.cls
    ensures Grow(Push([r], c), k) == Push(Grow([r], k), c)
  {
    var g := Run(r.cls, k + r.len);
    assert Grow([r], k) == [g];
    if r.cls == c {
      assert Push([r], c) == [Run(c, r.len + 1)] && Push([g], c) == [Run(c, g.len + 1)];
    } else {
      assert Push([r], c) == [r, Run(c, 1)] && Push([g], c) == [g, Run(c, 1)];
    }
  }

  lemma MergePush(x: Runs, y: Runs, c: RunClass)
    ensures Merge(x, Push(y, c)) == Push(Merge(x, y), c)
  {
    if y == [] {
      MergeOne(x, c);
    } else {
      GrowPush(y, if x == [] then 0 else x[|x| - 1].len, c);
      hide Push, Grow;
      if x != [] && x[|x| - 1].cls == y[0].cls {
        PushBehind(x[..|x| - 1], Grow(y, x[|x| - 1].len), c);
      } else {
        PushBehind(x, y, c);
      }
    }
  }

  lemma MergeOne(x: Runs, c: RunClass)
    ensures Merge(x, Push([], c)) == Push(Merge(x, []), c)
  {
    assert Push([], c) == [Run(c, 1)] && [Run(c, 1)][1..] == [];
    assert Merge(x, []) == x;
  }

  lemma PushBehind(x: Runs, y: Runs, c: RunClass)
    requires y != []
    ensures Push(x + y, c) == x + Push(y, c)
  {
    assert (x + y)[|x + y| - 1] == y[|y| - 1];
    assert (x + y)[..|x + y| - 1] == x + y[..|y| - 1];
  }

  lemma RunsOfStep(alphabetic: Alphabet, s: string, n: nat)
    requires n < |s|
    ensures RunsOf(alphabetic, s, n + 1) == Push(RunsOf(alphabetic, s, n), ClassOf(alphabetic, s[n]))
  {
  }

  lemma NoRuns(alphabetic: Alphabet, s: string)
    ensures RunsOf(alphabetic, s, 0) == []
  {
  }

  lemma {:induction false} RunsOfPrefix(alphabetic: Alphabet, a: string, b: string, n: nat)
    requires n <= |a|
    ensures RunsOf(alphabetic, a + b, n) == RunsOf(alphabetic, a, n)
  {
    hide RunsOf, Push, ClassOf;
    if n > 0 {
      RunsOfPrefix(alphabetic, a, b, n - 1);
      RunsOfStep(alphabetic, a, n - 1);
      RunsOfStep(alphabetic, a + b, n - 1);
    } else {
      NoRuns(alphabetic, a);
      NoRuns(alphabetic, a + b);
    }
  }

  lemma MergeNothing(x: Runs)
    ensures Merge(x, []) == x
  {
  }

  lemma {:induction false} RunsOfConcat(alphabetic: Alphabet, a: string, b: string, n: nat)
    requires n <= |b|
    ensures RunsOf(alphabetic, a + b, |a| + n) == Merge(RunsOf(alphabetic, a, |a|), RunsOf(alphabetic, b, n))
  {
    hide RunsOf, Merge, Push, ClassOf;
    MergeNothing(RunsOf(alphabetic, a, |a|));
    if n > 0 {
      RunsOfConcat(alphabetic, a, b, n - 1);
      RunsOfStep(alphabetic, a + b, |a| + n - 1);
      RunsOfStep(alphabetic, b, n - 1);
      MergePush(RunsOf(alphabetic, a, |a|), RunsOf(alphabetic, b, n - 1), ClassOf(alphabetic, b[n - 1]));
    } else {
      NoRuns(alphabetic, b);
      RunsOfPrefix(alphabetic, a, b, |a|);
    }
  }

  lemma {:induction false} CostSuffix(x: Runs, y: Runs, i: nat)
    requires i <= |y|
    ensures CostFrom(x + y, |x| + i) == CostFrom(y, i)
    decreases |y| - i
  {
    if i < |y| {
      CostSuffix(x, y, i + 1);
    }
  }

  /** Only the last run of a list looks at what is appended. */
  lemma {:induction false} CostConcat(x: Runs, y: Runs, i: nat)
    requires i < |x| && y != []
    ensures var last := x[|x| - 1];
            CostFrom(x + y, i) + RunCost(last.cls, last.len, None)
            == CostFrom(x, i) + RunCost(last.cls, last.len, Some(y[0].cls)) + CostFrom(y, 0)
    decreases |x| - i
  {
    hide RunCost;
    if i < |x| - 1 {
      CostConcat(x, y, i + 1);
    } else {
      CostSuffix(x, y, 0);
    }
  }

  /** What the seam may cost or save. */
  lemma SeamCost(cls: RunClass, m: pos, n: pos, next: Option<RunClass>)
    ensures RunCost(cls, m + n, next) <= RunCost(cls, m, None) + RunCost(cls, n, next)
    ensures RunCost(cls, n, next) <= RunCost(cls, m + n, next)
    ensures RunCost(cls, m, None) <= RunCost(cls, m + n, next) + (if IsWord(next) then 1 else 0)
  {
  }

  lemma BoundaryCost(cls: RunClass, m: pos, next: RunClass)
    ensures RunCost(cls, m, Some(next)) <= RunCost(cls, m, None)
    ensures RunCost(cls, m, None) <= RunCost(cls, m, Some(next)) + (if IsWord(Some(next)) then 1 else 0)
  {
  }

  lemma WordCosts(runs: Runs, i: nat)
    requires i < |runs| && IsWord(Some(runs[i].cls))
    ensures CostFrom(runs, i) >= 1
  {
    RunCostBounds(runs[i].cls, runs[i].len, NextClass(runs, i));
  }

  lemma MergedCost(x: Runs, y: Runs)
    ensures CostFrom(x, 0) <= CostFrom(Merge(x, y), 0) <= CostFrom(x, 0) + CostFrom(y, 0)
    ensures CostFrom(y, 0) <= CostFrom(Merge(x, y), 0)
  {
    hide RunCost;
    if x == [] || y == [] {
      assert Merge(x, y) == if x == [] then y else x;
    } else {
      var last := x[|x| - 1];
      if last.cls == y[0].cls {
        GrownSeam(x, y);
      } else {
        CostConcat(x, y, 0);
        LastRunCost(x);
        BoundaryCost(last.cls, last.len, y[0].cls);
        if IsWord(Some(y[0].cls)) {
          WordCosts(y, 0);
        }
      }
    }
  }

  /** The last run's cost is part of the whole. */
  lemma LastRunCost(x: Runs)
    requires x != []
    ensures CostFrom(x, 0) >= RunCost(x[|x| - 1].cls, x[|x| - 1].len, None)
  {
    hide RunCost;
    CostAtLeast(x, 0, |x| - 1);
  }

  lemma {:induction false} CostAtLeast(x: Runs, i: nat, j: nat)
    requires i <= j <= |x|
    ensures CostFrom(x, i) >= CostFrom(x, j)
    decreases j - i
  {
    if i < j {
      CostAtLeast(x, i + 1, j);
    }
  }

  /** What stands in front costs the same whatever follows of the same class. */
  lemma FrontCost(front: Runs, g: Runs, h: Runs)
    requires g != [] && h != [] && g[0].cls == h[0].cls
    ensures CostFrom(front + g, 0) - CostFrom(g, 0) == CostFrom(front + h, 0) - CostFrom(h, 0)
    ensures CostFrom(front + g, 0) >= CostFrom(g, 0)
  {
    hide RunCost, CostFrom;
    if front == [] {
      assert front + g == g && front + h == h;
    } else {
      CostConcat(front, g, 0);
      CostConcat(front, h, 0);
      CostSuffix(front, g, 0);
      CostAtLeast(front + g, 0, |front|);
    }
  }

  lemma {:induction false} GrownCost(y: Runs, m: pos)
    requires y != []
    ensures CostFrom(y, 0) <= CostFrom(Grow(y, m), 0) <= RunCost(y[0].cls, m, None) + CostFrom(y, 0)
    ensures RunCost(y[0].cls, m, None) <= CostFrom(Grow(y, m), 0)
  {
    hide RunCost, CostFrom;
    var tail := y[1..];
    var next := NextClass(y, 0);
    SeamCost(y[0].cls, m, y[0].len, next);
    CostHead(y[0], tail);
    CostHead(Run(y[0].cls, m + y[0].len), tail);
    assert [y[0]] + tail == y;
    if IsWord(next) {
      WordCosts(tail, 0);
    }
  }

  lemma CostHead(r: Run, tail: Runs)
    ensures CostFrom([r] + tail, 0)
            == RunCost(r.cls, r.len, if tail == [] then None else Some(tail[0].cls)) + CostFrom(tail, 0)
  {
    hide RunCost;
    CostSuffix([r], tail, 0);
  }

  lemma {:induction false} GrownSeam(x: Runs, y: Runs)
    requires x != [] && y != [] && x[|x| - 1].cls == y[0].cls
    ensures CostFrom(x, 0) <= CostFrom(Merge(x, y), 0) <= CostFrom(x, 0) + CostFrom(y, 0)
    ensures CostFrom(y, 0) <= CostFrom(Merge(x, y), 0)
  {
    hide RunCost, CostFrom;
    var front, last := x[..|x| - 1], x[|x| - 1];
    var grown := Grow(y, last.len);
    GrownCost(y, last.len);
    FrontCost(front, grown, [last]);
    assert x == front + [last];
    CostOfOne(last);
  }

  lemma CostOfOne(r: Run)
    ensures CostFrom([r], 0) == RunCost(r.cls, r.len, None)
  {
    assert CostFrom([r], 1) == 0;
  }

  /** Appending text never lowers the estimate below either part, and never raises it
      above the sum of the parts. */
  lemma EstimateOfConcat(alphabetic: Alphabet, a: string, b: string)
    ensures Estimate(alphabetic, a) <= Estimate(alphabetic, a + b)
    ensures Estimate(alphabetic, b) <= Estimate(alphabetic, a + b)
    ensures Estimate(alphabetic, a + b) <= Estimate(alphabetic, a) + Estimate(alphabetic, b)
  {
    hide RunsOf, Merge, CostFrom;
    RunsOfConcat(alphabetic, a, b, |b|);
    MergedCost(RunsOf(alphabetic, a, |a|), RunsOf(alphabetic, b, |b|));
  }

  // ---------- the acceptance gate ----------

  predicate HasTokenSavings(alphabetic: Alphabet, current: string, candidate: string) {
    Utf8.Len(candidate) <= Utf8.Len(current) && Estimate(alphabetic, candidate) < Estimate(alphabetic, current)
  }

  /** What a stage of the gate may do: each strategy it records saved at least one token,
      the bytes never grow, and recording nothing means changing nothing. */
  predicate Accepted(alphabetic: Alphabet, before: string, log: seq<string>, after: string, log': seq<string>) {
    && log <= log'
    && Estimate(alphabetic, after) + |log'| <= Estimate(alphabetic, before) + |log|
    && Utf8.Len(after) <= Utf8.Len(before)
    && (log' == log ==> after == before)
  }

  type Transform = string -> Option<string>

  /** A transform may decline; what it makes counts only if it saves. */
  predicate Saves(alphabetic: Alphabet, current: string, candidate: Option<string>) {
    candidate.Some? && HasTokenSavings(alphabetic, current, candidate.value)
  }

  /** What becomes of a text where a candidate counts only if it saves. */
  function Gated(alphabetic: Alphabet, current: string, candidate: Option<string>): string {
    if Saves(alphabetic, current, candidate) then candidate.value else current
  }

  /** The name of a strategy, if it was used. */
  function Named(used: bool, name: string): seq<string> {
    if used then [name] else []
  }

  method ApplyCandidateIfSmaller(alphabetic: Alphabet, current: string, strategy: string, log: seq<string>,
                                 candidate: string)
    returns (out: string, log': seq<string>)
    ensures out == (if HasTokenSavings(alphabetic, current, candidate) then candidate else current)
    ensures log' == (if HasTokenSavings(alphabetic, current, candidate) then log + [strategy] else log)
    ensures out == Gated(alphabetic, current, Some(candidate))
    ensures log' == log + Named(Saves(alphabetic, current, Some(candidate)), strategy)
    // no more bytes, and fewer tokens
    ensures log' != log <==>
              Utf8.Len(candidate) <= Utf8.Len(current)
                  && Estimate(alphabetic, candidate) < Estimate(alphabetic, current)
    ensures Accepted(alphabetic, current, log, out, log')
  {
    hide Estimate, Utf8.Len;
    if HasTokenSavings(alphabetic, current, candidate) {
      out, log' := candidate, log + [strategy];
    } else {
      out, log' := current, log;
    }
  }

  method ApplyIfSmaller(alphabetic: Alphabet, current: string, strategy: string, log: seq<string>, transform: Transform)
    returns (out: string, log': seq<string>)
    ensures Accepted(alphabetic, current, log, out, log')
    ensures if Saves(alphabetic, current, transform(current))
            then Some(out) == transform(current) && log' == log + [strategy] else out == current && log' == log
    ensures out == Gated(alphabetic, current, transform(current))
    ensures log' == log + Named(Saves(alphabetic, current, transform(current)), strategy)
  {
    hide Estimate, Utf8.Len;
    match transform(current)
    case None => out, log' := current, log;
    case Some(candidate) => out, log' := ApplyCandidateIfSmaller(alphabetic, current, strategy, log, candidate);
  }

  /** The transforms the standard stage tries, in order; any functions at all. */
  datatype StandardFilters = StandardFilters(
    jsonMinify: Transform, minimizeTable: Transform, route: string -> string, foldLines: Transform,
    normalize: Transform)

  const STANDARD_NAMES: seq<string> :=
    ["json_minify", "minimize_table_whitespace", "tool_family_filter", "fold_repeated_lines", "normalize_whitespace"]

  /** `added` is `names` with some of its entries left out. */
  predicate Subsequence(added: seq<string>, names: seq<string>) {
    if names == [] then added == []
    else
      var names', name := names[..|names| - 1], names[|names| - 1];
      Subsequence(added, names')
          || (added != [] && added[|added| - 1] == name && Subsequence(added[..|added| - 1], names'))
  }

  /** The new entries of a log name strategies of a list, in the list's order, none twice. */
  predicate RecordsInOrder(log: seq<string>, log': seq<string>, names: seq<string>) {
    log <= log' && Subsequence(log'[|log|..], names)
  }

  lemma RecordsNothing(log: seq<string>)
    ensures RecordsInOrder(log, log, [])
  {
  }

  lemma RecordsNext(log: seq<string>, log': seq<string>, log'': seq<string>, names: seq<string>, name: string)
    requires RecordsInOrder(log, log', names) && (log'' == log' || log'' == log' + [name])
    ensures RecordsInOrder(log, log'', names + [name])
  {
    var all := names + [name];
    assert all[..|all| - 1] == names;
    if log'' != log' {
      var added := log''[|log|..];
      assert added[..|added| - 1] == log'[|log|..] && added[|added| - 1] == name;
    }
  }

  lemma RecordsNamed(log: seq<string>, log': seq<string>, names: seq<string>, used: bool, name: string)
    requires RecordsInOrder(log, log', names)
    ensures RecordsInOrder(log, log' + Named(used, name), names + [name])
  {
    assert log' + [] == log';
    RecordsNext(log, log', log' + Named(used, name), names, name);
    hide RecordsInOrder;
  }

  lemma AcceptedTwice(alphabetic: Alphabet, a: string, la: seq<string>, b: string, lb: seq<string>, c: string,
                      lc: seq<string>)
    requires Accepted(alphabetic, a, la, b, lb) && Accepted(alphabetic, b, lb, c, lc)
    ensures Accepted(alphabetic, a, la, c, lc)
  {
    hide Estimate, Utf8.Len;
  }

  /** Each stage works on what the one before left, and exactly the strategies that saved are recorded, in order. */
  method ApplyStandardFilters(alphabetic: Alphabet, filters: StandardFilters, output: string, log: seq<string>)
    returns (out: string, log': seq<string>)
    ensures Accepted(alphabetic, output, log, out, log')
    ensures RecordsInOrder(log, log', STANDARD_NAMES)
    ensures var a := Gated(alphabetic, output, filters.jsonMinify(output));
            var b := Gated(alphabetic, a, filters.minimizeTable(a));
            var c := Gated(alphabetic, b, Some(filters.route(b)));
            var d := Gated(alphabetic, c, filters.foldLines(c));
            && out == Gated(alphabetic, d, filters.normalize(d))
            && log' == log
                       + Named(Saves(alphabetic, output, filters.jsonMinify(output)), "json_minify")
                       + Named(Saves(alphabetic, a, filters.minimizeTable(a)), "minimize_table_whitespace")
                       + Named(Saves(alphabetic, b, Some(filters.route(b))), "tool_family_filter")
                       + Named(Saves(alphabetic, c, filters.foldLines(c)), "fold_repeated_lines")
                       + Named(Saves(alphabetic, d, filters.normalize(d)), "normalize_whitespace")
  {
    ghost var names := STANDARD_NAMES;
    assert names == [] + ["json_minify"] + ["minimize_table_whitespace"] + ["tool_family_filter"]
           + ["fold_repeated_lines"] + ["normalize_whitespace"];
    hide *;
    RecordsNothing(log);
    var a, la := ApplyIfSmaller(alphabetic, output, "json_minify", log, filters.jsonMinify);
    RecordsNamed(log, log, [], Saves(alphabetic, output, filters.jsonMinify(output)), names[0]);
    var b, lb := ApplyIfSmaller(alphabetic, a, "minimize_table_whitespace", la, filters.minimizeTable);
    RecordsNamed(log, la, [] + [names[0]], Saves(alphabetic, a, filters.minimizeTable(a)), names[1]);
    AcceptedTwice(alphabetic, output, log, a, la, b, lb);
    var c, lc := ApplyCandidateIfSmaller(alphabetic, b, "tool_family_filter", lb, filters.route(b));
    RecordsNamed(log, lb, [] + [names[0]] + [names[1]], Saves(alphabetic, b, Some(filters.route(b))), names[2]);
    AcceptedTwice(alphabetic, output, log, b, lb, c, lc);
    var d, ld := ApplyIfSmaller(alphabetic, c, "fold_repeated_lines", lc, filters.foldLines);
    RecordsNamed(log, lc, [] + [names[0]] + [names[1]] + [names[2]], Saves(alphabetic, c, filters.foldLines(c)),
                 names[3]);
    AcceptedTwice(alphabetic, output, log, c, lc, d, ld);
    out, log' := ApplyIfSmaller(alphabetic, d, "normalize_whitespace", ld, filters.normalize);
    RecordsNamed(log, ld, [] + [names[0]] + [names[1]] + [names[2]] + [names[3]],
                 Saves(alphabetic, d, filters.normalize(d)), names[4]);
    AcceptedTwice(alphabetic, output, log, d, ld, out, log');
  }

  datatype Method = Lzw | Repair | Auto

  function DictionaryName(how: Method): string {
    match how
    case Lzw => "lzw_dictionary"
    case Repair => "repair_dictionary"
    case Auto => "auto_dictionary"
  }

  /** A named method takes its own candidate exactly when that saves; the automatic one takes the shorter of those that
      save, and the first of two equally short ones. */
  function Chosen(alphabetic: Alphabet, current: string, a: Option<string>, b: Option<string>, how: Method):
    Option<string>
  {
    match how
    case Lzw => if Saves(alphabetic, current, a) then a else None
    case Repair => if Saves(alphabetic, current, b) then b else None
    case Auto =>
      if Saves(alphabetic, current, a)
         && (Saves(alphabetic, current, b) ==> Utf8.Len(a.value) <= Utf8.Len(b.value)) then a
      else if Saves(alphabetic, current, b) then b
      else None
  }

  /** The last stage: at most one dictionary replaces the output. */
  method ApplyDictionaryFilter(alphabetic: Alphabet, lzw: Transform, repair: Transform, current: string, how: Method,
                               log: seq<string>)
    returns (out: string, log': seq<string>)
    ensures Accepted(alphabetic, current, log, out, log')
    ensures |log'| <= |log| + 1
    ensures var chosen := Chosen(alphabetic, current, lzw(current), repair(current), how);
            if chosen.Some? then out == chosen.value && log' == log + [DictionaryName(how)]
            else out == current && log' == log
  {
    hide Estimate, Utf8.Len;
    match how
    case Lzw => out, log' := ApplyIfSmaller(alphabetic, current, "lzw_dictionary", log, lzw);
    case Repair => out, log' := ApplyIfSmaller(alphabetic, current, "repair_dictionary", log, repair);
    case Auto =>
      var best: Option<string> := None;
      var candidates := [lzw(current), repair(current)];
      for i := 0 to 2
        invariant best.Some? ==> HasTokenSavings(alphabetic, current, best.value)
        invariant i == 0 ==> best.None?
        invariant i == 1 ==> best == if Saves(alphabetic, current, candidates[0]) then candidates[0] else None
        invariant i == 2 ==> best == Chosen(alphabetic, current, candidates[0], candidates[1], Auto)
      {
        match candidates[i]
        case None =>
        case Some(c) =>
          if HasTokenSavings(alphabetic, current, c) && (best.None? || Utf8.Len(c) < Utf8.Len(best.value)) {
            best := Some(c);
          }
      }
      match best
      case Some(candidate) => out, log' := candidate, log + ["auto_dictionary"];
      case None => out, log' := current, log;
  }

  datatype AggressiveFilters = AggressiveFilters(
    logNoise: Transform, table: Transform, lzw: Transform, repair: Transform, how: Method)

  function AggressiveNames(how: Method): seq<string> {
    ["normalize_dynamic_log_noise", "toon_table", DictionaryName(how)]
  }

  /** Log noise, then tables, then one dictionary: each works on what the one before left, and exactly the strategies
      that saved are recorded, in that order. */
  method ApplyAggressiveFilters(alphabetic: Alphabet, filters: AggressiveFilters, output: string, log: seq<string>)
    returns (out: string, log': seq<string>)
    ensures Accepted(alphabetic, output, log, out, log')
    ensures RecordsInOrder(log, log', AggressiveNames(filters.how))
    ensures var a := Gated(alphabetic, output, filters.logNoise(output));
            var b := Gated(alphabetic, a, filters.table(a));
            var chosen := Chosen(alphabetic, b, filters.lzw(b), filters.repair(b), filters.how);
            && out == (if chosen.Some? then chosen.value else b)
            && log' == log
                       + Named(Saves(alphabetic, output, filters.logNoise(output)), "normalize_dynamic_log_noise")
                       + Named(Saves(alphabetic, a, filters.table(a)), "toon_table")
                       + Named(chosen.Some?, DictionaryName(filters.how))
  {
    hide Accepted, RecordsInOrder, Saves, Chosen;
    RecordsNothing(log);
    var a, la := ApplyIfSmaller(alphabetic, output, "normalize_dynamic_log_noise", log, filters.logNoise);
    ghost var n1 := [] + ["normalize_dynamic_log_noise"];
    RecordsNext(log, log, la, [], "normalize_dynamic_log_noise");
    var b, lb := ApplyIfSmaller(alphabetic, a, "toon_table", la, filters.table);
    ghost var n2 := n1 + ["toon_table"];
    RecordsNext(log, la, lb, n1, "toon_table");
    AcceptedTwice(alphabetic, output, log, a, la, b, lb);
    out, log' := ApplyDictionaryFilter(alphabetic, filters.lzw, filters.repair, b, filters.how, lb);
    RecordsNext(log, lb, log', n2, DictionaryName(filters.how));
    AcceptedTwice(alphabetic, output, log, b, lb, out, log');
    assert n2 + [DictionaryName(filters.how)] == AggressiveNames(filters.how);
  }
}
