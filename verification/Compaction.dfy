/** Context compaction: the protected window, the three phases that rewrite what
    lies before it, and the two strategies built on them. */
module Compaction {
  import opened Wrappers
  import opened Transcript
  import Decimal
  import Utf8

  type i64 = n: int | -0x8000_0000_0000_0000 <= n < 0x8000_0000_0000_0000

  // ---------- the protected window ----------

  /** Rust's `as usize`: a negative count wraps round to a huge one. */
  function AsUsize(n: i64): (r: nat)
    ensures r < 0x1_0000_0000_0000_0000 && (r - n) % 0x1_0000_0000_0000_0000 == 0
  {
    if n < 0 then n + 0x1_0000_0000_0000_0000 else n
  }

  function StepIndices(ms: seq<Message>, n: nat): seq<int>
    requires n <= |ms|
  {
    if n == 0 then []
    else StepIndices(ms, n - 1) + (if ms[n - 1].stepIndex.Some? then [ms[n - 1].stepIndex.value] else [])
  }

  predicate StrictlySorted(xs: seq<int>) {
    forall i, j | 0 <= i < j < |xs| :: xs[i] < xs[j]
  }

  /** Inserts a number into its place, unless it is there. */
  function Insert(x: int, xs: seq<int>): (r: seq<int>)
    requires StrictlySorted(xs)
    ensures StrictlySorted(r)
    ensures forall y :: y in r <==> y == x || y in xs
  {
    if xs == [] || x < xs[0] then Prepended(x, xs)
    else if x == xs[0] then xs
    else
      assert xs == [xs[0]] + xs[1..];
      Prepended(xs[0], Insert(x, xs[1..]))
  }

  function Prepended(x: int, xs: seq<int>): (r: seq<int>)
    requires StrictlySorted(xs) && forall y | y in xs :: x < y
    ensures StrictlySorted(r)
    ensures forall y :: y in r <==> y == x || y in xs
  {
    var r := [x] + xs;
    assert forall y :: y in r <==> y == x || y in xs;
    assert forall i | 0 < i < |r| :: r[i] in xs;
    r
  }

  /** Rust's `sort` followed by `dedup`. */
  function SortDedup(xs: seq<int>): (r: seq<int>)
    ensures StrictlySorted(r)
    ensures forall y :: y in r <==> y in xs
  {
    if xs == [] then [] else Insert(xs[0], SortDedup(xs[1..]))
  }

  function ProtectedSteps(rest: seq<Message>, keepRecent: i64): seq<int> {
    LastOf(SortDedup(StepIndices(rest, |rest|)), AsUsize(keepRecent))
  }

  function LastOf(xs: seq<int>, k: nat): seq<int> {
    if |xs| <= k then xs else xs[|xs| - k..]
  }

  predicate Carries(m: Message, steps: seq<int>) {
    m.stepIndex.Some? && m.stepIndex.value in steps
  }

  /** The first position at or after `i` whose message carries one of the steps. */
  function Position(ms: seq<Message>, steps: seq<int>, i: nat): (p: nat)
    requires i <= |ms|
    ensures i <= p <= |ms|
    ensures p < |ms| ==> Carries(ms[p], steps)
    ensures forall j | i <= j < p :: !Carries(ms[j], steps)
    decreases |ms| - i
  {
    if i == |ms| || Carries(ms[i], steps) then i else Position(ms, steps, i + 1)
  }

  /** Where the protected window begins in the messages after the header. */
  function WindowStart(rest: seq<Message>, keepRecent: i64): (p: nat)
    ensures p <= |rest|
  {
    if StepIndices(rest, |rest|) == [] then 0
    else Position(rest, ProtectedSteps(rest, keepRecent), 0)
  }

  // ---------- what the window is ----------

  ghost predicate HasStep(ms: seq<Message>, s: int) {
    exists i | 0 <= i < |ms| :: ms[i].stepIndex == Some(s)
  }

  lemma {:induction false} StepIndicesAre(ms: seq<Message>, n: nat, s: int)
    requires n <= |ms|
    ensures s in StepIndices(ms, n) <==> exists i | 0 <= i < n :: ms[i].stepIndex == Some(s)
  {
    if n > 0 {
      StepIndicesAre(ms, n - 1, s);
    }
  }

  lemma StepsAre(ms: seq<Message>, s: int)
    ensures s in SortDedup(StepIndices(ms, |ms|)) <==> HasStep(ms, s)
  {
    StepIndicesAre(ms, |ms|, s);
  }

  /** The distinct steps greater than `s` in a message list. */
  ghost function Later(ms: seq<Message>, s: int): set<int> {
    set t | t in StepIndices(ms, |ms|) && t > s
  }

  ghost predicate Recent(rest: seq<Message>, keepRecent: i64, i: int)
    requires 0 <= i < |rest|
  {
    rest[i].stepIndex.Some? && |Later(rest, rest[i].stepIndex.value)| < AsUsize(keepRecent)
  }

  /** The messages from `p` on are those from the first message of a recent step on, or all when there are no steps. */
  ghost predicate RecentSuffix(rest: seq<Message>, keepRecent: i64, p: nat)
    requires p <= |rest|
  {
    if forall i | 0 <= i < |rest| :: rest[i].stepIndex.None? then p == 0
    else (p < |rest| ==> Recent(rest, keepRecent, p)) && forall i | 0 <= i < p :: !Recent(rest, keepRecent, i)
  }

  lemma {:induction false} SizeOfTail(xs: seq<int>, i: nat, tail: set<int>)
    requires StrictlySorted(xs) && i <= |xs|
    requires forall t :: t in tail <==> t in xs[i..]
    ensures |tail| == |xs| - i
    decreases |xs| - i
  {
    if i < |xs| {
      assert xs[i..] == [xs[i]] + xs[i + 1..];
      SizeOfTail(xs, i + 1, tail - {xs[i]});
    } else {
      assert forall t :: t !in tail;
    }
  }

  /** The window begins at the first message whose step has fewer than `keepRecent`
      distinct later steps; when no message has a step, everything is protected. */
  lemma WindowStartsAtRecentStep(rest: seq<Message>, keepRecent: i64)
    ensures RecentSuffix(rest, keepRecent, WindowStart(rest, keepRecent))
  {
    hide StepIndices, SortDedup, ProtectedSteps, Later;
    if forall i | 0 <= i < |rest| :: rest[i].stepIndex.None? {
      NoSteps(rest);
    } else {
      var i :| 0 <= i < |rest| && rest[i].stepIndex.Some?;
      StepIndicesAre(rest, |rest|, rest[i].stepIndex.value);
      forall j | 0 <= j < |rest| && rest[j].stepIndex.Some?
        ensures Carries(rest[j], ProtectedSteps(rest, keepRecent))
                <==> |Later(rest, rest[j].stepIndex.value)| < AsUsize(keepRecent)
      {
        ProtectedMeansFewLater(rest, keepRecent, j);
      }
      var p := WindowStart(rest, keepRecent);
      assert p == Position(rest, ProtectedSteps(rest, keepRecent), 0);
    }
  }

  /** Only one suffix is that of the recent steps. */
  lemma RecentSuffixIsWindow(rest: seq<Message>, keepRecent: i64, p: nat)
    requires p <= |rest| && RecentSuffix(rest, keepRecent, p)
    ensures p == WindowStart(rest, keepRecent)
  {
    WindowStartsAtRecentStep(rest, keepRecent);
    hide WindowStart, Recent;
  }

  lemma NoSteps(rest: seq<Message>)
    ensures (forall i | 0 <= i < |rest| :: rest[i].stepIndex.None?) <==> StepIndices(rest, |rest|) == []
  {
    if StepIndices(rest, |rest|) != [] {
      StepIndicesAre(rest, |rest|, StepIndices(rest, |rest|)[0]);
    }
    if i :| 0 <= i < |rest| && rest[i].stepIndex.Some? {
      StepIndicesAre(rest, |rest|, rest[i].stepIndex.value);
    }
  }

  lemma ProtectedMeansFewLater(rest: seq<Message>, keepRecent: i64, i: nat)
    requires i < |rest| && rest[i].stepIndex.Some?
    ensures Carries(rest[i], ProtectedSteps(rest, keepRecent))
            <==> |Later(rest, rest[i].stepIndex.value)| < AsUsize(keepRecent)
  {
    var steps, s := SortDedup(StepIndices(rest, |rest|)), rest[i].stepIndex.value;
    StepsAre(rest, s);
    hide SortDedup, StepIndices;
    InLastMeansFewAfter(steps, AsUsize(keepRecent), s, Later(rest, s));
  }

  lemma InLastMeansFewAfter(xs: seq<int>, k: nat, s: int, later: set<int>)
    requires StrictlySorted(xs) && s in xs && forall t :: t in later <==> t in xs && t > s
    ensures s in LastOf(xs, k) <==> |later| < k
  {
    var j :| 0 <= j < |xs| && xs[j] == s;
    forall t ensures t in later <==> t in xs[j + 1..] {
      if t in later {
        var m :| 0 <= m < |xs| && xs[m] == t;
        assert t == xs[j + 1..][m - (j + 1)];
      }
    }
    SizeOfTail(xs, j + 1, later);
    if |xs| > k && j >= |xs| - k {
      assert s == xs[|xs| - k..][j - (|xs| - k)];
    }
  }

  predicate Inside(b: seq<int>, a: seq<int>) {
    forall x | x in b :: x in a
  }

  lemma LastShared(a: seq<int>, b: seq<int>)
    requires StrictlySorted(a) && StrictlySorted(b) && Inside(b, a)
    requires a != [] && a[|a| - 1] in b
    ensures b[|b| - 1] == a[|a| - 1]
  {
    assert b[|b| - 1] in a;
  }

  lemma WithoutLast(xs: seq<int>)
    requires StrictlySorted(xs) && xs != []
    ensures StrictlySorted(xs[..|xs| - 1])
    ensures forall y :: y in xs[..|xs| - 1] <==> y in xs && y != xs[|xs| - 1]
  {
    var last := xs[|xs| - 1];
    forall y | y in xs && y != last ensures y in xs[..|xs| - 1] {
      var i :| 0 <= i < |xs| && xs[i] == y;
      assert xs[..|xs| - 1][i] == y;
    }
  }

  /** Two strictly sorted sequences, one inside the other, agree on their last `n`
      elements when the smaller one holds the last `n` of the larger. */
  lemma {:induction false} TopAgrees(a: seq<int>, b: seq<int>, n: nat)
    requires StrictlySorted(a) && StrictlySorted(b) && n <= |a|
    requires Inside(b, a) && Inside(a[|a| - n..], b)
    ensures n <= |b| && b[|b| - n..] == a[|a| - n..]
  {
    if n > 0 {
      var x, top := a[|a| - 1], a[|a| - n..];
      assert top[n - 1] == x && x in top && x in b;
      var a', b' := a[..|a| - 1], b[..|b| - 1];
      var top' := a'[|a'| - (n - 1)..];
      assert top == top' + [x];
      LastShared(a, b);
      WithoutLast(a);
      WithoutLast(b);
      forall y | y in top' ensures y in b' {
        var i :| 0 <= i < n - 1 && top'[i] == y;
        assert y == top[i] && y == a'[|a'| - (n - 1) + i];
        assert y in top && y in a' && y in b && y != x;
      }
      forall y | y in b' ensures y in a' {
        assert y in b && y in a;
      }
      assert Inside(b', a') && Inside(top', b');
      hide StrictlySorted;
      TopAgrees(a', b', n - 1);
      assert b[|b| - n..] == b'[|b'| - (n - 1)..] + [x];
    }
  }

  // ---------- rewriting the eligible zone ----------

  type Filter = Message -> Option<Message>

  /** What a filter leaves of the first `n` messages. */
  function Kept(f: Filter, ms: seq<Message>, n: nat): seq<Message>
    requires n <= |ms|
  {
    if n == 0 then []
    else
      match f(ms[n - 1])
      case None => Kept(f, ms, n - 1)
      case Some(m) => Kept(f, ms, n - 1) + [m]
  }

  ghost predicate KeepsSteps(f: Filter) {
    forall m :: f(m).Some? ==> f(m).value.stepIndex == m.stepIndex
  }

  lemma {:induction false} KeptOrigin(f: Filter, ms: seq<Message>, n: nat, i: nat)
    requires n <= |ms| && i < |Kept(f, ms, n)|
    ensures exists j | 0 <= j < n :: f(ms[j]) == Some(Kept(f, ms, n)[i])
  {
    if i < |Kept(f, ms, n - 1)| {
      KeptOrigin(f, ms, n - 1, i);
    }
  }

  lemma {:induction false} KeptPrefix(f: Filter, ms: seq<Message>, tail: seq<Message>, n: nat)
    requires n <= |ms|
    ensures Kept(f, ms + tail, n) == Kept(f, ms, n)
  {
    if n > 0 {
      KeptPrefix(f, ms, tail, n - 1);
    }
  }

  function Then(f: Filter, g: Filter): Filter {
    (m: Message) => match f(m) case None => None case Some(x) => g(x)
  }

  lemma {:induction false} KeptTwice(f: Filter, g: Filter, ms: seq<Message>, n: nat)
    requires n <= |ms|
    ensures var once := Kept(f, ms, n);
            Kept(g, once, |once|) == Kept(Then(f, g), ms, n)
  {
    if n > 0 {
      var once := Kept(f, ms, n - 1);
      KeptTwice(f, g, ms, n - 1);
      match f(ms[n - 1])
      case None =>
      case Some(x) => KeptPrefix(g, once, [x], |once|);
    }
  }

  lemma {:induction false} KeptSame(f: Filter, g: Filter, ms: seq<Message>, n: nat)
    requires n <= |ms| && forall i | 0 <= i < n :: f(ms[i]) == g(ms[i])
    ensures Kept(f, ms, n) == Kept(g, ms, n)
  {
    if n > 0 {
      KeptSame(f, g, ms, n - 1);
    }
  }

  lemma KeptCarriesNothingNew(f: Filter, rest: seq<Message>, cut: nat, steps: seq<int>)
    requires cut <= |rest| && KeepsSteps(f)
    requires forall j | 0 <= j < cut :: !Carries(rest[j], steps)
    ensures forall i | 0 <= i < |Kept(f, rest, cut)| :: !Carries(Kept(f, rest, cut)[i], steps)
  {
    forall i | 0 <= i < |Kept(f, rest, cut)| ensures !Carries(Kept(f, rest, cut)[i], steps) {
      KeptOrigin(f, rest, cut, i);
    }
  }

  /** The steps of a rewritten list lie between those of its window and those of the original. */
  lemma RewrittenSteps(f: Filter, rest: seq<Message>, cut: nat, s: int)
    requires cut <= |rest| && KeepsSteps(f)
    ensures HasStep(Kept(f, rest, cut) + rest[cut..], s) ==> HasStep(rest, s)
    ensures (exists i | cut <= i < |rest| :: rest[i].stepIndex == Some(s)) ==>
            HasStep(Kept(f, rest, cut) + rest[cut..], s)
  {
    var kept := Kept(f, rest, cut);
    var new_ := kept + rest[cut..];
    if HasStep(new_, s) {
      var i :| 0 <= i < |new_| && new_[i].stepIndex == Some(s);
      if i < |kept| {
        KeptOrigin(f, rest, cut, i);
      } else {
        assert rest[cut + (i - |kept|)].stepIndex == Some(s);
      }
    }
    if i :| cut <= i < |rest| && rest[i].stepIndex == Some(s) {
      assert new_[|kept| + (i - cut)].stepIndex == Some(s);
    }
  }

  lemma {:induction false} SameProtectedSteps(f: Filter, rest: seq<Message>, keepRecent: i64)
    requires KeepsSteps(f)
    ensures var cut := WindowStart(rest, keepRecent);
            StepIndices(rest, |rest|) != [] ==>
              ProtectedSteps(Kept(f, rest, cut) + rest[cut..], keepRecent) == ProtectedSteps(rest, keepRecent)
  {
    var cut, k := WindowStart(rest, keepRecent), AsUsize(keepRecent);
    var new_ := Kept(f, rest, cut) + rest[cut..];
    if StepIndices(rest, |rest|) != [] {
      hide StepIndices, SortDedup, Kept, WindowStart, LastOf;
      var a, b := SortDedup(StepIndices(rest, |rest|)), SortDedup(StepIndices(new_, |new_|));
      StepsInside(f, rest, keepRecent);
      LastOfAgrees(a, b, k);
    }
  }

  lemma LastOfAgrees(a: seq<int>, b: seq<int>, k: nat)
    requires StrictlySorted(a) && StrictlySorted(b) && Inside(b, a) && Inside(LastOf(a, k), b)
    ensures LastOf(b, k) == LastOf(a, k)
  {
    var n := if |a| <= k then |a| else k;
    assert LastOf(a, k) == a[|a| - n..];
    TopAgrees(a, b, n);
    SubsetNotLonger(a, b);
    hide StrictlySorted;
    assert LastOf(b, k) == b[|b| - n..];
  }

  lemma StepsInside(f: Filter, rest: seq<Message>, keepRecent: i64)
    requires KeepsSteps(f) && StepIndices(rest, |rest|) != []
    ensures var cut := WindowStart(rest, keepRecent);
            var new_ := Kept(f, rest, cut) + rest[cut..];
            var steps := SortDedup(StepIndices(new_, |new_|));
            Inside(steps, SortDedup(StepIndices(rest, |rest|))) && Inside(ProtectedSteps(rest, keepRecent), steps)
  {
    var cut, protected := WindowStart(rest, keepRecent), ProtectedSteps(rest, keepRecent);
    hide StepIndices, SortDedup, Kept;
    var new_ := Kept(f, rest, cut) + rest[cut..];
    forall x | x in SortDedup(StepIndices(new_, |new_|)) ensures x in SortDedup(StepIndices(rest, |rest|)) {
      StepsAre(new_, x);
      RewrittenSteps(f, rest, cut, x);
      StepsAre(rest, x);
    }
    forall x | x in protected ensures x in SortDedup(StepIndices(new_, |new_|)) {
      StepsAre(rest, x);
      var i :| 0 <= i < |rest| && rest[i].stepIndex == Some(x);
      assert Carries(rest[i], protected);
      RewrittenSteps(f, rest, cut, x);
      StepsAre(new_, x);
    }
  }

  lemma SubsetNotLonger(a: seq<int>, b: seq<int>)
    requires StrictlySorted(a) && StrictlySorted(b) && Inside(b, a)
    ensures |b| <= |a|
  {
    var sa, sb := set x | x in a, set x | x in b;
    SizeOfTail(a, 0, sa);
    SizeOfTail(b, 0, sb);
    assert sa == sb + (sa - sb);
  }

  /** However the eligible zone is filtered, the window is found again where it was. */
  lemma WindowNeverMoves(f: Filter, rest: seq<Message>, keepRecent: i64)
    requires KeepsSteps(f) && keepRecent != 0
    ensures var cut := WindowStart(rest, keepRecent);
            var kept := Kept(f, rest, cut);
            WindowStart(kept + rest[cut..], keepRecent) == |kept|
  {
    var cut := WindowStart(rest, keepRecent);
    var kept := Kept(f, rest, cut);
    var new_ := kept + rest[cut..];
    if StepIndices(rest, |rest|) == [] {
      assert new_ == rest;
    } else {
      hide Kept, SortDedup, StepIndices, ProtectedSteps;
      var protected := ProtectedSteps(rest, keepRecent);
      WindowIsInside(rest, keepRecent);
      SameProtectedSteps(f, rest, keepRecent);
      KeptCarriesNothingNew(f, rest, cut, protected);
      assert new_[|kept|] == rest[cut];
      StepIndicesAre(new_, |new_|, rest[cut].stepIndex.value);
    }
  }

  lemma {:induction false} WindowIsInside(rest: seq<Message>, keepRecent: i64)
    requires keepRecent != 0 && StepIndices(rest, |rest|) != []
    ensures WindowStart(rest, keepRecent) < |rest|
  {
    var steps, protected := SortDedup(StepIndices(rest, |rest|)), ProtectedSteps(rest, keepRecent);
    assert StepIndices(rest, |rest|)[0] in steps;
    assert protected != [] && protected[0] in steps;
    StepsAre(rest, protected[0]);
    var i :| 0 <= i < |rest| && rest[i].stepIndex == Some(protected[0]);
    assert Carries(rest[i], protected);
  }

  // ---------- the three phases ----------

  const TRUNCATION_LIMIT: nat := 200

  /** The tool-output compressor, seen from here: tool name and content to content. */
  type Compressor = (string, string) -> string

  function Truncated(content: string): string {
    if |content| <= TRUNCATION_LIMIT then content
    else
      var removed := Decimal.Digits(|content| - TRUNCATION_LIMIT);
      content[..TRUNCATION_LIMIT] + "\n[Truncated — " + removed + " chars removed]"
  }

  function Phase1(compress: Compressor): Filter {
    (m: Message) =>
      if IsNudge(m.msgType) then None
      else if m.msgType.ToolResult? then
        var name := if m.toolName.Some? then m.toolName.value else "generic";
        Some(m.(content := Truncated(compress(name, m.content))))
      else Some(m)
  }

  function Phase2(): Filter {
    (m: Message) => if IsNudge(m.msgType) || m.msgType.ToolCall? || m.msgType.ToolResult? then None else Some(m)
  }

  function Phase3(): Filter {
    (m: Message) =>
      if IsNudge(m.msgType) || m.msgType.ToolCall? || m.msgType.ToolResult? || m.msgType.Reasoning?
          || m.msgType.TextResponse?
      then None else Some(m)
  }

  /** The header, what a filter leaves of the eligible zone, and the window untouched. */
  function Compacted(f: Filter, messages: seq<Message>, keepRecent: i64): (r: seq<Message>)
    requires |messages| >= 2
    ensures |r| >= 2 && r[..2] == messages[..2]
  {
    var rest := messages[2..];
    var cut := WindowStart(rest, keepRecent);
    messages[..2] + Kept(f, rest, cut) + rest[cut..]
  }

  /** The loop all three phases share: it walks the messages after the header, passes the
      window through, and hands every earlier message to the phase's filter. */
  method ApplyPhase(f: Filter, messages: seq<Message>, keepRecent: i64) returns (result: seq<Message>)
    requires |messages| >= 2
    ensures result == Compacted(f, messages, keepRecent)
  {
    hide WindowStart, Kept;
    var rest := messages[2..];
    KeptNothing(f, rest);
    var protectedStart := WindowStart(rest, keepRecent);
    result := messages[..2];
    for i := 0 to |rest|
      invariant i <= protectedStart ==> result == messages[..2] + Kept(f, rest, i)
      invariant i > protectedStart ==>
                  result == messages[..2] + Kept(f, rest, protectedStart) + rest[protectedStart..i]
    {
      if i >= protectedStart {
        assert rest[protectedStart..i + 1] == rest[protectedStart..i] + [rest[i]];
        result := result + [rest[i]];
      } else {
        KeptStep(f, rest, i);
        match f(rest[i])
        case None =>
        case Some(m) => result := result + [m];
      }
    }
    assert rest[protectedStart..|rest|] == rest[protectedStart..];
  }

  lemma KeptStep(f: Filter, ms: seq<Message>, n: nat)
    requires n < |ms|
    ensures Kept(f, ms, n + 1) == Kept(f, ms, n) + (if f(ms[n]).Some? then [f(ms[n]).value] else [])
  {
  }

  /** With a window that cannot vanish, filtering twice is filtering once by both. */
  lemma ChainCollapses(f: Filter, g: Filter, messages: seq<Message>, keepRecent: i64)
    requires |messages| >= 2 && KeepsSteps(f) && keepRecent != 0
    ensures Compacted(g, Compacted(f, messages, keepRecent), keepRecent) == Compacted(Then(f, g), messages, keepRecent)
  {
    hide WindowStart, Kept;
    var rest := messages[2..];
    var cut := WindowStart(rest, keepRecent);
    var kept, window := Kept(f, rest, cut), rest[cut..];
    var once := Compacted(f, messages, keepRecent);
    assert once[..2] == messages[..2] && once[2..] == kept + window;
    WindowNeverMoves(f, rest, keepRecent);
    assert (kept + window)[|kept|..] == window;
    KeptPrefix(g, kept, window, |kept|);
    KeptTwice(f, g, rest, cut);
  }

  lemma SameFilter(f: Filter, g: Filter, messages: seq<Message>, keepRecent: i64)
    requires |messages| >= 2 && forall m :: f(m) == g(m)
    ensures Compacted(f, messages, keepRecent) == Compacted(g, messages, keepRecent)
  {
    KeptSame(f, g, messages[2..], WindowStart(messages[2..], keepRecent));
  }

  /** The chain of phases collapses: whatever the compressor did, phase 2 after phase 1 is
      phase 2 of the original, and phase 3 after both is phase 3 of the original. */
  lemma PhasesCollapse(compress: Compressor, messages: seq<Message>, keepRecent: i64)
    requires |messages| >= 2 && keepRecent != 0
    ensures var one := Compacted(Phase1(compress), messages, keepRecent);
            var two := Compacted(Phase2(), one, keepRecent);
            && two == Compacted(Phase2(), messages, keepRecent)
            && Compacted(Phase3(), two, keepRecent) == Compacted(Phase3(), messages, keepRecent)
  {
    hide Compacted;
    ChainCollapses(Phase1(compress), Phase2(), messages, keepRecent);
    SameFilter(Then(Phase1(compress), Phase2()), Phase2(), messages, keepRecent);
    ChainCollapses(Phase2(), Phase3(), messages, keepRecent);
    SameFilter(Then(Phase2(), Phase3()), Phase3(), messages, keepRecent);
  }

  // ---------- a window of zero steps ----------

  predicate Stepped(m: Message) {
    m.stepIndex.Some?
  }

  ghost predicate SomeStepped(ms: seq<Message>) {
    exists m | m in ms :: Stepped(m)
  }

  /** With `keepRecent` 0 nothing is protected, unless no message has a step: then everything is. */
  lemma ZeroWindow(rest: seq<Message>)
    ensures WindowStart(rest, 0) == if SomeStepped(rest) then |rest| else 0
  {
    NoSteps(rest);
    if StepIndices(rest, |rest|) != [] {
      var steps := SortDedup(StepIndices(rest, |rest|));
      assert StepIndices(rest, |rest|)[0] in steps;
      assert ProtectedSteps(rest, 0) == steps[|steps|..] == [];
      var i :| 0 <= i < |rest| && rest[i].stepIndex.Some?;
      assert Stepped(rest[i]);
    }
  }

  /** A filter that drops or passes on, and never rewrites. */
  ghost predicate OnlyDrops(f: Filter) {
    forall m :: f(m).None? || f(m) == Some(m)
  }

  lemma {:induction false} KeptAll(f: Filter, ms: seq<Message>, n: nat)
    requires n <= |ms| && OnlyDrops(f)
    ensures |Kept(f, ms, n)| <= n
    ensures Kept(f, ms, n) == ms[..n] <==> |Kept(f, ms, n)| == n
  {
    if n > 0 {
      KeptAll(f, ms, n - 1);
      assert ms[..n] == ms[..n - 1] + [ms[n - 1]];
    }
  }

  /** Two filters, the second dropping more, leave equally many messages exactly when it drops no more of these. */
  lemma {:induction false} KeptAsMany(f: Filter, g: Filter, ms: seq<Message>, n: nat)
    requires n <= |ms| && forall m | g(m).Some? :: f(m).Some?
    ensures |Kept(g, ms, n)| <= |Kept(f, ms, n)|
    ensures |Kept(g, ms, n)| == |Kept(f, ms, n)| <==> forall i | 0 <= i < n :: f(ms[i]).Some? ==> g(ms[i]).Some?
  {
    if n > 0 {
      KeptAsMany(f, g, ms, n - 1);
    }
  }

  lemma {:induction false} KeptHolds(f: Filter, ms: seq<Message>, n: nat, i: nat)
    requires i < n <= |ms| && f(ms[i]).Some?
    ensures f(ms[i]).value in Kept(f, ms, n)
  {
    if i < n - 1 {
      KeptHolds(f, ms, n - 1, i);
    }
  }

  lemma KeptStepped(f: Filter, ms: seq<Message>)
    requires KeepsSteps(f)
    ensures SomeStepped(Kept(f, ms, |ms|)) <==> exists m | m in ms :: Stepped(m) && f(m).Some?
  {
    var kept := Kept(f, ms, |ms|);
    if m :| m in kept && Stepped(m) {
      var i :| 0 <= i < |kept| && kept[i] == m;
      KeptOrigin(f, ms, |ms|, i);
    }
    if m :| m in ms && Stepped(m) && f(m).Some? {
      var i :| 0 <= i < |ms| && ms[i] == m;
      KeptHolds(f, ms, |ms|, i);
    }
  }

  lemma KeptNothing(f: Filter, ms: seq<Message>)
    ensures Kept(f, ms, 0) == []
  {
  }

  lemma ZeroCompacted(f: Filter, messages: seq<Message>)
    requires |messages| >= 2
    ensures Compacted(f, messages, 0)
            == if SomeStepped(messages[2..]) then messages[..2] + Kept(f, messages[2..], |messages[2..]|) else messages
  {
    hide WindowStart, Kept, SomeStepped;
    var rest := messages[2..];
    ZeroWindow(rest);
    KeptNothing(f, rest);
    assert rest[|rest|..] == [];
    assert messages[..2] + rest == messages;
  }

  /** With `keepRecent` 0 a second filter finds nothing to drop once the first has dropped every stepped
      message; so the two collapse into `both` exactly when that did not happen, or does not matter. */
  lemma ZeroChain(f: Filter, g: Filter, both: Filter, messages: seq<Message>)
    requires |messages| >= 2 && KeepsSteps(f) && OnlyDrops(g)
    requires forall m :: Then(f, g)(m) == both(m)
    ensures var rest := messages[2..];
            (Compacted(g, Compacted(f, messages, 0), 0) == Compacted(both, messages, 0) <==>
                || (forall m | m in rest :: !Stepped(m))
                || (exists m | m in rest :: Stepped(m) && f(m).Some?)
                || (forall m | m in rest :: f(m).Some? ==> both(m).Some?))
    ensures (forall m | m in messages[2..] && Stepped(m) :: f(m).None?)
            ==> Compacted(g, Compacted(f, messages, 0), 0) == Compacted(f, messages, 0)
  {
    hide Compacted, Kept;
    var rest := messages[2..];
    var kept, once := Kept(f, rest, |rest|), Compacted(f, messages, 0);
    ZeroCompacted(f, messages);
    ZeroCompacted(both, messages);
    assert messages[..2] + rest == messages;
    assert once[..2] == messages[..2] && once[2..] == if SomeStepped(rest) then kept else rest;
    ZeroCompacted(g, once);
    KeptStepped(f, rest);
    KeptTwice(f, g, rest, |rest|);
    KeptSame(Then(f, g), both, rest, |rest|);
    KeptAll(g, kept, |kept|);
    KeptAsMany(f, both, rest, |rest|);
    assert kept[..|kept|] == kept;
    assert forall m | m in rest :: exists i | 0 <= i < |rest| :: rest[i] == m;
    if SomeStepped(rest) && forall m | m in rest && Stepped(m) :: f(m).None? {
      assert Compacted(g, once, 0) == once == messages[..2] + kept;
      assert Compacted(both, messages, 0) == messages[..2] + Kept(both, rest, |rest|);
      assert (messages[..2] + kept)[2..] == kept;
      assert (messages[..2] + Kept(both, rest, |rest|))[2..] == Kept(both, rest, |rest|);
    }
  }

  lemma PhasesDrop(compress: Compressor)
    ensures KeepsSteps(Phase1(compress)) && OnlyDrops(Phase2()) && OnlyDrops(Phase3())
    ensures forall m :: Then(Phase1(compress), Phase2())(m) == Phase2()(m) == Then(Phase2(), Phase2())(m)
    ensures forall m :: Then(Phase1(compress), Phase3())(m) == Then(Phase2(), Phase3())(m) == Phase3()(m)
    ensures forall m :: Then(Phase3(), Phase3())(m) == Phase3()(m)
    ensures forall m :: Phase1(compress)(m).Some? <==> !IsNudge(m.msgType)
    ensures forall m :: Phase2()(m).Some? <==> !IsNudge(m.msgType) && !OfTools(m)
    ensures forall m :: Phase3()(m).Some? <==> !IsNudge(m.msgType) && !OfTools(m) && !Spoken(m)
    ensures forall m | OfTools(m) || Spoken(m) :: !IsNudge(m.msgType) && !(OfTools(m) && Spoken(m))
  {
  }

  predicate OfTools(m: Message) {
    m.msgType.ToolCall? || m.msgType.ToolResult?
  }

  predicate Spoken(m: Message) {
    m.msgType.Reasoning? || m.msgType.TextResponse?
  }

  /** With `keepRecent` 0: whether phase 2 after phase 1 is phase 2 of the original. */
  ghost predicate SecondCollapses(rest: seq<Message>) {
    || (forall m | m in rest :: !Stepped(m))
    || (exists m | m in rest :: Stepped(m) && !IsNudge(m.msgType))
    || (forall m | m in rest :: !OfTools(m))
  }

  /** With `keepRecent` 0: whether phase 3 after both is phase 3 of the original. */
  ghost predicate ThirdCollapses(rest: seq<Message>) {
    || (forall m | m in rest :: !Stepped(m))
    || (exists m | m in rest :: Stepped(m) && !IsNudge(m.msgType) && !OfTools(m))
    || (SecondCollapses(rest) && forall m | m in rest :: !Spoken(m))
  }

  /** With `keepRecent` 0 the chain of all three phases collapses on exactly these transcripts: a phase that drops the
      last stepped message leaves the later ones nothing they may drop. */
  lemma ZeroWindowCollapsesExactly(compress: Compressor, messages: seq<Message>)
    requires |messages| >= 2
    ensures var one := Compacted(Phase1(compress), messages, 0);
            var two := Compacted(Phase2(), one, 0);
            && (two == Compacted(Phase2(), messages, 0) <==> SecondCollapses(messages[2..]))
            && (Compacted(Phase3(), two, 0) == Compacted(Phase3(), messages, 0) <==> ThirdCollapses(messages[2..]))
  {
    PhasesDrop(compress);
    hide Compacted, Phase1, Phase2, Phase3, Then, IsNudge, OfTools, Spoken, Stepped;
    ZeroChain(Phase1(compress), Phase2(), Phase2(), messages);
    ZeroChain(Phase1(compress), Phase3(), Phase3(), messages);
    ZeroChain(Phase2(), Phase3(), Phase3(), messages);
  }

  ghost predicate SecondFails(compress: Compressor, messages: seq<Message>) {
    && |messages| >= 2
    && Compacted(Phase2(), Compacted(Phase1(compress), messages, 0), 0) != Compacted(Phase2(), messages, 0)
  }

  ghost predicate ThirdFails(compress: Compressor, messages: seq<Message>) {
    && |messages| >= 2
    && var two := Compacted(Phase2(), Compacted(Phase1(compress), messages, 0), 0);
       Compacted(Phase3(), two, 0) != Compacted(Phase3(), messages, 0)
  }

  function Blank(kind: MessageType, step: Option<int>): Message {
    Message(User, "", kind, step, None, None, None)
  }

  lemma CallKept(nudge: Message, call: Message)
    requires nudge == Blank(RetryNudge, Some(0)) && call == Blank(MessageType.ToolCall, None)
    ensures !SecondCollapses([nudge, call])
  {
    assert Stepped(nudge) && nudge in [nudge, call];
    assert OfTools(call) && call in [nudge, call];
  }

  lemma TextKept(call: Message, text: Message)
    requires call == Blank(MessageType.ToolCall, Some(0)) && text == Blank(TextResponse, None)
    ensures SecondCollapses([call, text]) && !ThirdCollapses([call, text])
  {
    assert Stepped(call) && !IsNudge(call.msgType) && call in [call, text];
    assert Spoken(text) && text in [call, text];
  }

  /** Two transcripts on which the chain does not collapse: a nudge has the only step and goes first, so a call is kept;
      a call has the only step and goes next, so a spoken text is kept. */
  lemma ChainCanFail(compress: Compressor, a: Message, b: Message)
    ensures SecondFails(compress, [a, b, Blank(RetryNudge, Some(0)), Blank(MessageType.ToolCall, None)])
    ensures !SecondFails(compress, [a, b, Blank(MessageType.ToolCall, Some(0)), Blank(TextResponse, None)])
    ensures ThirdFails(compress, [a, b, Blank(MessageType.ToolCall, Some(0)), Blank(TextResponse, None)])
  {
    var nudge, call := Blank(RetryNudge, Some(0)), Blank(MessageType.ToolCall, None);
    var stepped, text := Blank(MessageType.ToolCall, Some(0)), Blank(TextResponse, None);
    CallKept(nudge, call);
    TextKept(stepped, text);
    hide Compacted, Phase1, Phase2, Phase3, SecondCollapses, ThirdCollapses, Blank;
    assert [a, b, nudge, call][2..] == [nudge, call] && [a, b, stepped, text][2..] == [stepped, text];
    ZeroWindowCollapsesExactly(compress, [a, b, nudge, call]);
    ZeroWindowCollapsesExactly(compress, [a, b, stepped, text]);
  }

  /** Running phase 2 or phase 3 again changes nothing. */
  lemma PhasesIdempotent(messages: seq<Message>, keepRecent: i64)
    requires |messages| >= 2
    ensures var two := Compacted(Phase2(), messages, keepRecent);
            Compacted(Phase2(), two, keepRecent) == two
    ensures var three := Compacted(Phase3(), messages, keepRecent);
            Compacted(Phase3(), three, keepRecent) == three
  {
    PhasesDrop((name, content) => content);
    hide Compacted, Phase2, Phase3, Then;
    if keepRecent == 0 {
      ZeroChain(Phase2(), Phase2(), Phase2(), messages);
      ZeroChain(Phase3(), Phase3(), Phase3(), messages);
    } else {
      ChainCollapses(Phase2(), Phase2(), messages, keepRecent);
      SameFilter(Then(Phase2(), Phase2()), Phase2(), messages, keepRecent);
      ChainCollapses(Phase3(), Phase3(), messages, keepRecent);
      SameFilter(Then(Phase3(), Phase3()), Phase3(), messages, keepRecent);
    }
  }

  // ---------- sizes ----------

  function Bytes(ms: seq<Message>, n: nat): nat
    requires n <= |ms|
  {
    if n == 0 then 0 else Bytes(ms, n - 1) + Utf8.Len(ms[n - 1].content)
  }

  lemma {:induction false} BytesUpTo(ms: seq<Message>, n: nat, i: nat)
    requires i < n <= |ms|
    ensures Bytes(ms, n) >= Utf8.Len(ms[i].content)
    ensures (forall m | m in ms :: m.content == "") ==> Bytes(ms, n) == 0
  {
    hide Utf8.Len;
    NoBytes();
    if i < n - 1 {
      BytesUpTo(ms, n - 1, i);
    } else if n > 1 {
      BytesUpTo(ms, n - 1, 0);
    } else {
      assert Bytes(ms, 0) == 0;
    }
  }

  lemma NoBytes()
    ensures Utf8.Len("") == 0
  {
  }

  /** The estimate the strategies use: a quarter of the byte length. */
  function Tokens(ms: seq<Message>): nat {
    Bytes(ms, |ms|) / 4
  }

  lemma {:induction false} BytesConcat(a: seq<Message>, b: seq<Message>, n: nat)
    requires n <= |b|
    ensures Bytes(a + b, |a| + n) == Bytes(a, |a|) + Bytes(b, n)
    decreases |a| + n
  {
    hide Utf8.Len;
    if n > 0 {
      BytesConcat(a, b, n - 1);
    } else if |a| > 0 {
      BytesConcat(a[..|a| - 1], [a[|a| - 1]] + b, 0);
      assert a[..|a| - 1] + ([a[|a| - 1]] + b) == a + b;
      BytesPrefix(a, |a| - 1);
    }
  }

  lemma {:induction false} BytesPrefix(a: seq<Message>, n: nat)
    requires n <= |a|
    ensures Bytes(a[..n], n) == Bytes(a, n)
    decreases n
  {
    hide Utf8.Len;
    if n > 0 {
      BytesPrefix(a, n - 1);
      BytesPrefix(a[..n], n - 1);
      assert a[..n][..n - 1] == a[..n - 1];
    }
  }

  lemma {:induction false} DroppingShrinks(f: Filter, ms: seq<Message>, n: nat)
    requires n <= |ms| && OnlyDrops(f)
    ensures Bytes(Kept(f, ms, n), |Kept(f, ms, n)|) <= Bytes(ms, n)
  {
    hide Utf8.Len;
    if n > 0 {
      var kept := Kept(f, ms, n - 1);
      DroppingShrinks(f, ms, n - 1);
      if f(ms[n - 1]).Some? {
        BytesConcat(kept, [ms[n - 1]], 1);
        assert Bytes([ms[n - 1]], 1) == Bytes([ms[n - 1]], 0) + Utf8.Len(ms[n - 1].content);
      }
    }
  }

  /** Phases 2 and 3 only drop messages, so they never raise the estimate. */
  lemma DroppingNeverGrows(f: Filter, messages: seq<Message>, keepRecent: i64)
    requires |messages| >= 2 && OnlyDrops(f)
    ensures Tokens(Compacted(f, messages, keepRecent)) <= Tokens(messages)
  {
    hide Utf8.Len, WindowStart, Kept, Bytes;
    var header, rest := messages[..2], messages[2..];
    var cut := WindowStart(rest, keepRecent);
    var kept, window := Kept(f, rest, cut), rest[cut..];
    DroppingShrinks(f, rest, cut);
    BytesPrefix(rest, cut);
    BytesConcat(header, kept, |kept|);
    BytesConcat(header + kept, window, |window|);
    BytesConcat(rest[..cut], window, |window|);
    assert rest[..cut] + window == rest;
    BytesConcat(header, rest, |rest|);
    assert header + rest == messages;
  }

  /** All the text of a message list. */
  function Text(ms: seq<Message>): string {
    if ms == [] then "" else ms[0].content + Text(ms[1..])
  }

  lemma {:induction false} BytesOfText(ms: seq<Message>)
    ensures Bytes(ms, |ms|) == |Utf8.Encode(Text(ms))|
  {
    hide Utf8.Encode;
    if ms != [] {
      BytesOfText(ms[1..]);
      assert ms == [ms[0]] + ms[1..];
      BytesConcat([ms[0]], ms[1..], |ms| - 1);
      assert Bytes([ms[0]], 1) == Bytes([ms[0]], 0) + Utf8.Len(ms[0].content);
      Utf8.EncodeConcat(ms[0].content, Text(ms[1..]));
    } else {
      assert Utf8.Encode("") == [] by { Utf8.EncodeStep("", 'a'); }
    }
  }

  /** The estimate is a quarter of the bytes of all text, rounded down. */
  lemma TokensAreQuarterBytes(ms: seq<Message>)
    ensures 4 * Tokens(ms) <= |Utf8.Encode(Text(ms))| < 4 * Tokens(ms) + 4
  {
    BytesOfText(ms);
    hide Bytes, Utf8.Encode;
  }

  /** Which types each phase drops before the window, and that it passes on everything else as it is, but for the
      content of tool results in phase 1: compressed under the name of their tool, and beyond 200 characters cut and
      marked with the number of those removed. */
  lemma PhasesDropExactly(compress: Compressor, m: Message)
    ensures Phase1(compress)(m).None? <==> m.msgType in {StepNudge, PrerequisiteNudge, RetryNudge}
    ensures Phase2()(m) == if m.msgType in {StepNudge, PrerequisiteNudge, RetryNudge, MessageType.ToolCall, ToolResult}
                           then None else Some(m)
    ensures Phase3()(m)
            == if m.msgType in {SystemPrompt, UserInput, ContextWarning, Summary} then Some(m) else None
    ensures m.msgType in {SystemPrompt, UserInput, MessageType.ToolCall, Reasoning, TextResponse, ContextWarning,
                          Summary}
            ==> Phase1(compress)(m) == Some(m)
    ensures m.msgType == ToolResult ==>
              var content := compress(match m.toolName case Some(name) => name case None => "generic", m.content);
              exists removed: string :: Phase1(compress)(m) == Some(m.(content := CutAt200(content, removed)))
                && (|content| > 200 ==> Decimal.ValueOf(removed) == |content| - 200 && removed[0] != '0')
  {
    if m.msgType.ToolResult? {
      var content := compress(if m.toolName.Some? then m.toolName.value else "generic", m.content);
      var removed := if |content| > 200 then Decimal.Digits(|content| - 200) else "";
      if |content| > 200 {
        Decimal.ValueOfDigits(|content| - 200);
        Decimal.DigitsPlain(|content| - 200);
      }
      assert Phase1(compress)(m) == Some(m.(content := CutAt200(content, removed)));
    }
  }

  function CutAt200(content: string, removed: string): string {
    if |content| <= 200 then content else content[..200] + "\n[Truncated — " + removed + " chars removed]"
  }

  /** Truncation is not always a saving: its marker is longer than what it removes
      from a result of 201 to 230 characters. */
  lemma TruncationSavesExactly(content: string)
    ensures |Truncated(content)| <= |content| <==> |content| <= 200 || |content| >= 231
  {
    var removed := |content| - TRUNCATION_LIMIT;
    if removed > 0 {
      Decimal.DigitsLength(removed, 1);
      Decimal.DigitsLength(removed, 2);
      assert Decimal.Pow10(1) == 10 * Decimal.Pow10(0) && Decimal.Pow10(2) == 10 * Decimal.Pow10(1);
      DigitsShort(removed);
    }
  }

  lemma {:induction false} DigitsShort(n: nat)
    ensures |Decimal.Digits(n)| <= 1 + n / 10
  {
    if n >= 10 {
      DigitsShort(n / 10);
    }
  }

  // ---------- the two strategies ----------

  /** The filter of the sliding window: everything before the window goes. */
  function Nothing(): Filter {
    (m: Message) => None
  }

  lemma {:induction false} NothingKept(ms: seq<Message>, n: nat)
    requires n <= |ms|
    ensures Kept(Nothing(), ms, n) == []
  {
    if n > 0 {
      NothingKept(ms, n - 1);
    }
  }

  function SlidingWindow(messages: seq<Message>, keepRecent: i64, trigger: int): (seq<Message>, int) {
    if Tokens(messages) <= trigger then (messages, 0)
    else if |messages| <= 2 then (messages, 1)
    else (Compacted(Nothing(), messages, keepRecent), 1)
  }

  function Tiered(messages: seq<Message>, keepRecent: i64, triggers: (int, int, int),
                  compress: Compressor): (seq<Message>, int) {
    if Tokens(messages) <= triggers.0 then (messages, 0)
    else if |messages| <= 2 then (messages, 1)
    else
      var one := Compacted(Phase1(compress), messages, keepRecent);
      var two := Compacted(Phase2(), one, keepRecent);
      if Tokens(one) <= triggers.1 then (one, 1)
      else if Tokens(two) <= triggers.2 then (two, 2)
      else (Compacted(Phase3(), two, keepRecent), 3)
  }

  method TieredCompact(messages: seq<Message>, keepRecent: i64, triggers: (int, int, int), compress: Compressor)
    returns (result: seq<Message>, phase: int)
    ensures (result, phase) == Tiered(messages, keepRecent, triggers, compress)
    ensures 0 <= phase <= 3 && (phase == 0 <==> Tokens(messages) <= triggers.0)
    ensures phase == 0 || |messages| <= 2 ==> phase <= 1 && result == messages
    // each phase is the first that fits its trigger, and the last is the third
    ensures |messages| > 2 && phase > 0 ==>
      var one := Compacted(Phase1(compress), messages, keepRecent);
      var two := Compacted(Phase2(), one, keepRecent);
      && (phase == 1 <==> Tokens(one) <= triggers.1)
      && (phase == 2 <==> Tokens(one) > triggers.1 && Tokens(two) <= triggers.2)
      && result == if phase == 1 then one else if phase == 2 then two else Compacted(Phase3(), two, keepRecent)
    // what the phase number promises: the phase alone, and a result within its trigger
    ensures |messages| > 2 && phase == 2 ==>
      (result == Compacted(Phase2(), messages, keepRecent) <==> keepRecent != 0 || SecondCollapses(messages[2..]))
    ensures |messages| > 2 && phase == 3 ==>
      (result == Compacted(Phase3(), messages, keepRecent) <==> keepRecent != 0 || ThirdCollapses(messages[2..]))
    ensures |messages| > 2 && phase < 3 ==>
      Tokens(result) <= (if phase == 0 then triggers.0 else if phase == 1 then triggers.1 else triggers.2)
  {
    hide Compacted, Tokens, SecondCollapses, ThirdCollapses;
    var initialTokens := Tokens(messages);
    if initialTokens <= triggers.0 {
      return messages, 0;
    }
    if |messages| <= 2 {
      return messages, if initialTokens > triggers.0 then 1 else 0;
    }
    if keepRecent == 0 {
      ZeroWindowCollapsesExactly(compress, messages);
    } else {
      PhasesCollapse(compress, messages, keepRecent);
    }
    var afterP1 := ApplyPhase(Phase1(compress), messages, keepRecent);
    if Tokens(afterP1) <= triggers.1 {
      return afterP1, 1;
    }
    var afterP2 := ApplyPhase(Phase2(), afterP1, keepRecent);
    if Tokens(afterP2) <= triggers.2 {
      return afterP2, 2;
    }
    result := ApplyPhase(Phase3(), afterP2, keepRecent);
    phase := 3;
  }

  // ---------- calls and their results stay together ----------

  predicate Names(call: Message, id: string) {
    call.toolCalls.Some? && exists k | 0 <= k < |call.toolCalls.value| :: call.toolCalls.value[k].callId == id
  }

  /** Message `i` makes the call `id` that message `j` answers. */
  predicate Answers(ms: seq<Message>, i: int, j: int, id: string) {
    0 <= i < j < |ms| && ms[j].toolCallId == Some(id) && Names(ms[i], id)
  }

  ghost predicate HasCall(ms: seq<Message>, j: int) {
    exists i, id :: Answers(ms, i, j, id)
  }

  ghost predicate HasResult(ms: seq<Message>, i: int, id: string) {
    exists j :: Answers(ms, i, j, id)
  }

  /** Every result has its call before it, and every call has its result after it. */
  ghost predicate Paired(ms: seq<Message>) {
    && (forall j | 0 <= j < |ms| && ms[j].toolCallId.Some? :: HasCall(ms, j))
    && (forall i, id | 0 <= i < |ms| && Names(ms[i], id) :: HasResult(ms, i, id))
  }

  /** A call and its result carry the same step, and steps never go back. */
  ghost predicate Grouped(ms: seq<Message>) {
    && Paired(ms)
    && (forall i, j, id | Answers(ms, i, j, id) :: ms[i].stepIndex.Some? && ms[i].stepIndex == ms[j].stepIndex)
    && (forall i, j | 0 <= i < j < |ms| && Stepped(ms[i]) && Stepped(ms[j]) ::
        ms[i].stepIndex.value <= ms[j].stepIndex.value)
  }

  ghost predicate Typed(ms: seq<Message>) {
    forall m | m in ms ::
      && (m.toolCalls.Some? ==> m.msgType.ToolCall?)
      && (m.toolCallId.Some? ==> m.msgType.ToolResult? || IsNudge(m.msgType))
  }

  lemma GroupNotSplit(rest: seq<Message>, keepRecent: i64, i: int, j: int, id: string)
    requires Grouped(rest) && Answers(rest, i, j, id)
    ensures WindowStart(rest, keepRecent) <= i <==> WindowStart(rest, keepRecent) <= j
  {
    hide SortDedup, StepIndices, Paired, ProtectedSteps, Names;
    var cut := WindowStart(rest, keepRecent);
    if i < cut <= j {
      var s, protected := rest[i].stepIndex.value, ProtectedSteps(rest, keepRecent);
      assert Carries(rest[cut], protected) && !Carries(rest[i], protected);
      assert HasStep(rest, s);
      ProtectedUpward(rest, keepRecent, rest[cut].stepIndex.value, s);
    }
  }

  lemma ProtectedUpward(rest: seq<Message>, keepRecent: i64, p: int, s: int)
    requires p in ProtectedSteps(rest, keepRecent) && HasStep(rest, s) && p <= s
    ensures s in ProtectedSteps(rest, keepRecent)
  {
    StepsAre(rest, s);
    hide SortDedup, StepIndices;
    LastOfUpward(SortDedup(StepIndices(rest, |rest|)), AsUsize(keepRecent), p, s);
  }

  lemma LastOfUpward(xs: seq<int>, k: nat, p: int, s: int)
    requires StrictlySorted(xs) && p in LastOf(xs, k) && s in xs && p <= s
    ensures s in LastOf(xs, k)
  {
    if |xs| > k {
      var from := |xs| - k;
      var a :| 0 <= a < k && xs[from..][a] == p;
      var b :| 0 <= b < |xs| && xs[b] == s;
      assert xs[from + a] == p && b >= from + a;
      assert xs[from..][b - from] == s;
    }
  }

  lemma AnswersShift(rest: seq<Message>, cut: nat, i: int, j: int, id: string)
    requires Answers(rest, i, j, id) && cut <= i
    ensures Answers(rest[cut..], i - cut, j - cut, id)
  {
  }

  /** The window never holds a result without its call, nor a call without its result. */
  lemma WindowStaysPaired(rest: seq<Message>, keepRecent: i64)
    requires Grouped(rest)
    ensures Paired(rest[WindowStart(rest, keepRecent)..])
  {
    hide WindowStart, Names, Grouped, Stepped, Answers, HasCall, HasResult;
    var cut := WindowStart(rest, keepRecent);
    var window := rest[cut..];
    forall j | 0 <= j < |window| && window[j].toolCallId.Some? ensures HasCall(window, j) {
      CallIsInWindow(rest, keepRecent, cut + j);
    }
    forall i, id | 0 <= i < |window| && Names(window[i], id) ensures HasResult(window, i, id) {
      ResultIsInWindow(rest, keepRecent, cut + i, id);
    }
  }

  lemma GroupedIsPaired(rest: seq<Message>, j: nat)
    requires Grouped(rest) && j < |rest| && rest[j].toolCallId.Some?
    ensures HasCall(rest, j)
  {
  }

  lemma CallIsInWindow(rest: seq<Message>, keepRecent: i64, j: nat)
    requires Grouped(rest) && WindowStart(rest, keepRecent) <= j < |rest| && rest[j].toolCallId.Some?
    ensures HasCall(rest[WindowStart(rest, keepRecent)..], j - WindowStart(rest, keepRecent))
  {
    hide WindowStart, Names, Grouped, Paired;
    GroupedIsPaired(rest, j);
    var i, id :| Answers(rest, i, j, id);
    GroupNotSplit(rest, keepRecent, i, j, id);
    AnswersShift(rest, WindowStart(rest, keepRecent), i, j, id);
  }

  lemma ResultIsInWindow(rest: seq<Message>, keepRecent: i64, i: nat, id: string)
    requires Grouped(rest) && WindowStart(rest, keepRecent) <= i < |rest| && Names(rest[i], id)
    ensures HasResult(rest[WindowStart(rest, keepRecent)..], i - WindowStart(rest, keepRecent), id)
  {
    hide WindowStart, Names;
    assert HasResult(rest, i, id);
    var j :| Answers(rest, i, j, id);
    AnswersShift(rest, WindowStart(rest, keepRecent), i, j, id);
  }

  lemma PrependPlain(plain: seq<Message>, tail: seq<Message>)
    requires Paired(tail)
    requires forall m | m in plain :: m.toolCalls.None? && m.toolCallId.None?
    ensures Paired(plain + tail)
  {
    var n, all := |plain|, plain + tail;
    forall j | 0 <= j < |all| && all[j].toolCallId.Some? ensures HasCall(all, j) {
      assert HasCall(tail, j - n);
      var i, id :| Answers(tail, i, j - n, id);
      assert Answers(all, i + n, j, id);
    }
    forall i, id | 0 <= i < |all| && Names(all[i], id) ensures HasResult(all, i, id) {
      assert Names(tail[i - n], id);
      assert HasResult(tail, i - n, id);
      var j :| Answers(tail, i - n, j, id);
      assert Answers(all, i, j + n, id);
    }
  }

  /** Sliding-window compaction, and tiered compaction at phases 2 and 3, keep calls and
      results together on transcripts whose groups share a step. */
  lemma CompactionStaysPaired(messages: seq<Message>, keepRecent: i64, f: Filter)
    requires |messages| >= 2 && Grouped(messages[2..]) && Typed(messages[2..])
    requires forall m :: f(m) == Phase2()(m) || f(m) == Phase3()(m)
    ensures Paired(Compacted(f, messages, keepRecent)[2..])
    ensures Paired(messages[2 + WindowStart(messages[2..], keepRecent)..])
  {
    hide WindowStart, Paired, Kept;
    var rest := messages[2..];
    var cut := WindowStart(rest, keepRecent);
    var kept, window := Kept(f, rest, cut), rest[cut..];
    WindowStaysPaired(rest, keepRecent);
    forall m | m in kept ensures m.toolCalls.None? && m.toolCallId.None? {
      var i :| 0 <= i < |kept| && kept[i] == m;
      KeptOrigin(f, rest, cut, i);
      assert m in rest;
    }
    PrependPlain(kept, window);
    assert Compacted(f, messages, keepRecent)[2..] == kept + window;
    assert messages[2 + cut..] == window;
  }

  method SlidingWindowCompact(messages: seq<Message>, keepRecent: i64, trigger: int)
    returns (result: seq<Message>, phase: int)
    ensures (result, phase) == SlidingWindow(messages, keepRecent, trigger)
    ensures (phase == 0 || phase == 1) && (phase == 0 <==> Tokens(messages) <= trigger)
    ensures phase == 0 || |messages| <= 2 ==> result == messages
    ensures phase == 1 && |messages| > 2 ==>
      exists p: nat | p <= |messages| - 2 ::
          RecentSuffix(messages[2..], keepRecent, p) && result == messages[..2] + messages[2 + p..]
    ensures Tokens(result) <= Tokens(messages)
    ensures |messages| > 2 && Grouped(messages[2..]) ==> |result| >= 2 && Paired(result[2..])
  {
    hide WindowStart, Tokens, Kept, Grouped, Paired, RecentSuffix;
    if |messages| > 2 {
      SlidingWindowKeeps(messages, keepRecent);
    }
    if Tokens(messages) <= trigger {
      GroupedArePaired(messages);
      return messages, 0;
    }
    if |messages| <= 2 {
      return messages, 1;
    }
    var header, rest := messages[..2], messages[2..];
    result, phase := header + rest[WindowStart(rest, keepRecent)..], 1;
  }

  lemma GroupedArePaired(messages: seq<Message>)
    ensures |messages| > 2 && Grouped(messages[2..]) ==> Paired(messages[2..])
  {
  }

  lemma SlidingWindowKeeps(messages: seq<Message>, keepRecent: i64)
    requires |messages| > 2
    ensures var rest := messages[2..];
            var result := messages[..2] + rest[WindowStart(rest, keepRecent)..];
            && result == Compacted(Nothing(), messages, keepRecent)
               == messages[..2] + messages[2 + WindowStart(rest, keepRecent)..]
            && RecentSuffix(rest, keepRecent, WindowStart(rest, keepRecent))
            && Tokens(result) <= Tokens(messages)
            && (Grouped(rest) ==> Paired(result[2..]))
  {
    hide WindowStart, Tokens, Kept, Grouped, Paired;
    var rest := messages[2..];
    var cut := WindowStart(rest, keepRecent);
    NothingKept(rest, cut);
    WindowStartsAtRecentStep(rest, keepRecent);
    DroppingNeverGrows(Nothing(), messages, keepRecent);
    assert messages[2 + cut..] == rest[cut..];
    assert (messages[..2] + rest[cut..])[2..] == rest[cut..];
    if Grouped(rest) {
      WindowStaysPaired(rest, keepRecent);
    }
  }

  ghost predicate Separates(f: Filter, messages: seq<Message>) {
    && |messages| >= 2 && Grouped(messages[2..]) && Typed(messages[2..])
    && !Paired(Compacted(f, messages, 1)[2..])
  }

  lemma PhaseOneOf(compress: Compressor, m: Message)
    ensures IsNudge(m.msgType) ==> Phase1(compress)(m) == None
    ensures m.msgType.ToolCall? ==> Phase1(compress)(m) == Some(m)
  {
  }

  /** Phase 1 does separate them: it drops a rejected call's result and keeps the call. */
  lemma PhaseOneSeparates(compress: Compressor)
    ensures exists messages :: Separates(Phase1(compress), messages)
  {
    hide Separates, Phase1;
    var blank := Message(User, "", UserInput, None, None, None, None);
    var call := Message(Assistant, "", ToolCall, Some(0), None, None, Some([CallInfo("run", "a")]));
    var result := Message(Tool, "", RetryNudge, Some(0), None, Some("a"), None);
    var last := Message(Assistant, "", TextResponse, Some(1), None, None, None);
    PhaseOneOf(compress, call);
    PhaseOneOf(compress, result);
    DropSeparates(Phase1(compress), blank, call, result, last);
    assert Separates(Phase1(compress), [blank, blank, call, result, last]);
  }

  lemma DropSeparates(f: Filter, blank: Message, call: Message, result: Message, last: Message)
    requires f(call) == Some(call) && f(result) == None
    requires call.toolCalls == Some([CallInfo("run", "a")]) && call.toolCallId.None? && call.stepIndex == Some(0)
             && call.msgType.ToolCall?
    requires result.toolCalls.None? && result.toolCallId == Some("a") && result.stepIndex == Some(0)
             && result.msgType.RetryNudge?
    requires last.toolCalls.None? && last.toolCallId.None? && last.stepIndex == Some(1)
    ensures Separates(f, [blank, blank, call, result, last])
  {
    var rest, messages := [call, result, last], [blank, blank, call, result, last];
    assert messages[2..] == rest;
    ExampleGrouped(call, result, last);
    ExampleWindow(call, result, last);
    KeptTwoOfThree(f, call, result, last);
    CallAlone(call, last);
    hide WindowStart, Kept, Grouped, Paired;
    assert messages[..2] == [blank, blank] && rest[2..] == [last];
    assert Compacted(f, messages, 1)[2..] == [call, last];
  }

  lemma KeptTwoOfThree(f: Filter, a: Message, b: Message, c: Message)
    requires f(a) == Some(a) && f(b) == None
    ensures Kept(f, [a, b, c], 2) == [a]
  {
    assert Kept(f, [a, b, c], 1) == Kept(f, [a, b, c], 0) + [a];
  }

  lemma CallAlone(call: Message, last: Message)
    requires call.toolCalls == Some([CallInfo("run", "a")]) && last.toolCallId.None?
    ensures !Paired([call, last])
  {
    assert call.toolCalls.value[0].callId == "a";
    assert Names([call, last][0], "a") && !HasResult([call, last], 0, "a");
  }

  lemma NoCalls(m: Message)
    requires m.toolCalls.None?
    ensures forall id :: !Names(m, id)
  {
  }

  lemma ExampleGrouped(call: Message, result: Message, last: Message)
    requires call.toolCalls == Some([CallInfo("run", "a")]) && call.toolCallId.None? && call.stepIndex == Some(0)
    requires result.toolCalls.None? && result.toolCallId == Some("a") && result.stepIndex == Some(0)
    requires last.toolCalls.None? && last.toolCallId.None? && last.stepIndex == Some(1)
    ensures Grouped([call, result, last])
  {
    var rest := [call, result, last];
    assert call.toolCalls.value[0].callId == "a";
    assert Names(call, "a") && forall id | Names(call, id) :: id == "a";
    hide Names;
    assert rest[0] == call && rest[1] == result && rest[2] == last;
    assert Answers(rest, 0, 1, "a");
    assert HasCall(rest, 1) && HasResult(rest, 0, "a");
    NoCalls(result);
    NoCalls(last);
    assert Paired(rest);
    assert forall i, j, id | Answers(rest, i, j, id) :: i == 0 && j == 1;
  }

  lemma ExampleWindow(a: Message, b: Message, c: Message)
    requires a.stepIndex == b.stepIndex == Some(0) && c.stepIndex == Some(1)
    ensures WindowStart([a, b, c], 1) == 2
  {
    hide WindowStart, StepIndices;
    var rest := [a, b, c];
    WindowStartsAtRecentStep(rest, 1);
    forall t ensures t in StepIndices(rest, 3) <==> t == 0 || t == 1 {
      StepIndicesAre(rest, 3, t);
      assert rest[0].stepIndex == Some(0) && rest[1].stepIndex == Some(0) && rest[2].stepIndex == Some(1);
    }
    assert Later(rest, 0) == {1};
    assert Later(rest, 1) == {};
    assert !Recent(rest, 1, 0) && !Recent(rest, 1, 1) && Recent(rest, 1, 2);
  }

  // ---------- when phase 1 keeps them together ----------

  /** The list a phase leaves after the header. */
  function Left(f: Filter, rest: seq<Message>, cut: nat): seq<Message>
    requires cut <= |rest|
  {
    Kept(f, rest, cut) + rest[cut..]
  }

  predicate Survives(f: Filter, rest: seq<Message>, cut: nat, j: nat)
    requires j < |rest|
  {
    j >= cut || f(rest[j]).Some?
  }

  /** Where a surviving message comes to stand. */
  function PlaceIn(f: Filter, rest: seq<Message>, cut: nat, j: nat): nat
    requires j < |rest| && cut <= |rest|
  {
    if j < cut then |Kept(f, rest, j)| else |Kept(f, rest, cut)| + (j - cut)
  }

  /** A filter that leaves the identifiers of what it keeps alone. */
  ghost predicate KeepsIds(f: Filter) {
    forall m | f(m).Some? :: f(m).value.toolCalls == m.toolCalls && f(m).value.toolCallId == m.toolCallId
  }

  lemma {:induction false} KeptAt(f: Filter, ms: seq<Message>, n: nat, j: nat)
    requires j < n <= |ms|
    ensures |Kept(f, ms, j)| <= |Kept(f, ms, n)|
    ensures f(ms[j]).Some? ==> |Kept(f, ms, j)| < |Kept(f, ms, n)| && Kept(f, ms, n)[|Kept(f, ms, j)|] == f(ms[j]).value
  {
    if j < n - 1 {
      KeptAt(f, ms, n - 1, j);
    }
  }

  lemma {:induction false} KeptFrom(f: Filter, ms: seq<Message>, n: nat, k: nat) returns (j: nat)
    requires n <= |ms| && k < |Kept(f, ms, n)|
    ensures j < n && f(ms[j]) == Some(Kept(f, ms, n)[k]) && |Kept(f, ms, j)| == k
  {
    if k < |Kept(f, ms, n - 1)| {
      j := KeptFrom(f, ms, n - 1, k);
    } else {
      j := n - 1;
    }
  }

  /** A survivor keeps its identifiers, and survivors keep their order. */
  lemma SurvivorStands(f: Filter, rest: seq<Message>, cut: nat, j: nat)
    requires KeepsIds(f) && cut <= |rest| && j < |rest| && Survives(f, rest, cut, j)
    ensures var k := PlaceIn(f, rest, cut, j);
            && k < |Left(f, rest, cut)|
            && Left(f, rest, cut)[k].toolCalls == rest[j].toolCalls
               && Left(f, rest, cut)[k].toolCallId == rest[j].toolCallId
  {
    hide Kept;
    if j < cut {
      KeptAt(f, rest, cut, j);
    }
  }

  lemma SurvivorsInOrder(f: Filter, rest: seq<Message>, cut: nat, i: nat, j: nat)
    requires cut <= |rest| && i < j < |rest| && Survives(f, rest, cut, i)
    ensures PlaceIn(f, rest, cut, i) < PlaceIn(f, rest, cut, j)
  {
    hide Kept;
    if i < cut {
      KeptAt(f, rest, if j < cut then j else cut, i);
    }
  }

  lemma SurvivorOf(f: Filter, rest: seq<Message>, cut: nat, k: nat) returns (j: nat)
    requires KeepsIds(f) && cut <= |rest| && k < |Left(f, rest, cut)|
    ensures j < |rest| && Survives(f, rest, cut, j) && PlaceIn(f, rest, cut, j) == k
    ensures Left(f, rest, cut)[k].toolCalls == rest[j].toolCalls
            && Left(f, rest, cut)[k].toolCallId == rest[j].toolCallId
  {
    hide Kept;
    if k < |Kept(f, rest, cut)| {
      j := KeptFrom(f, rest, cut, k);
    } else {
      j := cut + (k - |Kept(f, rest, cut)|);
    }
  }

  lemma AnswersSurvive(f: Filter, rest: seq<Message>, cut: nat, i: nat, j: nat, id: string)
    requires KeepsIds(f) && cut <= |rest| && Answers(rest, i, j, id)
    requires Survives(f, rest, cut, i) && Survives(f, rest, cut, j)
    ensures Answers(Left(f, rest, cut), PlaceIn(f, rest, cut, i), PlaceIn(f, rest, cut, j), id)
  {
    hide Left, PlaceIn;
    SurvivorStands(f, rest, cut, i);
    SurvivorStands(f, rest, cut, j);
    SurvivorsInOrder(f, rest, cut, i, j);
  }

  /** Every call has an answer that phase 1 leaves: one in the window, or one that is no nudge. */
  ghost predicate AnswersStay(rest: seq<Message>, cut: nat) {
    forall i, id | 0 <= i < |rest| && Names(rest[i], id) :: AnswerStays(rest, cut, i, id)
  }

  ghost predicate AnswerStays(rest: seq<Message>, cut: nat, i: int, id: string) {
    exists j :: Answers(rest, i, j, id) && (j >= cut || !IsNudge(rest[j].msgType))
  }

  lemma PhaseOneKeepsIds(compress: Compressor)
    ensures KeepsIds(Phase1(compress)) && forall m :: Phase1(compress)(m).None? <==> IsNudge(m.msgType)
  {
  }

  /** A call message is never a nudge, so phase 1 keeps it. */
  lemma CallSurvives(f: Filter, rest: seq<Message>, cut: nat, i: nat)
    requires Typed(rest) && i < |rest| && rest[i].toolCalls.Some? && forall m :: f(m).None? <==> IsNudge(m.msgType)
    ensures Survives(f, rest, cut, i)
  {
    assert rest[i] in rest;
  }

  lemma StayingAnswersKeepPairs(f: Filter, rest: seq<Message>, cut: nat)
    requires cut <= |rest| && Paired(rest) && Typed(rest) && AnswersStay(rest, cut)
    requires KeepsIds(f) && forall m :: f(m).None? <==> IsNudge(m.msgType)
    ensures Paired(Left(f, rest, cut))
  {
    hide Left, PlaceIn, Names, Typed, Kept;
    var out := Left(f, rest, cut);
    forall k | 0 <= k < |out| && out[k].toolCallId.Some? ensures HasCall(out, k) {
      var j := SurvivorOf(f, rest, cut, k);
      assert HasCall(rest, j);
      var i, id :| Answers(rest, i, j, id);
      NamesCalls(rest[i], id);
      CallSurvives(f, rest, cut, i);
      AnswersSurvive(f, rest, cut, i, j, id);
    }
    forall k, id | 0 <= k < |out| && Names(out[k], id) ensures HasResult(out, k, id) {
      var i := SurvivorOf(f, rest, cut, k);
      SameNames(out[k], rest[i], id);
      assert AnswerStays(rest, cut, i, id);
      var j :| Answers(rest, i, j, id) && (j >= cut || !IsNudge(rest[j].msgType));
      AnswersSurvive(f, rest, cut, i, j, id);
    }
  }

  lemma NamesCalls(m: Message, id: string)
    requires Names(m, id)
    ensures m.toolCalls.Some?
  {
  }

  lemma SameNames(m: Message, n: Message, id: string)
    requires m.toolCalls == n.toolCalls
    ensures Names(m, id) <==> Names(n, id)
  {
  }

  lemma PairsNeedAnswers(f: Filter, rest: seq<Message>, cut: nat, i: nat, id: string)
    requires cut <= |rest| && Typed(rest) && i < |rest| && Names(rest[i], id)
    requires KeepsIds(f) && forall m :: f(m).None? <==> IsNudge(m.msgType)
    requires Paired(Left(f, rest, cut))
    ensures AnswerStays(rest, cut, i, id)
  {
    hide Left, PlaceIn, Names, Typed, Kept;
    NamesCalls(rest[i], id);
    CallSurvives(f, rest, cut, i);
    SurvivorStands(f, rest, cut, i);
    var k, out := PlaceIn(f, rest, cut, i), Left(f, rest, cut);
    SameNames(out[k], rest[i], id);
    assert HasResult(out, k, id);
    var l: nat :| Answers(out, k, l, id);
    var j := SurvivorOf(f, rest, cut, l);
    if j <= i {
      SurvivorsKeepPlace(f, rest, cut, j, i);
    }
    assert Answers(rest, i, j, id);
  }

  lemma SurvivorsKeepPlace(f: Filter, rest: seq<Message>, cut: nat, j: nat, i: nat)
    requires cut <= |rest| && j <= i < |rest| && Survives(f, rest, cut, j)
    ensures PlaceIn(f, rest, cut, j) <= PlaceIn(f, rest, cut, i)
  {
    hide PlaceIn, Survives;
    if j < i {
      SurvivorsInOrder(f, rest, cut, j, i);
    }
  }

  /** Phase 1 keeps calls and results together exactly when every call has an answer that stays: calls are never nudges,
      so they are all kept, and the results that stay keep theirs. */
  lemma PhaseOneKeepsPairsExactly(compress: Compressor, messages: seq<Message>, keepRecent: i64)
    requires |messages| >= 2 && Paired(messages[2..]) && Typed(messages[2..])
    ensures var out := Compacted(Phase1(compress), messages, keepRecent);
            var rest := messages[2..];
            Paired(out[2..]) <==> AnswersStay(rest, WindowStart(rest, keepRecent))
  {
    hide WindowStart, Paired, Kept, Typed, Names, KeepsIds, IsNudge, AnswerStays;
    var f, rest := Phase1(compress), messages[2..];
    var cut := WindowStart(rest, keepRecent);
    PhaseOneKeepsIds(compress);
    assert Compacted(f, messages, keepRecent)[2..] == Left(f, rest, cut);
    if AnswersStay(rest, cut) {
      StayingAnswersKeepPairs(f, rest, cut);
    }
    if Paired(Left(f, rest, cut)) {
      forall i, id | 0 <= i < |rest| && Names(rest[i], id) ensures AnswerStays(rest, cut, i, id) {
        PairsNeedAnswers(f, rest, cut, i, id);
      }
    }
  }
}
