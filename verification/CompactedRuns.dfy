/** Runs whose context is compacted by the shipped strategies: what keeps calls next to their results. */
module CompactedRuns {
  import opened Wrappers
  import opened Transcript
  import opened Pairing
  import opened Inference
  import C = Compaction
  import Runner
  import Utf8

  // ---------- cutting between groups ----------

  /** A well-paired transcript may be cut before any message that is not a result. */
  lemma CutBetweenGroups(ms: seq<Message>, n: nat)
    requires WellPaired(ms) && n <= |ms| && (n < |ms| ==> !ms[n].role.Tool?)
    ensures WellPaired(ms[..n]) && WellPaired(ms[n..])
  {
    var a, b := ms[..n], ms[n..];
    PendingStaysNone([], ms, n, |ms|);
    if n < |ms| {
      PendingStaysNone([], ms, n + 1, |ms|);
    }
    assert a + b == ms;
    PendingPrefix([], a, b, n);
    PendingConcat([], [], a, b, |b|);
  }

  lemma CutIsRegular(ms: seq<Message>, n: nat)
    requires Regular(ms) && n <= |ms| && (n < |ms| ==> !ms[n].role.Tool?)
    ensures Regular(ms[..n]) && Regular(ms[n..])
  {
    forall i | 0 <= i < n ensures RegularAt(ms[..n], i) {
      assert RegularAt(ms, i);
    }
    forall i | 0 <= i < |ms| - n ensures RegularAt(ms[n..], i) {
      assert RegularAt(ms, n + i);
    }
  }

  /** The window does not begin with a result: that would carry the step of its call, which stands before it. */
  lemma WindowBeginsGroup(ms: seq<Message>, keepRecent: C.i64)
    requires Orderly(ms)
    ensures var p := 2 + C.WindowStart(ms[2..], keepRecent);
            p < |ms| ==> !ms[p].role.Tool?
  {
    hide C.StepIndices, C.ProtectedSteps, WellPaired;
    var rest := ms[2..];
    var cut := C.WindowStart(rest, keepRecent);
    if 0 < cut < |rest| {
      var protected := C.ProtectedSteps(rest, keepRecent);
      assert C.Carries(rest[cut], protected) && !C.Carries(rest[cut - 1], protected);
      assert RegularAt(ms, 2 + cut);
    }
  }

  /** Header and window of an orderly transcript, and the zone between them, are whole groups. */
  lemma ThreeParts(ms: seq<Message>, keepRecent: C.i64)
    requires Orderly(ms)
    ensures var cut := C.WindowStart(ms[2..], keepRecent);
            && Orderly(ms[..2])
            && WellPaired(ms[2..][..cut]) && Regular(ms[2..][..cut])
            && WellPaired(ms[2..][cut..]) && Regular(ms[2..][cut..])
  {
    hide C.WindowStart, WellPaired, Regular;
    var cut := C.WindowStart(ms[2..], keepRecent);
    WindowBeginsGroup(ms, keepRecent);
    CutBetweenGroups(ms, 2);
    CutIsRegular(ms, 2);
    CutBetweenGroups(ms[2..], cut);
    CutIsRegular(ms[2..], cut);
  }

  /** If whole groups are left of the zone before the window, the compacted transcript is orderly. */
  lemma LeftoversFit(f: C.Filter, ms: seq<Message>, keepRecent: C.i64)
    requires |ms| >= 2 && Orderly(ms)
    requires var kept := C.Kept(f, ms[2..], C.WindowStart(ms[2..], keepRecent)); WellPaired(kept) && Regular(kept)
    ensures Orderly(C.Compacted(f, ms, keepRecent))
  {
    hide C.WindowStart, C.Kept, WellPaired, Regular, Orderly;
    var rest := ms[2..];
    var cut := C.WindowStart(rest, keepRecent);
    ThreeParts(ms, keepRecent);
    OrderlyExtended(ms[..2], C.Kept(f, rest, cut));
    OrderlyExtended(ms[..2] + C.Kept(f, rest, cut), rest[cut..]);
  }

  // ---------- the sliding window, and phases 2 and 3 ----------

  /** A filter that drops or passes on, and drops everything to do with tools. */
  ghost predicate DropsTools(f: C.Filter) {
    C.OnlyDrops(f) && forall m | f(m).Some? :: !IsNudge(m.msgType) && !C.OfTools(m)
  }

  lemma ShippedFiltersDropTools()
    ensures DropsTools(C.Nothing()) && DropsTools(C.Phase2()) && DropsTools(C.Phase3())
  {
  }

  /** Dropping all calls and results before the window, and only there, keeps a transcript orderly, wherever its steps
      go. */
  lemma DroppingKeepsOrder(f: C.Filter, ms: seq<Message>, keepRecent: C.i64)
    requires Orderly(ms) && DropsTools(f)
    ensures Orderly(C.Compacted(f, ms, keepRecent))
  {
    hide C.WindowStart, C.Kept, WellPaired, Regular;
    var rest := ms[2..];
    var cut := C.WindowStart(rest, keepRecent);
    var kept := C.Kept(f, rest, cut);
    forall i | 0 <= i < |kept| ensures Plain(kept[i]) {
      C.KeptOrigin(f, rest, cut, i);
      var j :| 0 <= j < cut && f(rest[j]) == Some(kept[i]);
      RegularIsTyped(ms, 2 + j);
    }
    PlainIsPaired(kept, |kept|);
    PlainIsRegular(kept);
    assert WellPaired(kept) by { PairedIsPending(kept); }
    LeftoversFit(f, ms, keepRecent);
  }

  lemma RegularIsTyped(ms: seq<Message>, i: nat)
    requires Regular(ms) && i < |ms|
    ensures !IsNudge(ms[i].msgType) && !C.OfTools(ms[i]) ==> Plain(ms[i])
  {
    assert RegularAt(ms, i);
  }

  lemma PairedIsPending(ms: seq<Message>)
    ensures WellPaired(ms) <==> Pending([], ms, |ms|) == Some([])
  {
  }

  // ---------- phase 1 ----------

  lemma NoNudgeAnswersNext(rest: seq<Message>, n: nat)
    requires n < |rest|
    ensures NoNudgeAnswers(rest, 0)
    ensures NoNudgeAnswers(rest, n + 1)
            <==> NoNudgeAnswers(rest, n) && (rest[n].role.Tool? ==> !IsNudge(rest[n].msgType))
  {
  }

  /** Calls less results, in the first `n` messages. */
  function Balance(ms: seq<Message>, n: nat): int
    requires n <= |ms|
  {
    if n == 0 then 0 else Balance(ms, n - 1) + Weight(ms[n - 1])
  }

  function Weight(m: Message): int {
    if m.toolCalls.Some? then |m.toolCalls.value| else if m.role.Tool? then -1 else 0
  }

  lemma {:induction false} PendingIsBalance(ms: seq<Message>, n: nat)
    requires n <= |ms| && Pending([], ms, n).Some?
    ensures |Pending([], ms, n).value| == Balance(ms, n)
  {
    if n > 0 {
      PendingIsBalance(ms, n - 1);
    }
  }

  lemma {:induction false} BalanceConcat(a: seq<Message>, b: seq<Message>, n: nat)
    requires n <= |b|
    ensures Balance(a + b, |a| + n) == Balance(a, |a|) + Balance(b, n)
  {
    if n == 0 {
      BalancePrefix(a, b, |a|);
    } else {
      BalanceConcat(a, b, n - 1);
    }
  }

  lemma {:induction false} BalancePrefix(a: seq<Message>, b: seq<Message>, n: nat)
    requires n <= |a|
    ensures Balance(a + b, n) == Balance(a, n)
  {
    if n > 0 {
      BalancePrefix(a, b, n - 1);
    }
  }

  /** What phase 1 does to one message, seen from the pairing: nudges go, the rest keeps all but its content. */
  ghost predicate DropsNudges(f: C.Filter) {
    && (forall m :: f(m).None? <==> IsNudge(m.msgType))
    && (forall m | f(m).Some? :: f(m).value == m.(content := f(m).value.content))
  }

  lemma PhaseOneDropsNudges(compress: C.Compressor)
    ensures DropsNudges(C.Phase1(compress))
  {
  }

  lemma BalanceMore(ms: seq<Message>, m: Message)
    ensures Balance(ms + [m], |ms| + 1) == Balance(ms, |ms|) + Weight(m)
  {
    BalancePrefix(ms, [m], |ms|);
  }

  /** A dropped nudge is no call message; dropping it changes the balance exactly when it is a result. */
  lemma DroppedWeight(f: C.Filter, ms: seq<Message>, i: nat)
    requires i < |ms| && DropsNudges(f) && RegularAt(ms, i)
    ensures f(ms[i]).None? <==> IsNudge(ms[i].msgType)
    ensures if f(ms[i]).None? then Weight(ms[i]) == if ms[i].role.Tool? then -1 else 0
            else Weight(f(ms[i]).value) == Weight(ms[i])
  {
  }

  /** Dropping nudges unbalances a transcript exactly when one of them was a result. */
  lemma {:induction false} KeptBalance(f: C.Filter, ms: seq<Message>, n: nat)
    requires n <= |ms| && DropsNudges(f) && Regular(ms)
    ensures var kept := C.Kept(f, ms, n);
            && Balance(kept, |kept|) >= Balance(ms, n)
            && (Balance(kept, |kept|) == Balance(ms, n) <==> NoNudgeAnswers(ms, n))
  {
    hide Weight, Regular, RegularAt, IsNudge, DropsNudges, NoNudgeAnswers;
    if n == 0 {
      NothingBefore(ms);
    } else {
      KeptBalance(f, ms, n - 1);
      RegularHere(ms, n - 1);
      NoNudgeAnswersNext(ms, n - 1);
      DroppedWeight(f, ms, n - 1);
      if f(ms[n - 1]).Some? {
        BalanceMore(C.Kept(f, ms, n - 1), f(ms[n - 1]).value);
      }
    }
  }

  /** A message that stays asks for the same results; a nudge that is no result asks for none. */
  lemma KeptExpects(f: C.Filter, ms: seq<Message>, i: nat, p: seq<string>)
    requires i < |ms| && DropsNudges(f) && RegularAt(ms, i) && Expect(p, ms[i]).Some?
    ensures f(ms[i]).Some? ==> Expect(p, f(ms[i]).value) == Expect(p, ms[i])
    ensures f(ms[i]).None? ==> IsNudge(ms[i].msgType) && (!ms[i].role.Tool? ==> Expect(p, ms[i]) == Some(p))
  {
  }

  /** With no result among the nudges, what is kept awaits the same results at every point. */
  lemma {:induction false} KeptAwaitsTheSame(f: C.Filter, ms: seq<Message>, n: nat)
    requires n <= |ms| && DropsNudges(f) && Regular(ms) && NoNudgeAnswers(ms, n) && Pending([], ms, n).Some?
    ensures var kept := C.Kept(f, ms, n); Pending([], kept, |kept|) == Pending([], ms, n)
  {
    hide Expect, Regular, RegularAt, IsNudge, DropsNudges, NoNudgeAnswers;
    if n > 0 {
      NoNudgeAnswersNext(ms, n - 1);
      RegularHere(ms, n - 1);
      KeptAwaitsTheSame(f, ms, n - 1);
      var kept, m := C.Kept(f, ms, n - 1), ms[n - 1];
      KeptExpects(f, ms, n - 1, Pending([], ms, n - 1).value);
      if f(m).Some? {
        PendingPrefix([], kept, [f(m).value], |kept|);
        assert (kept + [f(m).value])[|kept|] == f(m).value;
      }
    }
  }

  /** The last message kept has the step of message `i`, if that was kept. */
  predicate EndsInStep(kept: seq<Message>, ms: seq<Message>, i: int)
    requires i < |ms|
  {
    i >= 0 && !IsNudge(ms[i].msgType) ==> kept != [] && kept[|kept| - 1].stepIndex == ms[i].stepIndex
  }

  lemma KeptNext(f: C.Filter, ms: seq<Message>, i: nat, kept: seq<Message>)
    requires i < |ms| && DropsNudges(f) && RegularAt(ms, i) && Regular(kept) && EndsInStep(kept, ms, i - 1)
    requires ms[i].role.Tool? ==> i > 0 && !IsNudge(ms[i - 1].msgType)
    ensures f(ms[i]).Some? ==> Regular(kept + [f(ms[i]).value]) && EndsInStep(kept + [f(ms[i]).value], ms, i)
    ensures f(ms[i]).None? ==> EndsInStep(kept, ms, i)
  {
    hide Regular;
    if f(ms[i]).Some? {
      RegularMore(kept, f(ms[i]).value);
    }
  }

  /** A result that is no nudge follows a message that is none. */
  lemma FollowsNoNudge(ms: seq<Message>, i: nat)
    requires i < |ms| && Regular(ms) && Pending([], ms, i + 1).Some? && NoNudgeAnswers(ms, i)
    ensures ms[i].role.Tool? ==> i > 0 && !IsNudge(ms[i - 1].msgType)
  {
    if ms[i].role.Tool? {
      AnswerFollows(ms, i);
    }
  }

  lemma {:induction false} KeptIsRegular(f: C.Filter, ms: seq<Message>, n: nat)
    requires n <= |ms| && DropsNudges(f) && Regular(ms) && NoNudgeAnswers(ms, n) && Pending([], ms, n).Some?
    ensures Regular(C.Kept(f, ms, n)) && EndsInStep(C.Kept(f, ms, n), ms, n - 1)
  {
    hide Regular, RegularAt, EndsInStep, DropsNudges, Expect;
    if n == 0 {
      RegularNothing(ms);
    } else {
      KeptIsRegular(f, ms, n - 1);
      RegularHere(ms, n - 1);
      FollowsNoNudge(ms, n - 1);
      KeptNext(f, ms, n - 1, C.Kept(f, ms, n - 1));
    }
  }

  lemma RegularNothing(ms: seq<Message>)
    ensures Regular([]) && EndsInStep([], ms, -1)
  {
  }

  lemma RegularHere(ms: seq<Message>, i: nat)
    requires Regular(ms) && i < |ms|
    ensures RegularAt(ms, i)
  {
  }

  lemma RegularMore(kept: seq<Message>, k: Message)
    requires Regular(kept) && (k.toolCalls.Some? ==> k.msgType.ToolCall?)
    requires k.role.Tool? ==>
      (k.msgType.ToolResult? || IsNudge(k.msgType)) && kept != [] && k.stepIndex == kept[|kept| - 1].stepIndex
    ensures Regular(kept + [k])
  {
    forall i | 0 <= i < |kept| + 1 ensures RegularAt(kept + [k], i) {
      assert i < |kept| ==> RegularAt(kept, i);
    }
  }

  /** A result follows a call message or another result. */
  lemma AnswerFollows(ms: seq<Message>, i: nat)
    requires i < |ms| && Regular(ms) && Pending([], ms, i + 1).Some? && ms[i].role.Tool?
    ensures i > 0 && (ms[i - 1].role.Tool? || ms[i - 1].msgType.ToolCall?)
  {
    assert RegularAt(ms, i) && RegularAt(ms, i - 1);
  }

  /** Phase 1 keeps a transcript orderly exactly when no result before the window is a nudge. */
  lemma PhaseOneKeepsOrderExactly(compress: C.Compressor, ms: seq<Message>, keepRecent: C.i64)
    requires Orderly(ms)
    ensures Orderly(C.Compacted(C.Phase1(compress), ms, keepRecent))
            <==> NoNudgeAnswers(ms[2..], C.WindowStart(ms[2..], keepRecent))
  {
    var f := C.Phase1(compress);
    PhaseOneDropsNudges(compress);
    hide C.WindowStart, C.Kept, C.Phase1, WellPaired, Regular, NoNudgeAnswers, DropsNudges, Balance, Pending;
    var rest := ms[2..];
    var cut := C.WindowStart(rest, keepRecent);
    var kept := C.Kept(f, rest, cut);
    ThreeParts(ms, keepRecent);
    assert Regular(rest) by { CutIsRegular(ms, 2); }
    ZoneIsPaired(rest, cut);
    if NoNudgeAnswers(rest, cut) {
      KeptAwaitsTheSame(f, rest, cut);
      KeptIsRegular(f, rest, cut);
      PairedIsPending(kept);
      LeftoversFit(f, ms, keepRecent);
    }
    if Orderly(C.Compacted(f, ms, keepRecent)) {
      LeftoversBalance(ms[..2], kept, rest[cut..]);
      PendingIsBalance(rest, cut);
      KeptBalance(f, rest, cut);
    }
  }

  lemma LeftoversBalance(a: seq<Message>, kept: seq<Message>, b: seq<Message>)
    requires WellPaired(a) && WellPaired(b) && WellPaired(a + kept + b)
    ensures Balance(kept, |kept|) == 0
  {
    hide WellPaired, Balance;
    PairedIsBalanced(a);
    PairedIsBalanced(b);
    PairedIsBalanced(a + kept + b);
    BalanceConcat(a, kept, |kept|);
    BalanceConcat(a + kept, b, |b|);
  }

  lemma PairedIsBalanced(ms: seq<Message>)
    requires WellPaired(ms)
    ensures Balance(ms, |ms|) == 0
  {
    PendingIsBalance(ms, |ms|);
  }

  lemma ZoneIsPaired(rest: seq<Message>, cut: nat)
    requires cut <= |rest| && WellPaired(rest[..cut])
    ensures Pending([], rest, cut) == Some([])
  {
    assert rest[..cut] + rest[cut..] == rest;
    PendingPrefix([], rest[..cut], rest[cut..], cut);
  }

  // ---------- when a well-paired transcript is torn ----------

  lemma PendingNext(p: seq<string>, m: Message, w: seq<Message>, n: nat)
    requires n <= |w| && Expect(p, m).Some?
    ensures Pending(p, [m] + w, n + 1) == Pending(Expect(p, m).value, w, n)
  {
    assert Pending(p, [m], 0) == Some(p);
    assert Pending(p, [m], 1) == Expect(p, m);
    hide Expect;
    PendingConcat(p, Expect(p, m).value, [m], w, n);
  }

  lemma PendingNever(p: seq<string>, m: Message, w: seq<Message>, n: nat)
    requires n <= |w| && Expect(p, m).None?
    ensures Pending(p, [m] + w, n + 1).None?
  {
    assert Pending(p, [m] + w, 0) == Some(p) && ([m] + w)[0] == m;
    assert Pending(p, [m] + w, 1) == Expect(p, m);
    hide Expect;
    PendingStaysNone(p, [m] + w, 1, n + 1);
  }

  /** What must be awaited for a text to answer it all is fixed by the text: pairing is deterministic backwards too. */
  lemma {:induction false} AwaitedIsFixed(p: seq<string>, q: seq<string>, w: seq<Message>)
    requires Pending(p, w, |w|) == Some([]) && Pending(q, w, |w|) == Some([])
    ensures p == q
    decreases |w|
  {
    if w != [] {
      var m, rest := w[0], w[1..];
      assert w == [m] + rest;
      if Expect(p, m).None? {
        PendingNever(p, m, rest, |rest|);
      }
      if Expect(q, m).None? {
        PendingNever(q, m, rest, |rest|);
      }
      PendingNext(p, m, rest, |rest|);
      PendingNext(q, m, rest, |rest|);
      AwaitedIsFixed(Expect(p, m).value, Expect(q, m).value, rest);
      SameBefore(p, q, m);
    }
  }

  lemma SameBefore(p: seq<string>, q: seq<string>, m: Message)
    requires Expect(p, m).Some? && Expect(p, m) == Expect(q, m)
    ensures p == q
  {
    if m.toolCalls.None? && m.role.Tool? {
      assert p == [p[0]] + p[1..] && q == [q[0]] + q[1..];
    }
  }

  lemma {:induction false} PlainNeedsNothing(p: seq<string>, ms: seq<Message>, n: nat)
    requires n <= |ms| && AllPlain(ms)
    ensures Pending(p, ms, n) == if n == 0 then Some(p) else if p == [] then Some([]) else None
  {
    if n > 0 {
      PlainNeedsNothing(p, ms, n - 1);
    }
  }

  /** What is awaited after the first `n` messages of a well-paired transcript. */
  function Awaited(ms: seq<Message>, n: nat): seq<string>
    requires n <= |ms|
  {
    match Pending([], ms, n)
    case Some(p) => p
    case None => []
  }

  lemma AwaitedIs(ms: seq<Message>, n: nat)
    requires WellPaired(ms) && n <= |ms|
    ensures Pending([], ms, n) == Some(Awaited(ms, n))
    ensures Pending([], ms[..n], n) == Some(Awaited(ms, n))
    ensures Pending(Awaited(ms, n), ms[n..], |ms| - n) == Some([])
  {
    hide Expect;
    PendingStaysNone([], ms, n, |ms|);
    assert ms[..n] + ms[n..] == ms;
    PendingPrefix([], ms[..n], ms[n..], n);
    PendingConcat([], Awaited(ms, n), ms[..n], ms[n..], |ms| - n);
  }

  lemma FrontAwaits(before: seq<Message>, a: seq<string>, kept: seq<Message>)
    requires Pending([], before, |before|) == Some(a) && AllPlain(kept)
    ensures var front := before + kept;
            Pending([], front, |front|) == if kept == [] || a == [] then Some(a) else None
  {
    PlainNeedsNothing(a, kept, |kept|);
    PendingConcat([], a, before, kept, |kept|);
  }

  lemma WindowFits(front: seq<Message>, a: Option<seq<string>>, window: seq<Message>, b: seq<string>)
    requires Pending([], front, |front|) == a && Pending(b, window, |window|) == Some([])
    ensures WellPaired(front + window) <==> a == Some(b)
  {
    hide Expect;
    PairedIsPending(front + window);
    hide WellPaired;
    match a
    case Some(p) =>
      PendingConcat([], p, front, window, |window|);
      if Pending(p, window, |window|) == Some([]) {
        AwaitedIsFixed(p, b, window);
      }
    case None =>
      PendingPrefix([], front, window, |front|);
      PendingStaysNone([], front + window, |front|, |front + window|);
  }

  /** Where only plain messages are kept between header and window, the transcript stays well paired exactly when the
      header leaves as much awaited as the window expects, and nothing if a message stands between. */
  lemma CutStaysPairedExactly(ms: seq<Message>, h: nat, p: nat, kept: seq<Message>)
    requires WellPaired(ms) && h <= p <= |ms| && AllPlain(kept)
    ensures WellPaired(ms[..h] + kept + ms[p..])
            <==> Awaited(ms, h) == Awaited(ms, p) && (kept == [] || Awaited(ms, h) == [])
  {
    hide WellPaired, Pending, Awaited, AllPlain;
    AwaitedIs(ms, h);
    AwaitedIs(ms, p);
    var front, a := ms[..h] + kept, Awaited(ms, h);
    FrontAwaits(ms[..h], a, kept);
    WindowFits(front, Pending([], front, |front|), ms[p..], Awaited(ms, p));
  }

  predicate IsResult(m: Message) {
    m.role.Tool? && m.toolCalls.None?
  }

  lemma ResultIsAwaited(ms: seq<Message>, n: nat)
    requires WellPaired(ms) && n <= |ms|
    ensures Awaited(ms, n) == [] <==> (n < |ms| ==> !IsResult(ms[n]))
  {
    AwaitedIs(ms, n);
    if n < |ms| {
      AwaitedIs(ms, n + 1);
    }
  }

  /** A well-paired transcript survives the sliding window exactly when the header ends and the window begins at the
      same point of a group; so, with a header of whole groups, exactly when the window does not begin with a result.
      The window begins where the suffix of the recent steps does. */
  lemma SlidingWindowTearsExactly(ms: seq<Message>, keepRecent: C.i64, p: nat)
    requires WellPaired(ms) && 2 <= p <= |ms| && C.RecentSuffix(ms[2..], keepRecent, p - 2)
    ensures WellPaired(C.Compacted(C.Nothing(), ms, keepRecent)) <==> Awaited(ms, 2) == Awaited(ms, p)
    ensures WellPaired(ms[..2]) ==>
              (WellPaired(C.Compacted(C.Nothing(), ms, keepRecent)) <==> (p < |ms| ==> !IsResult(ms[p])))
  {
    C.RecentSuffixIsWindow(ms[2..], keepRecent, p - 2);
    C.NothingKept(ms[2..], p - 2);
    hide C.WindowStart, C.Kept, C.RecentSuffix, WellPaired, Awaited, IsResult;
    assert ms[2..][p - 2..] == ms[p..] && ms[..2] + [] == ms[..2];
    CutStaysPairedExactly(ms, 2, p, []);
    ResultIsAwaited(ms, p);
    AwaitedIs(ms, 2);
    PairedIsPending(ms[..2]);
  }

  /** The types of the messages say which are calls and which are results. */
  predicate Typed(ms: seq<Message>) {
    forall i | 0 <= i < |ms| ::
      (ms[i].toolCalls.Some? ==> ms[i].msgType.ToolCall?)
      && (ms[i].role.Tool? ==> ms[i].msgType.ToolResult? || IsNudge(ms[i].msgType))
  }

  /** Phases 2 and 3 tear it exactly where the sliding window does, or where they leave a message in an unfinished
      group. */
  lemma LaterPhasesTearExactly(f: C.Filter, ms: seq<Message>, keepRecent: C.i64, p: nat)
    requires WellPaired(ms) && 2 <= p <= |ms| && C.RecentSuffix(ms[2..], keepRecent, p - 2)
    requires DropsTools(f) && Typed(ms)
    ensures WellPaired(C.Compacted(f, ms, keepRecent))
            <==> Awaited(ms, 2) == Awaited(ms, p) && (Awaited(ms, 2) == [] || C.Kept(f, ms[2..], p - 2) == [])
  {
    C.RecentSuffixIsWindow(ms[2..], keepRecent, p - 2);
    hide C.WindowStart, C.Kept, C.RecentSuffix, WellPaired, Awaited;
    var kept := C.Kept(f, ms[2..], p - 2);
    forall i | 0 <= i < |kept| ensures Plain(kept[i]) {
      C.KeptOrigin(f, ms[2..], p - 2, i);
      var j :| 0 <= j < p - 2 && f(ms[2..][j]) == Some(kept[i]);
      assert kept[i] == ms[2 + j];
    }
    assert ms[2..][p - 2..] == ms[p..];
    CutStaysPairedExactly(ms, 2, p, kept);
  }

  ghost predicate Torn(ms: seq<Message>) {
    |ms| >= 2 && WellPaired(ms) && !WellPaired(C.Compacted(C.Nothing(), ms, 1))
  }

  lemma LoneResult(user: Message, result: Message)
    requires Plain(user) && IsResult(result)
    ensures !WellPaired([user, user, result])
  {
    var cut := [user, user, result];
    assert Balance(cut, 0) == Balance(cut, 1) == Balance(cut, 2) == 0;
    hide WellPaired;
    if WellPaired(cut) {
      PairedIsBalanced(cut);
    }
  }

  /** Where a result carries a later step than its call, the sliding window can keep the result alone. */
  lemma SlidingWindowTears()
    ensures exists ms :: Torn(ms)
  {
    var user := Message(User, "", UserInput, None, None, None, None);
    var spoken := TextMessage("", 0);
    var infos := [CallInfo("run", "a")];
    var call, result := CallMessage(infos, 0), ResultMessage(infos[0], "", ToolResult, 1);
    var front, rest := [user, user, spoken], [spoken, call, result];
    var ms := front + [call] + [result];
    GroupIsPaired(front, call, [result]);
    C.ExampleWindow(spoken, call, result);
    C.NothingKept(rest, 2);
    assert ms[2..] == rest && ms[..2] == [user, user] && rest[2..] == [result];
    hide C.WindowStart, C.Kept, WellPaired;
    var cut := C.Compacted(C.Nothing(), ms, 1);
    assert cut == [user, user, result];
    LoneResult(user, result);
    assert Torn(ms);
  }

  // ---------- the tiered strategy ----------

  /** Some step is left when the nudges are gone. */
  ghost predicate SeesSteps(rest: seq<Message>) {
    exists m | m in rest :: C.Stepped(m) && !IsNudge(m.msgType)
  }

  lemma NothingBefore(rest: seq<Message>)
    ensures NoNudgeAnswers(rest, 0)
  {
  }

  /** Phase 2 after phase 1 is orderly whenever it sees the steps; otherwise it and phase 3 change nothing. */
  lemma PhaseTwoAfterOne(compress: C.Compressor, ms: seq<Message>, keepRecent: C.i64)
    requires |ms| >= 2 && Orderly(ms)
    ensures var rest := ms[2..];
            var one := C.Compacted(C.Phase1(compress), ms, keepRecent);
            var two := C.Compacted(C.Phase2(), one, keepRecent);
            var three := C.Compacted(C.Phase3(), two, keepRecent);
            if keepRecent != 0 || SeesSteps(rest) then Orderly(two)
            else two == one && three == one
  {
    hide C.Compacted, Orderly, WellPaired, Regular;
    var rest := ms[2..];
    assert DropsTools(C.Phase2()) by { ShippedFiltersDropTools(); }
    DroppingKeepsOrder(C.Phase2(), ms, keepRecent);
    if keepRecent != 0 {
      C.PhasesCollapse(compress, ms, keepRecent);
    } else {
      C.ZeroWindowCollapsesExactly(compress, ms);
      C.PhasesDrop(compress);
      hide C.Phase1, C.Phase2, C.Phase3, C.Then;
      C.ZeroChain(C.Phase1(compress), C.Phase2(), C.Phase2(), ms);
      C.ZeroChain(C.Phase1(compress), C.Phase3(), C.Phase3(), ms);
    }
  }

  /** What phases 2 and 3 make of phase 1. */
  lemma LaterPhasesKeepOrderExactly(compress: C.Compressor, ms: seq<Message>, keepRecent: C.i64)
    requires |ms| >= 2 && Orderly(ms)
    ensures var one := C.Compacted(C.Phase1(compress), ms, keepRecent);
            var two := C.Compacted(C.Phase2(), one, keepRecent);
            var three := C.Compacted(C.Phase3(), two, keepRecent);
            (Orderly(two) <==> Orderly(one) || keepRecent != 0 || SeesSteps(ms[2..]))
                && (Orderly(three) <==> Orderly(two))
  {
    hide *;
    var one := C.Compacted(C.Phase1(compress), ms, keepRecent);
    var two := C.Compacted(C.Phase2(), one, keepRecent);
    PhaseTwoAfterOne(compress, ms, keepRecent);
    ShippedFiltersDropTools();
    if Orderly(one) {
      DroppingKeepsOrder(C.Phase2(), one, keepRecent);
    }
    if Orderly(two) {
      DroppingKeepsOrder(C.Phase3(), two, keepRecent);
    }
  }

  lemma TieredPhases(ms: seq<Message>, keepRecent: C.i64, triggers: (int, int, int), compress: C.Compressor)
    requires |ms| >= 2
    ensures var (result, phase) := C.Tiered(ms, keepRecent, triggers, compress);
            var one := C.Compacted(C.Phase1(compress), ms, keepRecent);
            var two := C.Compacted(C.Phase2(), one, keepRecent);
            && (phase == 0 <==> C.Tokens(ms) <= triggers.0)
            && (phase >= 2 <==> |ms| > 2 && C.Tokens(ms) > triggers.0 && C.Tokens(one) > triggers.1)
            && if phase == 0 || |ms| == 2 then result == ms && phase <= 1
               else if phase == 1 then result == one
               else if phase == 2 then result == two
               else phase == 3 && result == C.Compacted(C.Phase3(), two, keepRecent)
  {
    hide C.Compacted, C.Phase1, C.Phase2, C.Phase3, C.Tokens;
  }

  /** The transcript is within the first trigger, or no result before the window is a nudge, or phase 1 leaves it
      beyond the second trigger and phase 2 still sees the steps. */
  ghost predicate Spared(ms: seq<Message>, keepRecent: C.i64, triggers: (int, int, int), compress: C.Compressor) {
    && |ms| >= 2
    && var rest := ms[2..];
       || C.Tokens(ms) <= triggers.0
       || NoNudgeAnswers(rest, C.WindowStart(rest, keepRecent))
       || (C.Tokens(C.Compacted(C.Phase1(compress), ms, keepRecent)) > triggers.1
           && (keepRecent != 0 || SeesSteps(rest)))
  }

  /** Tiered compaction keeps a transcript orderly exactly when it is within the first trigger, or no result before the
      window is a nudge, or phase 1 leaves it beyond the second trigger and phase 2 still sees the steps. */
  lemma TieredKeepsOrderExactly(ms: seq<Message>, keepRecent: C.i64, triggers: (int, int, int), compress: C.Compressor)
    requires |ms| >= 2 && Orderly(ms)
    ensures Orderly(C.Tiered(ms, keepRecent, triggers, compress).0) <==> Spared(ms, keepRecent, triggers, compress)
  {
    hide Orderly, NoNudgeAnswers, SeesSteps, C.Tiered, C.Tokens, C.Compacted, C.Phase1, C.Phase2, C.Phase3,
         C.WindowStart;
    var rest := ms[2..];
    PhaseOneKeepsOrderExactly(compress, ms, keepRecent);
    LaterPhasesKeepOrderExactly(compress, ms, keepRecent);
    TieredPhases(ms, keepRecent, triggers, compress);
    if |ms| == 2 {
      NothingBefore(rest);
      assert C.WindowStart(rest, keepRecent) == 0;
    }
  }

  // ---------- identifiers ----------

  /** Compaction invents no call and doubles none. */
  ghost predicate FewerCalls(ms: seq<Message>, ms': seq<Message>) {
    NoNewCalls(ms, ms') && (UniqueCalls(ms) ==> UniqueCalls(ms'))
  }

  lemma {:induction false} KeptCalls(f: C.Filter, ms: seq<Message>, n: nat)
    requires n <= |ms| && C.KeepsIds(f)
    ensures var kept := C.Kept(f, ms, n);
            && (forall id | id in CallIds(kept, |kept|) :: id in CallIds(ms, n))
            && (Distinct(CallIds(ms, n)) ==> Distinct(CallIds(kept, |kept|)))
  {
    hide IdsOf, Distinct;
    if n > 0 {
      KeptCalls(f, ms, n - 1);
      var kept, m := C.Kept(f, ms, n - 1), ms[n - 1];
      var own := if m.toolCalls.Some? then IdsOf(m.toolCalls.value) else [];
      DistinctParts(CallIds(ms, n - 1), own);
      if f(m).Some? {
        CallIdsPrefix(kept, [f(m).value], |kept|);
        if Distinct(CallIds(ms, n)) {
          DistinctExactly(CallIds(ms, n - 1), own);
          DistinctExactly(CallIds(kept, |kept|), own);
        }
      }
    }
  }

  lemma DistinctMiddle(x: seq<string>, y: seq<string>, y': seq<string>, z: seq<string>)
    requires Distinct(x + y + z) && (Distinct(y) ==> Distinct(y')) && forall id | id in y' :: id in y
    ensures Distinct(x + y' + z)
  {
    hide Distinct;
    DistinctParts(x + y, z);
    DistinctParts(x, y);
    DistinctExactly(x, y);
    DistinctExactly(x, y');
    DistinctExactly(x + y, z);
    DistinctExactly(x + y', z);
  }

  /** Whatever a phase drops, the calls it leaves are calls of the transcript, none twice that was there once. */
  lemma CompactedKeepsCalls(f: C.Filter, ms: seq<Message>, keepRecent: C.i64)
    requires |ms| >= 2 && C.KeepsIds(f)
    ensures FewerCalls(ms, C.Compacted(f, ms, keepRecent))
  {
    hide C.WindowStart, C.Kept, CallIds, Distinct;
    var rest := ms[2..];
    var cut := C.WindowStart(rest, keepRecent);
    var header, zone, window, kept := ms[..2], rest[..cut], rest[cut..], C.Kept(f, rest, cut);
    assert ms == header + zone + window && rest == zone + window;
    KeptCalls(f, rest, cut);
    CallIdsPrefix(zone, window, cut);
    CallIdsConcat(header, zone, |zone|);
    CallIdsConcat(header + zone, window, |window|);
    CallIdsConcat(header, kept, |kept|);
    CallIdsConcat(header + kept, window, |window|);
    if UniqueCalls(ms) {
      DistinctMiddle(CallIds(header, 2), CallIds(zone, |zone|), CallIds(kept, |kept|), CallIds(window, |window|));
    }
  }

  lemma ShippedFiltersKeepIds(compress: C.Compressor)
    ensures C.KeepsIds(C.Nothing()) && C.KeepsIds(C.Phase1(compress)) && C.KeepsIds(C.Phase2())
            && C.KeepsIds(C.Phase3())
  {
  }

  lemma SlidingWindowKeepsCalls(ms: seq<Message>, keepRecent: C.i64, trigger: int)
    ensures FewerCalls(ms, C.SlidingWindow(ms, keepRecent, trigger).0)
  {
    hide C.Compacted, C.Tokens, CallIds, UniqueCalls;
    ShippedFiltersKeepIds((name, content) => content);
    if |ms| > 2 {
      CompactedKeepsCalls(C.Nothing(), ms, keepRecent);
    }
  }

  lemma TieredKeepsCalls(ms: seq<Message>, keepRecent: C.i64, triggers: (int, int, int), compress: C.Compressor)
    ensures FewerCalls(ms, C.Tiered(ms, keepRecent, triggers, compress).0)
  {
    hide C.Compacted, C.Tokens, CallIds, UniqueCalls, C.Phase1, C.Phase2, C.Phase3;
    ShippedFiltersKeepIds(compress);
    if |ms| > 2 {
      var one := C.Compacted(C.Phase1(compress), ms, keepRecent);
      var two := C.Compacted(C.Phase2(), one, keepRecent);
      CompactedKeepsCalls(C.Phase1(compress), ms, keepRecent);
      CompactedKeepsCalls(C.Phase2(), one, keepRecent);
      CompactedKeepsCalls(C.Phase3(), two, keepRecent);
    }
  }

  // ---------- whole runs ----------

  /** The context manager replaces the transcript exactly when the strategy reports a phase. */
  function Reported(r: (seq<Message>, int)): Option<seq<Message>> {
    if r.1 == 0 then None else Some(r.0)
  }

  ghost predicate UsesSlidingWindow(env: Environment, keepRecent: C.i64, trigger: int) {
    forall k, ms :: env.compact(k, ms) == Reported(C.SlidingWindow(ms, keepRecent, trigger))
  }

  ghost predicate UsesTiers(env: Environment, keepRecent: C.i64, triggers: (int, int, int), compress: C.Compressor) {
    forall k, ms :: env.compact(k, ms) == Reported(C.Tiered(ms, keepRecent, triggers, compress))
  }

  /** With the sliding window, however narrow, a run keeps its transcript orderly and its call identifiers unique. */
  lemma SlidingWindowSuitsRuns(env: Environment, keepRecent: C.i64, trigger: int)
    requires UsesSlidingWindow(env, keepRecent, trigger)
    ensures KeepsOrder(env) && KeepsUnique(env)
  {
    hide C.Compacted, C.Tokens, Orderly, CallIds, UniqueCalls;
    ShippedFiltersDropTools();
    forall k, ms | env.compact(k, ms).Some? && Orderly(ms) ensures Orderly(env.compact(k, ms).value) {
      if |ms| > 2 {
        DroppingKeepsOrder(C.Nothing(), ms, keepRecent);
      }
    }
    forall k, ms | env.compact(k, ms).Some? ensures FewerCalls(ms, env.compact(k, ms).value) {
      SlidingWindowKeepsCalls(ms, keepRecent, trigger);
    }
  }

  /** What a filter passes on keeps its role and its type. */
  ghost predicate KeepsKinds(f: C.Filter) {
    forall m | f(m).Some? :: f(m).value.role == m.role && f(m).value.msgType == m.msgType
  }

  lemma ShippedFiltersKeepKinds(compress: C.Compressor)
    ensures KeepsKinds(C.Phase1(compress)) && KeepsKinds(C.Phase2()) && KeepsKinds(C.Phase3())
  {
  }

  /** Compaction makes no nudge. */
  lemma CompactedNudgesNobody(f: C.Filter, ms: seq<Message>, keepRecent: C.i64)
    requires |ms| >= 2 && KeepsKinds(f) && NoNudgeAnswers(ms, |ms|)
    ensures var out := C.Compacted(f, ms, keepRecent); NoNudgeAnswers(out, |out|)
  {
    hide C.WindowStart, C.Kept, IsNudge;
    var rest := ms[2..];
    var cut := C.WindowStart(rest, keepRecent);
    var kept := C.Kept(f, rest, cut);
    forall i | 0 <= i < |kept| && kept[i].role.Tool? ensures !IsNudge(kept[i].msgType) {
      C.KeptOrigin(f, rest, cut, i);
      var j :| 0 <= j < cut && f(rest[j]) == Some(kept[i]);
      assert rest[j] == ms[2 + j];
    }
    var header, window := ms[..2], rest[cut..];
    assert header + rest == ms && rest[..cut] + window == rest;
    NoNudgeAnswersConcat(header, rest);
    NoNudgeAnswersConcat(rest[..cut], window);
    NoNudgeAnswersConcat(header, kept);
    NoNudgeAnswersConcat(header + kept, window);
  }

  /** Where no call was rejected or blocked, no tiered compaction breaks the order, whatever the thresholds. */
  lemma TieredKeepsUnblocked(ms: seq<Message>, keepRecent: C.i64, triggers: (int, int, int), compress: C.Compressor)
    requires |ms| >= 2 && Unblocked(ms)
    ensures Unblocked(C.Tiered(ms, keepRecent, triggers, compress).0)
  {
    hide C.Compacted, C.WindowStart, C.Phase1, C.Phase2, C.Phase3, C.Tokens, C.Tiered, Orderly, IsNudge;
    ShippedFiltersKeepKinds(compress);
    hide KeepsKinds;
    var one := C.Compacted(C.Phase1(compress), ms, keepRecent);
    var two := C.Compacted(C.Phase2(), one, keepRecent);
    CompactedNudgesNobody(C.Phase1(compress), ms, keepRecent);
    CompactedNudgesNobody(C.Phase2(), one, keepRecent);
    CompactedNudgesNobody(C.Phase3(), two, keepRecent);
    TieredPhases(ms, keepRecent, triggers, compress);
    assert NoNudgeAnswers(ms[2..], C.WindowStart(ms[2..], keepRecent));
    TieredKeepsOrderExactly(ms, keepRecent, triggers, compress);
  }

  /** With tiers, whatever the thresholds, call identifiers stay unique, and unblocked transcripts stay so; any orderly
      transcript stays orderly where compaction cannot stop at phase 1. */
  lemma TiersSuitRuns(env: Environment, keepRecent: C.i64, triggers: (int, int, int), compress: C.Compressor)
    requires UsesTiers(env, keepRecent, triggers, compress)
    ensures KeepsUnique(env) && KeepsUnblocked(env)
    ensures triggers.1 < 0 && keepRecent != 0 ==> KeepsOrder(env)
  {
    hide C.Tiered, C.Compacted, C.Phase1, C.WindowStart, Orderly, Unblocked, NoNudgeAnswers, CallIds, UniqueCalls,
         SeesSteps;
    forall k, ms | env.compact(k, ms).Some? ensures FewerCalls(ms, env.compact(k, ms).value) {
      TieredKeepsCalls(ms, keepRecent, triggers, compress);
    }
    forall k, ms | env.compact(k, ms).Some? && Unblocked(ms) ensures Unblocked(env.compact(k, ms).value) {
      UnblockedIsOrderly(ms);
      TieredKeepsUnblocked(ms, keepRecent, triggers, compress);
    }
    if triggers.1 < 0 && keepRecent != 0 {
      forall k, ms | env.compact(k, ms).Some? && Orderly(ms) ensures Orderly(env.compact(k, ms).value) {
        OrderlyHasHeader(ms);
        TieredKeepsOrderExactly(ms, keepRecent, triggers, compress);
      }
    }
  }

  lemma OrderlyHasHeader(ms: seq<Message>)
    requires Orderly(ms)
    ensures |ms| >= 2
  {
  }

  lemma UnblockedIsOrderly(ms: seq<Message>)
    requires Unblocked(ms)
    ensures Orderly(ms) && |ms| >= 2
  {
  }

  /** So a whole run that slides its window, seeded with any orderly transcript, ends with every call answered at once
      by its own results; and its identifiers are unique if the runner drew none that the seed had. */
  lemma SlidingWindowRunsStaySound(env: Environment, keepRecent: C.i64, trigger: int, ms0: seq<Message>,
                                   ms: seq<Message>, counter: nat, drawn: set<nat>, written: seq<Message>)
    requires Runner.Healthy(env, ms0, ms, counter, drawn, written) && UsesSlidingWindow(env, keepRecent, trigger)
    ensures Orderly(ms0) ==> Orderly(ms)
    ensures UniqueCalls(ms0) && Runner.Unclaimed(ms0, drawn) ==> UniqueCalls(ms)
  {
    hide Orderly, Unblocked, UniqueCalls, UsesSlidingWindow, KeepsOrder, KeepsUnique, Traced, Runner.Unclaimed;
    SlidingWindowSuitsRuns(env, keepRecent, trigger);
  }

  /** A run with tiers, whatever the thresholds, keeps its identifiers unique just so; and it stays orderly if no call
      of the seed was answered by a nudge and the run wrote no such answer: no batch was rejected or blocked. */
  lemma TieredRunsStaySound(env: Environment, keepRecent: C.i64, triggers: (int, int, int), compress: C.Compressor,
                            ms0: seq<Message>, ms: seq<Message>, counter: nat, drawn: set<nat>, written: seq<Message>)
    requires Runner.Healthy(env, ms0, ms, counter, drawn, written) && UsesTiers(env, keepRecent, triggers, compress)
    ensures UniqueCalls(ms0) && Runner.Unclaimed(ms0, drawn) ==> UniqueCalls(ms)
    ensures Unblocked(ms0) && NoNudgeAnswers(written, |written|) ==> Unblocked(ms)
    ensures triggers.1 < 0 && keepRecent != 0 && Orderly(ms0) ==> Orderly(ms)
  {
    hide Orderly, Unblocked, NoNudgeAnswers, UniqueCalls, UsesTiers, KeepsOrder, KeepsUnblocked, KeepsUnique, Traced,
         Runner.Unclaimed;
    TiersSuitRuns(env, keepRecent, triggers, compress);
  }

  // ---------- order throughout a run ----------

  /** The transcript of a run is orderly at first, before and after each compaction, and at last. */
  ghost predicate OrderlyThroughout(env: Environment, ms0: seq<Message>, asked: seq<seq<Message>>, ms: seq<Message>) {
    && Orderly(ms0) && Orderly(ms)
    && forall k | 0 <= k < |asked| :: Orderly(asked[k]) && Orderly(Prepared(env, k, asked[k]))
  }

  /** Where no compaction breaks an orderly transcript, an orderly seed stays so up to each request. */
  lemma {:induction false} OrderlyUpTo(env: Environment, ms0: seq<Message>, asked: seq<seq<Message>>, ms: seq<Message>,
                                       n: nat)
    requires Asked(env, 0, ms0, asked, ms) && Orderly(ms0) && n <= |asked|
    requires forall k | 0 <= k < n :: Orderly(asked[k]) ==> Orderly(Prepared(env, k, asked[k]))
    ensures forall k | 0 <= k < n :: Orderly(asked[k]) && Orderly(Prepared(env, k, asked[k]))
    ensures Orderly(if n == |asked| then ms else asked[n])
  {
    hide Orderly, Extends, Prepared;
    if n > 0 {
      OrderlyUpTo(env, ms0, asked, ms, n - 1);
    }
    assert Grows(env, 0, ms0, asked, ms, n);
    ExtendsOrderly(Sent(env, 0, ms0, asked, n), if n == |asked| then ms else asked[n]);
  }

  /** With tiers the transcript of a run is orderly throughout exactly when the seed is and every transcript handed to
      the context manager is spared. */
  lemma TieredRunsStayOrderlyExactly(env: Environment, keepRecent: C.i64, triggers: (int, int, int),
                                     compress: C.Compressor, ms0: seq<Message>, asked: seq<seq<Message>>,
                                     ms: seq<Message>)
    requires UsesTiers(env, keepRecent, triggers, compress) && Asked(env, 0, ms0, asked, ms)
    ensures OrderlyThroughout(env, ms0, asked, ms)
            <==> Orderly(ms0) && forall k | 0 <= k < |asked| :: Spared(asked[k], keepRecent, triggers, compress)
  {
    hide Orderly, Prepared, Spared, UsesTiers, Asked;
    forall k | 0 <= k < |asked| && Orderly(asked[k])
      ensures Orderly(Prepared(env, k, asked[k])) <==> Spared(asked[k], keepRecent, triggers, compress)
    {
      PreparedByTiers(env, keepRecent, triggers, compress, k, asked[k]);
    }
    if Orderly(ms0) && forall k | 0 <= k < |asked| :: Spared(asked[k], keepRecent, triggers, compress) {
      OrderlyUpTo(env, ms0, asked, ms, |asked|);
    }
  }

  lemma PreparedByTiers(env: Environment, keepRecent: C.i64, triggers: (int, int, int), compress: C.Compressor, k: nat,
                        ms: seq<Message>)
    requires UsesTiers(env, keepRecent, triggers, compress) && Orderly(ms)
    ensures Orderly(Prepared(env, k, ms)) <==> Spared(ms, keepRecent, triggers, compress)
  {
    OrderlyHasHeader(ms);
    hide Orderly, Spared, C.Tiered, C.Compacted, C.Phase1, C.Phase2, C.Phase3, C.Tokens;
    TieredKeepsOrderExactly(ms, keepRecent, triggers, compress);
    TieredPhases(ms, keepRecent, triggers, compress);
    assert env.compact(k, ms) == Reported(C.Tiered(ms, keepRecent, triggers, compress));
  }

  // ---------- a compaction by tiers that tears ----------

  ghost predicate TornByTiers(ms: seq<Message>, keepRecent: C.i64, trigger: int, compress: C.Compressor) {
    && Orderly(ms) && trigger >= 0
    && !Orderly(C.Tiered(ms, keepRecent, (trigger, trigger, trigger), compress).0)
  }

  /** A call rejected with a long text, and something later: within any compressor and with one trigger for all phases,
      the tiered strategy drops the rejection and keeps the call. */
  lemma TiersCanTear(compress: C.Compressor, text: string)
    requires Utf8.Len(text) >= 4
    ensures exists ms :: TornByTiers(ms, 1, 0, compress)
  {
    var user := Message(User, "", UserInput, None, None, None, None);
    var infos := [CallInfo("run", "a")];
    var call, result := CallMessage(infos, 0), ResultMessage(infos[0], text, RetryNudge, 0);
    var last := TextMessage("", 1);
    var ms, rest := [user, user, call, result, last], [call, result, last];
    RejectedIsOrderly(user, call, result, last);
    C.ExampleWindow(call, result, last);
    assert ms[2..] == rest;
    assert !NoNudgeAnswers(rest, 2) by {
      assert rest[1] == result;
    }
    RejectedSizes(compress, user, call, result, last);
    hide *;
    TieredKeepsOrderExactly(ms, 1, (0, 0, 0), compress);
    assert TornByTiers(ms, 1, 0, compress) by { TornIs(ms, 1, 0, compress); }
  }

  lemma TornIs(ms: seq<Message>, keepRecent: C.i64, trigger: int, compress: C.Compressor)
    requires Orderly(ms) && trigger >= 0
    requires !Orderly(C.Tiered(ms, keepRecent, (trigger, trigger, trigger), compress).0)
    ensures TornByTiers(ms, keepRecent, trigger, compress)
  {
  }

  lemma RejectedIsOrderly(user: Message, call: Message, result: Message, last: Message)
    requires Plain(user) && Plain(last) && call == CallMessage([CallInfo("run", "a")], 0)
    requires result == ResultMessage(CallInfo("run", "a"), result.content, RetryNudge, 0)
    ensures Orderly([user, user, call, result, last])
  {
    var infos := [CallInfo("run", "a")];
    var front, results := [user, user], [result];
    GroupIsPaired(front, call, results);
    GroupIsRegular(front, call, results);
    PlainIsPaired([last], 1);
    PlainIsRegular([last]);
    assert [user, user, call, result, last] == front + [call] + results + [last];
    hide WellPaired, Regular;
    PairedIsPending([last]);
    WellPairedConcat(front + [call] + results, [last]);
    RegularConcat(front + [call] + results, [last]);
  }

  lemma RejectedSizes(compress: C.Compressor, user: Message, call: Message, result: Message, last: Message)
    requires user.content == call.content == last.content == "" && Utf8.Len(result.content) >= 4
    requires call.msgType.ToolCall? && result.msgType.RetryNudge? && C.WindowStart([call, result, last], 1) == 2
    ensures C.Tokens([user, user, call, result, last]) > 0
    ensures C.Tokens(C.Compacted(C.Phase1(compress), [user, user, call, result, last], 1)) == 0
  {
    var ms, rest := [user, user, call, result, last], [call, result, last];
    C.PhaseOneOf(compress, call);
    C.PhaseOneOf(compress, result);
    C.KeptTwoOfThree(C.Phase1(compress), call, result, last);
    C.BytesUpTo(ms, 5, 3);
    assert ms[2..] == rest && ms[..2] == [user, user] && rest[2..] == [last];
    hide C.WindowStart, C.Kept, C.Phase1;
    assert C.Compacted(C.Phase1(compress), ms, 1) == [user, user, call, last];
    C.BytesUpTo([user, user, call, last], 4, 0);
  }
}
