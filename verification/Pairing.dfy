/** Transcripts in which every call message is followed at once by one result per call, in the
    same order and with the same identifiers.

    Groups of messages built that way can be put one after the other. */
module Pairing {
  import opened Wrappers
  import opened Transcript

  // ---------- the grammar ----------

  function IdsOf(calls: seq<CallInfo>): seq<string> {
    seq(|calls|, i requires 0 <= i < |calls| => calls[i].callId)
  }

  /** The identifiers still to be answered after one more message; `None` when it does not fit. */
  function Expect(pending: seq<string>, m: Message): Option<seq<string>> {
    if m.toolCalls.Some? then (if pending == [] then Some(IdsOf(m.toolCalls.value)) else None)
    else if m.role.Tool? then
      if pending != [] && m.toolCallId == Some(pending[0]) then Some(pending[1..]) else None
    else if pending == [] then Some([]) else None
  }

  /** The identifiers still to be answered after the first `n` messages, from `pending` on. */
  function Pending(pending: seq<string>, ms: seq<Message>, n: nat): Option<seq<string>>
    requires n <= |ms|
  {
    if n == 0 then Some(pending)
    else match Pending(pending, ms, n - 1)
      case None => None
      case Some(p) => Expect(p, ms[n - 1])
  }

  predicate WellPaired(ms: seq<Message>) {
    Pending([], ms, |ms|) == Some([])
  }

  lemma {:induction false} PendingConcat(p: seq<string>, q: seq<string>, a: seq<Message>, b: seq<Message>, n: nat)
    requires n <= |b| && Pending(p, a, |a|) == Some(q)
    ensures Pending(p, a + b, |a| + n) == Pending(q, b, n)
  {
    hide Expect;
    if n == 0 {
      PendingPrefix(p, a, b, |a|);
    } else {
      PendingConcat(p, q, a, b, n - 1);
      assert (a + b)[|a| + n - 1] == b[n - 1];
    }
  }

  lemma {:induction false} PendingPrefix(p: seq<string>, a: seq<Message>, b: seq<Message>, n: nat)
    requires n <= |a|
    ensures Pending(p, a + b, n) == Pending(p, a, n)
  {
    hide Expect;
    if n > 0 {
      PendingPrefix(p, a, b, n - 1);
    }
  }

  lemma WellPairedConcat(a: seq<Message>, b: seq<Message>)
    requires WellPaired(a) && WellPaired(b)
    ensures WellPaired(a + b)
  {
    PendingConcat([], [], a, b, |b|);
  }

  /** A well-paired transcript says what its name says: each call message is followed by its own results. */
  lemma CallsAreAnswered(ms: seq<Message>, i: nat, k: nat)
    requires WellPaired(ms) && i < |ms| && ms[i].toolCalls.Some? && k < |ms[i].toolCalls.value|
    ensures i + 1 + k < |ms|
    ensures ms[i + 1 + k].role.Tool? && ms[i + 1 + k].toolCallId == Some(ms[i].toolCalls.value[k].callId)
  {
    var ids := IdsOf(ms[i].toolCalls.value);
    PendingStaysNone([], ms, i + 1, |ms|);
    assert Pending([], ms, i + 1) == Some(ids);
    AnsweredInOrder(ms, i + 1, ids, k);
  }

  lemma {:induction false} PendingStaysNone(p: seq<string>, ms: seq<Message>, n: nat, m: nat)
    requires n <= m <= |ms|
    ensures Pending(p, ms, n).None? ==> Pending(p, ms, m).None?
    decreases m - n
  {
    if n < m {
      PendingStaysNone(p, ms, n, m - 1);
    }
  }

  lemma {:induction false} AnsweredInOrder(ms: seq<Message>, n: nat, ids: seq<string>, k: nat)
    requires n <= |ms| && Pending([], ms, n) == Some(ids) && Pending([], ms, |ms|) == Some([]) && k < |ids|
    ensures n + k < |ms| && ms[n + k].role.Tool? && ms[n + k].toolCallId == Some(ids[k])
    decreases k
  {
    PendingStaysNone([], ms, n + 1, |ms|);
    if k > 0 {
      AnsweredInOrder(ms, n + 1, ids[1..], k - 1);
    }
  }

  // ---------- groups ----------

  /** The result messages answer the calls one by one. */
  predicate Answers(calls: seq<CallInfo>, results: seq<Message>) {
    && |results| == |calls|
    && forall i | 0 <= i < |calls| ::
         results[i].role.Tool? && results[i].toolCalls.None?
         && results[i].toolCallId == Some(calls[i].callId) && results[i].toolName == Some(calls[i].name)
  }

  predicate Plain(m: Message) {
    !m.role.Tool? && m.toolCalls.None?
  }

  predicate AllPlain(ms: seq<Message>) {
    forall i | 0 <= i < |ms| :: Plain(ms[i])
  }

  lemma {:induction false} PlainIsPaired(ms: seq<Message>, n: nat)
    requires n <= |ms| && AllPlain(ms)
    ensures Pending([], ms, n) == Some([])
  {
    if n > 0 {
      PlainIsPaired(ms, n - 1);
    }
  }

  lemma {:induction false} ResultsAnswer(calls: seq<CallInfo>, results: seq<Message>, n: nat)
    requires n <= |results| && Answers(calls, results)
    ensures Pending(IdsOf(calls), results, n) == Some(IdsOf(calls)[n..])
  {
    if n > 0 {
      ResultsAnswer(calls, results, n - 1);
      assert IdsOf(calls)[n - 1..][1..] == IdsOf(calls)[n..];
    }
  }

  lemma GroupIsPaired(front: seq<Message>, call: Message, results: seq<Message>)
    requires AllPlain(front) && call.toolCalls.Some? && Answers(call.toolCalls.value, results)
    ensures WellPaired(front + [call] + results)
  {
    var ids := IdsOf(call.toolCalls.value);
    PlainIsPaired(front, |front|);
    assert Pending([], [call], 0) == Some([]);
    assert Pending([], [call], 1) == Some(ids);
    PendingConcat([], [], front, [call], 1);
    ResultsAnswer(call.toolCalls.value, results, |results|);
    PendingConcat([], ids, front + [call], results, |results|);
    assert ids[|results|..] == [];
  }

  // ---------- identifiers ----------

  /** The identifiers of the calls of the first `n` messages, in order. */
  function CallIds(ms: seq<Message>, n: nat): seq<string>
    requires n <= |ms|
  {
    if n == 0 then []
    else CallIds(ms, n - 1) + (if ms[n - 1].toolCalls.Some? then IdsOf(ms[n - 1].toolCalls.value) else [])
  }

  /** Every identifier a transcript mentions, on a call or on a result. */
  ghost predicate Mentions(ms: seq<Message>, id: string) {
    exists i | 0 <= i < |ms| :: MessageMentions(ms[i], id)
  }

  predicate MessageMentions(m: Message, id: string) {
    m.toolCallId == Some(id) || (m.toolCalls.Some? && id in IdsOf(m.toolCalls.value))
  }

  predicate Distinct(ids: seq<string>) {
    forall i, j | 0 <= i < j < |ids| :: ids[i] != ids[j]
  }

  /** No two calls of the transcript share an identifier. */
  predicate UniqueCalls(ms: seq<Message>) {
    Distinct(CallIds(ms, |ms|))
  }

  lemma {:induction false} CallIdsConcat(a: seq<Message>, b: seq<Message>, n: nat)
    requires n <= |b|
    ensures CallIds(a + b, |a| + n) == CallIds(a, |a|) + CallIds(b, n)
  {
    hide IdsOf;
    if n == 0 {
      CallIdsPrefix(a, b, |a|);
    } else {
      CallIdsConcat(a, b, n - 1);
      assert (a + b)[|a| + n - 1] == b[n - 1];
    }
  }

  lemma {:induction false} CallIdsPrefix(a: seq<Message>, b: seq<Message>, n: nat)
    requires n <= |a|
    ensures CallIds(a + b, n) == CallIds(a, n)
  {
    hide IdsOf;
    if n > 0 {
      CallIdsPrefix(a, b, n - 1);
    }
  }

  lemma {:induction false} CallIdsAreMentioned(ms: seq<Message>, n: nat, id: string)
    requires n <= |ms| && id in CallIds(ms, n)
    ensures Mentions(ms, id)
  {
    var own := if ms[n - 1].toolCalls.Some? then IdsOf(ms[n - 1].toolCalls.value) else [];
    hide IdsOf;
    if id in CallIds(ms, n - 1) {
      CallIdsAreMentioned(ms, n - 1, id);
    } else {
      assert id in own;
      assert MessageMentions(ms[n - 1], id);
    }
  }

  lemma MentionsConcat(a: seq<Message>, b: seq<Message>, id: string)
    ensures Mentions(a + b, id) <==> Mentions(a, id) || Mentions(b, id)
  {
    hide MessageMentions;
    assert forall i | 0 <= i < |a| :: (a + b)[i] == a[i];
    assert forall i | 0 <= i < |b| :: (a + b)[|a| + i] == b[i];
  }

  /** Calls put after others keep identifiers unique exactly when they share none with them. */
  lemma {:induction false} UniqueConcat(a: seq<Message>, b: seq<Message>)
    requires UniqueCalls(a) && UniqueCalls(b)
    ensures UniqueCalls(a + b) <==> forall id | id in CallIds(b, |b|) :: id !in CallIds(a, |a|)
  {
    hide CallIds, Distinct;
    CallIdsConcat(a, b, |b|);
    DistinctExactly(CallIds(a, |a|), CallIds(b, |b|));
  }

  lemma DistinctExactly(x: seq<string>, y: seq<string>)
    requires Distinct(x) && Distinct(y)
    ensures Distinct(x + y) <==> forall id | id in y :: id !in x
  {
    var z := x + y;
    if Distinct(z) {
      forall id | id in y ensures id !in x {
        var j :| 0 <= j < |y| && y[j] == id;
        assert z[|x| + j] == id;
        assert forall i | 0 <= i < |x| :: z[i] == x[i];
      }
    }
    if forall id | id in y :: id !in x {
      forall i, j | 0 <= i < j < |z| ensures z[i] != z[j] {
        if i < |x| <= j {
          assert x[i] in x && y[j - |x|] in y;
        }
      }
    }
  }

  lemma DistinctParts(x: seq<string>, y: seq<string>)
    ensures Distinct(x + y) ==> Distinct(x) && Distinct(y)
  {
    var z := x + y;
    assert forall i | 0 <= i < |x| :: z[i] == x[i];
    assert forall i | 0 <= i < |y| :: z[|x| + i] == y[i];
  }

  lemma {:induction false} UniqueParts(a: seq<Message>, b: seq<Message>)
    requires UniqueCalls(a + b)
    ensures UniqueCalls(a) && UniqueCalls(b)
  {
    hide CallIds, Distinct;
    CallIdsConcat(a, b, |b|);
    DistinctParts(CallIds(a, |a|), CallIds(b, |b|));
  }

  // ---------- transcripts that may be cut ----------

  /** A message's type says what it is, and a result carries the step of the message before it. */
  predicate RegularAt(ms: seq<Message>, i: nat)
    requires i < |ms|
  {
    && (ms[i].toolCalls.Some? ==> ms[i].msgType.ToolCall?)
    && (ms[i].role.Tool? ==>
          && (ms[i].msgType.ToolResult? || IsNudge(ms[i].msgType))
          && i > 0 && ms[i].stepIndex == ms[i - 1].stepIndex)
  }

  predicate Regular(ms: seq<Message>) {
    forall i | 0 <= i < |ms| :: RegularAt(ms, i)
  }

  /** Well paired and regular, with a header of two messages that does not end inside a group. */
  predicate Orderly(ms: seq<Message>) {
    && |ms| >= 2 && WellPaired(ms) && Regular(ms)
    && (|ms| > 2 ==> !ms[2].role.Tool?)
  }

  /** No call among the first `n` messages was answered by a nudge. */
  predicate NoNudgeAnswers(ms: seq<Message>, n: nat)
    requires n <= |ms|
  {
    forall j | 0 <= j < n :: ms[j].role.Tool? ==> !IsNudge(ms[j].msgType)
  }

  /** Orderly, and every call has been answered by a result of its own: none was rejected or blocked. */
  predicate Unblocked(ms: seq<Message>) {
    Orderly(ms) && NoNudgeAnswers(ms, |ms|)
  }

  lemma NoNudgeAnswersConcat(a: seq<Message>, b: seq<Message>)
    ensures NoNudgeAnswers(a + b, |a + b|) <==> NoNudgeAnswers(a, |a|) && NoNudgeAnswers(b, |b|)
  {
    assert forall i | 0 <= i < |a| :: (a + b)[i] == a[i];
    assert forall i | 0 <= i < |b| :: (a + b)[|a| + i] == b[i];
  }

  lemma RegularConcat(a: seq<Message>, b: seq<Message>)
    requires Regular(a) && Regular(b)
    ensures Regular(a + b)
  {
    forall i | 0 <= i < |a + b| ensures RegularAt(a + b, i) {
      if i < |a| {
        assert RegularAt(a, i);
      } else {
        assert RegularAt(b, i - |a|);
      }
    }
  }

  lemma OrderlyExtended(a: seq<Message>, b: seq<Message>)
    requires Orderly(a) && WellPaired(b) && Regular(b)
    ensures Orderly(a + b)
  {
    WellPairedConcat(a, b);
    RegularConcat(a, b);
    if |a| == 2 && b != [] {
      assert RegularAt(b, 0);
    }
  }

  /** The transcript `ms'` is `ms` followed by whole groups. */
  predicate Extends(ms: seq<Message>, ms': seq<Message>) {
    ms <= ms' && WellPaired(ms'[|ms|..]) && Regular(ms'[|ms|..])
  }

  lemma ExtendsBy(ms: seq<Message>, added: seq<Message>)
    requires WellPaired(added) && Regular(added)
    ensures Extends(ms, ms + added)
  {
    assert (ms + added)[|ms|..] == added;
  }

  lemma ExtendsItself(ms: seq<Message>)
    ensures Extends(ms, ms)
  {
    assert ms + [] == ms;
    assert WellPaired([]);
    ExtendsBy(ms, []);
  }

  lemma ExtendsTwice(a: seq<Message>, b: seq<Message>, c: seq<Message>)
    requires Extends(a, b) && Extends(b, c)
    ensures Extends(a, c)
  {
    var x, y := b[|a|..], c[|b|..];
    assert c[|a|..] == x + y;
    WellPairedConcat(x, y);
    RegularConcat(x, y);
  }

  lemma ExtendsOrderly(ms: seq<Message>, ms': seq<Message>)
    requires Extends(ms, ms') && Orderly(ms)
    ensures Orderly(ms')
  {
    assert ms' == ms + ms'[|ms|..];
    OrderlyExtended(ms, ms'[|ms|..]);
  }

  lemma PlainIsRegular(ms: seq<Message>)
    requires AllPlain(ms)
    ensures Regular(ms)
  {
  }

  /** The results of a group, all of its step. */
  predicate InStep(results: seq<Message>, step: Option<int>) {
    forall i | 0 <= i < |results| ::
      && results[i].role.Tool? && results[i].toolCalls.None? && results[i].stepIndex == step
      && (results[i].msgType.ToolResult? || IsNudge(results[i].msgType))
  }

  lemma GroupIsRegular(front: seq<Message>, call: Message, results: seq<Message>)
    requires AllPlain(front) && Plain(call.(toolCalls := None)) && call.msgType.ToolCall?
             && InStep(results, call.stepIndex)
    ensures Regular(front + [call] + results)
  {
    var g := front + [call] + results;
    forall i | 0 <= i < |g| ensures RegularAt(g, i) {
      if i < |front| {
        assert g[i] == front[i];
      } else if i == |front| {
        assert g[i] == call;
      } else {
        assert g[i] == results[i - |front| - 1];
        assert g[i - 1].stepIndex == call.stepIndex;
      }
    }
  }
}
