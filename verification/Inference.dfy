/** One inference: the model is asked until an answer validates, every rejected answer
    being written into the transcript together with what was wrong with it.

    The conversation is shared with the workflow loop, and so is its counter. */
module Inference {
  import opened Wrappers
  import opened Response
  import opened Transcript
  import opened Pairing
  import ErrorTracker
  import FreshId
  import V = ResponseValidator

  const I32_MAX: int := 0x7fff_ffff

  /** The outside: what compaction does to a transcript, when a context warning is due, what the model
      answers to its `n`-th request (`None` for a failing backend or stream), and the wording of nudges. */
  datatype Environment = Environment(
    compact: (nat, seq<Message>) -> Option<seq<Message>>,
    warning: (nat, seq<Message>) -> Option<string>,
    reply: nat -> Option<LLMResponse>,
    nudge: V.Rejection -> string)

  class Conversation {
    var messages: seq<Message>
    var counter: nat

    constructor (messages: seq<Message>)
      ensures this.messages == messages && counter == 0
    {
      this.messages, counter := messages, 0;
    }
  }

  // ---------- what a rejected batch of calls leaves in the transcript ----------

  function ReasoningMessage(text: string, step: int): Message {
    Message(Assistant, text, Reasoning, Some(step), None, None, None)
  }

  function CallMessage(infos: seq<CallInfo>, step: int): Message {
    Message(Assistant, "", MessageType.ToolCall, Some(step), None, None, Some(infos))
  }

  function ResultMessage(info: CallInfo, text: string, kind: MessageType, step: int): Message {
    Message(Tool, text, kind, Some(step), Some(info.name), Some(info.callId), None)
  }

  /** The reasoning of the first `n` calls that carry any. */
  function Reasonings(calls: seq<ToolCall>, step: int, n: nat): (r: seq<Message>)
    requires n <= |calls|
    ensures AllPlain(r) && NoIds(r) && forall m | m in r :: m.msgType.Reasoning?
  {
    if n == 0 then []
    else
      Reasonings(calls, step, n - 1)
      + (if calls[n - 1].reasoning.Some? then [ReasoningMessage(calls[n - 1].reasoning.value, step)] else [])
  }

  predicate NamesMatch(infos: seq<CallInfo>, calls: seq<ToolCall>) {
    |infos| == |calls| && forall i | 0 <= i < |calls| :: infos[i].name == calls[i].tool
  }

  function ResultMessages(infos: seq<CallInfo>, text: string, kind: MessageType, step: int): seq<Message> {
    seq(|infos|, i requires 0 <= i < |infos| => ResultMessage(infos[i], text, kind, step))
  }

  /** Reasoning first, then the call message, then one result per call. */
  function Group(front: seq<Message>, infos: seq<CallInfo>, text: string, kind: MessageType, step: int): seq<Message> {
    front + [CallMessage(infos, step)] + ResultMessages(infos, text, kind, step)
  }

  lemma GroupFits(front: seq<Message>, infos: seq<CallInfo>, results: seq<Message>, step: int)
    requires AllPlain(front) && Answers(infos, results)
    ensures WellPaired(front + [CallMessage(infos, step)] + results)
    ensures var g := front + [CallMessage(infos, step)] + results; CallIds(g, |g|) == IdsOf(infos)
  {
    hide CallIds, WellPaired, Answers, IdsOf;
    GroupIsPaired(front, CallMessage(infos, step), results);
    GroupIds(front, infos, results, step);
  }

  lemma GroupIds(front: seq<Message>, infos: seq<CallInfo>, results: seq<Message>, step: int)
    requires AllPlain(front) && Answers(infos, results)
    ensures var g := front + [CallMessage(infos, step)] + results; CallIds(g, |g|) == IdsOf(infos)
  {
    var call := CallMessage(infos, step);
    NoCallIds(front, |front|);
    NoCallIds(results, |results|);
    OneCallIds(infos, step);
    hide CallIds, AllPlain, Answers, IdsOf;
    CallIdsConcat(front, [call], 1);
    CallIdsConcat(front + [call], results, |results|);
  }

  lemma OneCallIds(infos: seq<CallInfo>, step: int)
    ensures CallIds([CallMessage(infos, step)], 1) == IdsOf(infos)
  {
    assert CallIds([CallMessage(infos, step)], 0) == [];
  }

  lemma {:induction false} NoCallIds(ms: seq<Message>, n: nat)
    requires n <= |ms| && forall i | 0 <= i < |ms| :: ms[i].toolCalls.None?
    ensures CallIds(ms, n) == []
  {
    if n > 0 {
      NoCallIds(ms, n - 1);
    }
  }

  // ---------- fresh identifiers ----------

  /** Identifiers made from the numbers `from <= k < to`, in increasing order. */
  ghost predicate Numbered(ids: seq<string>, numbers: seq<nat>, from: nat, to: nat) {
    && |numbers| == |ids| && from <= to
    && (forall i | 0 <= i < |ids| ::
        from <= numbers[i] < to && ids[i] == FreshId.FormatId(FreshId.CALL_PREFIX, numbers[i]))
    && (forall i, j | 0 <= i < j < |ids| :: numbers[i] < numbers[j])
  }

  lemma NumberedAreDistinct(ids: seq<string>, numbers: seq<nat>, from: nat, to: nat)
    requires Numbered(ids, numbers, from, to)
    ensures Distinct(ids)
  {
    hide FreshId.FormatId;
    forall i, j | 0 <= i < j < |ids| ensures ids[i] != ids[j] {
      FreshId.FormatIdInjective(FreshId.CALL_PREFIX, numbers[i], numbers[j]);
    }
  }

  method ExistingToolCallIds(messages: seq<Message>) returns (ids: set<string>)
    ensures forall id :: id in ids <==> id != "" && Mentions(messages, id)
  {
    hide MessageMentions;
    ids := {};
    for i := 0 to |messages|
      invariant forall id :: id in ids <==> id != "" && exists j | 0 <= j < i :: MessageMentions(messages[j], id)
    {
      ghost var before := ids;
      var mine := MessageIds(messages[i]);
      ids := ids + mine;
    }
  }

  method MessageIds(m: Message) returns (ids: set<string>)
    ensures forall id :: id in ids <==> id != "" && MessageMentions(m, id)
  {
    ids := {};
    if m.toolCalls.Some? {
      var calls := m.toolCalls.value;
      for i := 0 to |calls|
        invariant forall id :: id in ids <==> id != "" && id in IdsOf(calls)[..i]
      {
        assert IdsOf(calls)[..i + 1] == IdsOf(calls)[..i] + [calls[i].callId];
        if calls[i].callId != "" {
          ids := ids + {calls[i].callId};
        }
      }
      assert IdsOf(calls)[..|calls|] == IdsOf(calls);
    }
    if m.toolCallId.Some? && m.toolCallId.value != "" {
      ids := ids + {m.toolCallId.value};
    }
  }

  lemma IdIsNotEmpty(k: nat)
    ensures FreshId.FormatId(FreshId.CALL_PREFIX, k) != ""
  {
    FreshId.FormatIdLength(FreshId.CALL_PREFIX, k);
  }

  /** Gives every call an identifier that the transcript does not mention, all different. */
  method AssignIds(conv: Conversation, calls: seq<ToolCall>) returns (infos: seq<CallInfo>, ghost numbers: seq<nat>)
    modifies conv`counter
    ensures NamesMatch(infos, calls)
    ensures Numbered(IdsOf(infos), numbers, old(conv.counter), conv.counter)
    ensures forall i | 0 <= i < |infos| :: !Mentions(conv.messages, infos[i].callId)
  {
    hide Mentions, FreshId.FormatId;
    var seen := ExistingToolCallIds(conv.messages);
    infos, numbers := [], [];
    for i := 0 to |calls|
      invariant |infos| == i && forall j | 0 <= j < i :: infos[j].name == calls[j].tool
      invariant Numbered(IdsOf(infos), numbers, old(conv.counter), conv.counter)
      invariant forall j | 0 <= j < i :: !Mentions(conv.messages, infos[j].callId)
      invariant forall id | id != "" && Mentions(conv.messages, id) :: id in seen
    {
      var id, counter, seen' := FreshId.NextUniqueId(FreshId.CALL_PREFIX, conv.counter, seen);
      IdIsNotEmpty(counter - 1);
      assert IdsOf(infos + [CallInfo(calls[i].tool, id)]) == IdsOf(infos) + [id];
      infos, numbers := infos + [CallInfo(calls[i].tool, id)], numbers + [counter - 1];
      conv.counter, seen := counter, seen';
    }
  }

  // ---------- rejected answers ----------

  function PrefixOf(why: V.Rejection): string {
    match why
    case UnknownTool(_) => "[UnknownTool]"
    case InvalidArguments => "[InvalidArguments]"
    case _ => "[Guardrail]"
  }

  function NudgeMessage(text: string, step: int): Message {
    Message(User, text, RetryNudge, Some(step), None, None, None)
  }

  function TextMessage(text: string, step: int): Message {
    Message(Assistant, text, TextResponse, Some(step), None, None, None)
  }

  function WarningMessage(text: string): Message {
    Message(User, text, ContextWarning, None, None, None, None)
  }

  /** What a rejected answer adds to the transcript, given the identifiers its calls got. */
  function Rejected(response: LLMResponse, why: V.Rejection, nudge: string, step: int,
                    infos: seq<CallInfo>): seq<Message> {
    match response
    case Text(content) => [TextMessage(content, step), NudgeMessage(nudge, step)]
    case ToolCalls(calls) =>
      if calls == [] then [NudgeMessage(nudge, step)]
      else Group(Reasonings(calls, step, |calls|), infos, PrefixOf(why) + " " + nudge, RetryNudge, step)
  }

  predicate NoWarnings(ms: seq<Message>) {
    forall i | 0 <= i < |ms| :: !ms[i].msgType.ContextWarning?
  }

  /** Added messages form whole groups whose calls have fresh identifiers. */
  ghost predicate WholeGroups(before: seq<Message>, added: seq<Message>, numbers: seq<nat>, from: nat, to: nat) {
    && NoWarnings(added) && WellPaired(added) && Regular(added)
    && Numbered(CallIds(added, |added|), numbers, from, to)
    && (forall id | id in CallIds(added, |added|) :: !Mentions(before, id))
    && (forall id | Mentions(added, id) :: id in CallIds(added, |added|))
  }

  lemma PlainGroups(before: seq<Message>, added: seq<Message>, k: nat)
    requires AllPlain(added) && NoWarnings(added) && NoIds(added)
    ensures WholeGroups(before, added, [], k, k)
  {
    PlainIsPaired(added, |added|);
    PlainIsRegular(added);
    NoCallIds(added, |added|);
    hide WellPaired, CallIds, Mentions, Regular;
    forall id ensures !Mentions(added, id) {
      NoIdsMentionNothing(added, id);
    }
  }

  /** A group mentions no identifier but those of its calls. */
  lemma GroupMentions(front: seq<Message>, infos: seq<CallInfo>, results: seq<Message>, step: int, id: string)
    requires NoIds(front) && Answers(infos, results)
    ensures Mentions(front + [CallMessage(infos, step)] + results, id) <==> id in IdsOf(infos)
  {
    var call := CallMessage(infos, step);
    CallMentions(infos, step, id);
    ResultsMention(infos, results, id);
    NoIdsMentionNothing(front, id);
    hide Mentions, IdsOf, CallMessage, NoIds;
    MentionsConcat(front, [call], id);
    MentionsConcat(front + [call], results, id);
  }

  lemma CallMentions(infos: seq<CallInfo>, step: int, id: string)
    ensures Mentions([CallMessage(infos, step)], id) <==> id in IdsOf(infos)
  {
    assert MessageMentions([CallMessage(infos, step)][0], id) <==> id in IdsOf(infos);
  }

  lemma ResultsMention(infos: seq<CallInfo>, results: seq<Message>, id: string)
    requires Answers(infos, results)
    ensures Mentions(results, id) ==> id in IdsOf(infos)
  {
    assert forall i | 0 <= i < |results| && MessageMentions(results[i], id) :: IdsOf(infos)[i] == id;
  }

  predicate NoIds(ms: seq<Message>) {
    forall i | 0 <= i < |ms| :: ms[i].toolCalls.None? && ms[i].toolCallId.None?
  }

  lemma NoIdsMentionNothing(ms: seq<Message>, id: string)
    requires NoIds(ms)
    ensures forall i | 0 <= i < |ms| :: !MessageMentions(ms[i], id)
    ensures !Mentions(ms, id)
  {
  }

  lemma CallGroups(before: seq<Message>, front: seq<Message>, infos: seq<CallInfo>, results: seq<Message>, step: int,
                   numbers: seq<nat>, from: nat, to: nat)
    requires AllPlain(front) && NoWarnings(front) && NoIds(front) && Answers(infos, results) && NoWarnings(results)
    requires InStep(results, Some(step))
    requires Numbered(IdsOf(infos), numbers, from, to)
    requires forall i | 0 <= i < |infos| :: !Mentions(before, infos[i].callId)
    ensures WholeGroups(before, front + [CallMessage(infos, step)] + results, numbers, from, to)
  {
    hide Mentions, WellPaired, CallIds, Numbered, AllPlain, Answers, Regular, InStep;
    GroupFits(front, infos, results, step);
    GroupIsRegular(front, CallMessage(infos, step), results);
    var g := front + [CallMessage(infos, step)] + results;
    assert NoWarnings(g);
    forall id ensures Mentions(g, id) <==> id in IdsOf(infos) {
      GroupMentions(front, infos, results, step, id);
    }
    forall id | id in IdsOf(infos) ensures !Mentions(before, id) {
      var i :| 0 <= i < |IdsOf(infos)| && IdsOf(infos)[i] == id;
      assert infos[i].callId == id;
    }
  }

  lemma ResultMessagesAnswer(infos: seq<CallInfo>, text: string, kind: MessageType, step: int)
    requires kind.ToolResult? || IsNudge(kind)
    ensures Answers(infos, ResultMessages(infos, text, kind, step))
            && NoWarnings(ResultMessages(infos, text, kind, step))
    ensures InStep(ResultMessages(infos, text, kind, step), Some(step))
  {
  }

  method EmitRejection(conv: Conversation, response: LLMResponse, why: V.Rejection, nudge: string, step: int)
    returns (added: seq<Message>, infos: seq<CallInfo>, ghost numbers: seq<nat>)
    modifies conv
    ensures conv.messages == old(conv.messages) + added
    ensures added == Rejected(response, why, nudge, step, infos)
    ensures response.ToolCalls? ==> NamesMatch(infos, response.calls)
    ensures WholeGroups(old(conv.messages), added, numbers, old(conv.counter), conv.counter)
  {
    hide WholeGroups, Mentions, Numbered;
    infos, numbers := [], [];
    match response
    case Text(content) =>
      added := [TextMessage(content, step), NudgeMessage(nudge, step)];
      PlainGroups(conv.messages, added, conv.counter);
      conv.messages := conv.messages + added;
    case ToolCalls(calls) =>
      if calls == [] {
        added := [NudgeMessage(nudge, step)];
        PlainGroups(conv.messages, added, conv.counter);
        conv.messages := conv.messages + added;
      } else {
        infos, numbers := AssignIds(conv, calls);
        added := [];
        for i := 0 to |calls|
          invariant added == Reasonings(calls, step, i)
          invariant conv.messages == old(conv.messages)
        {
          if calls[i].reasoning.Some? {
            added := added + [ReasoningMessage(calls[i].reasoning.value, step)];
          }
        }
        ghost var front := added;
        added := added + [CallMessage(infos, step)];
        var text := PrefixOf(why) + " " + nudge;
        for i := 0 to |infos|
          invariant added == front + [CallMessage(infos, step)] + ResultMessages(infos[..i], text, RetryNudge, step)
          invariant conv.messages == old(conv.messages)
        {
          assert ResultMessages(infos[..i + 1], text, RetryNudge, step)
              == ResultMessages(infos[..i], text, RetryNudge, step) + [ResultMessage(infos[i], text, RetryNudge, step)];
          added := added + [ResultMessage(infos[i], text, RetryNudge, step)];
        }
        assert infos[..|infos|] == infos;
        ResultMessagesAnswer(infos, text, RetryNudge, step);
        CallGroups(conv.messages, front, infos, ResultMessages(infos, text, RetryNudge, step), step, numbers,
                   old(conv.counter), conv.counter);
        conv.messages := conv.messages + added;
      }
  }

  // ---------- what the new messages leave in the transcript ----------

  /** The first `n` new messages without the transient context warnings. */
  function Persisted(ms: seq<Message>, n: nat): seq<Message>
    requires n <= |ms|
  {
    if n == 0 then []
    else Persisted(ms, n - 1) + (if ms[n - 1].msgType.ContextWarning? then [] else [ms[n - 1]])
  }

  lemma {:induction false} PersistedConcat(a: seq<Message>, b: seq<Message>, n: nat)
    requires n <= |b| && NoWarnings(b)
    ensures Persisted(a + b, |a| + n) == Persisted(a, |a|) + b[..n]
  {
    if n == 0 {
      PersistedPrefix(a, b, |a|);
    } else {
      PersistedConcat(a, b, n - 1);
      assert b[..n] == b[..n - 1] + [b[n - 1]];
    }
  }

  lemma {:induction false} PersistedPrefix(a: seq<Message>, b: seq<Message>, n: nat)
    requires n <= |a|
    ensures Persisted(a + b, n) == Persisted(a, n)
  {
    if n > 0 {
      PersistedPrefix(a, b, n - 1);
    }
  }

  lemma {:induction false} PersistedWarning(a: seq<Message>, text: string)
    ensures Persisted(a + [WarningMessage(text)], |a| + 1) == Persisted(a, |a|)
  {
    PersistedPrefix(a, [WarningMessage(text)], |a|);
  }

  ghost predicate NeverCompacts(env: Environment) {
    forall k, ms :: env.compact(k, ms).None?
  }

  /** Compaction keeps any well-paired transcript well paired. */
  ghost predicate KeepsPairing(env: Environment) {
    forall k, ms | env.compact(k, ms).Some? && WellPaired(ms) :: WellPaired(env.compact(k, ms).value)
  }

  /** Compaction keeps orderly transcripts orderly, as the sliding window does. */
  ghost predicate KeepsOrder(env: Environment) {
    forall k, ms | env.compact(k, ms).Some? && Orderly(ms) :: Orderly(env.compact(k, ms).value)
  }

  /** Compaction keeps unblocked transcripts so, as every tiered strategy does. */
  ghost predicate KeepsUnblocked(env: Environment) {
    forall k, ms | env.compact(k, ms).Some? && Unblocked(ms) :: Unblocked(env.compact(k, ms).value)
  }

  /** Compaction invents no call and doubles none, as no strategy that drops messages does. */
  ghost predicate KeepsUnique(env: Environment) {
    forall k, ms | env.compact(k, ms).Some? ::
      && NoNewCalls(ms, env.compact(k, ms).value)
      && (UniqueCalls(ms) ==> UniqueCalls(env.compact(k, ms).value))
  }

  ghost predicate NoNewCalls(ms: seq<Message>, ms': seq<Message>) {
    forall id | id in CallIds(ms', |ms'|) :: id in CallIds(ms, |ms|)
  }

  ghost predicate MadeBelow(id: string, counter: nat) {
    exists k: nat :: k < counter && id == FreshId.FormatId(FreshId.CALL_PREFIX, k)
  }

  /** Every call of the transcript was there before, or got its identifier from a number below the counter. */
  ghost predicate Traced(ms0: seq<Message>, ms: seq<Message>, counter: nat) {
    forall id | id in CallIds(ms, |ms|) :: id in CallIds(ms0, |ms0|) || MadeBelow(id, counter)
  }

  /** How the transcript stands to what it was when the inference began. */
  ghost predicate Coherent(env: Environment, ms0: seq<Message>, from: nat, ms: seq<Message>, to: nat,
                           persisted: seq<Message>, numbers: seq<nat>) {
    && WellPaired(persisted) && Regular(persisted)
    && Numbered(CallIds(persisted, |persisted|), numbers, from, to)
    && (NeverCompacts(env) ==>
          ms == ms0 + persisted && forall id | id in CallIds(persisted, |persisted|) :: !Mentions(ms0, id))
    && (KeepsPairing(env) && WellPaired(ms0) ==> WellPaired(ms))
    && (KeepsOrder(env) && Orderly(ms0) ==> Orderly(ms))
    && (KeepsUnblocked(env) && Unblocked(ms0) && NoNudgeAnswers(persisted, |persisted|) ==> Unblocked(ms))
    && (KeepsUnique(env) && UniqueCalls(ms0) ==> UniqueCalls(ms))
    && from <= to
    && (KeepsUnique(env) ==> Traced(ms0, ms, to))
  }

  lemma CoherentAtFirst(env: Environment, ms0: seq<Message>, from: nat)
    ensures Coherent(env, ms0, from, ms0, from, [], [])
  {
    hide KeepsPairing, KeepsOrder, KeepsUnblocked, KeepsUnique, Orderly, UniqueCalls, MadeBelow, Mentions;
    assert ms0 + [] == ms0;
  }

  lemma CoherentCompacted(env: Environment, ms0: seq<Message>, from: nat, ms: seq<Message>, to: nat,
                          persisted: seq<Message>, numbers: seq<nat>, k: nat)
    requires Coherent(env, ms0, from, ms, to, persisted, numbers) && env.compact(k, ms).Some?
    ensures Coherent(env, ms0, from, env.compact(k, ms).value, to, persisted, numbers)
  {
    hide WellPaired, UniqueCalls, CallIds, Mentions, Numbered, MadeBelow, Orderly, Unblocked, NoNudgeAnswers, Regular;
  }

  lemma TracedExtended(ms0: seq<Message>, ms: seq<Message>, mid: nat, added: seq<Message>, n: seq<nat>, to: nat)
    requires Traced(ms0, ms, mid) && Numbered(CallIds(added, |added|), n, mid, to)
    ensures Traced(ms0, ms + added, to)
  {
    hide FreshId.FormatId, CallIds;
    CallIdsConcat(ms, added, |added|);
    var ids := CallIds(added, |added|);
    forall id | id in CallIds(ms + added, |ms + added|) && id !in CallIds(ms0, |ms0|) ensures MadeBelow(id, to) {
      if id in CallIds(ms, |ms|) {
        assert MadeBelow(id, mid);
      } else {
        var i :| 0 <= i < |ids| && ids[i] == id;
        assert n[i] < to;
      }
    }
  }

  lemma NumberedConcat(a: seq<string>, m: seq<nat>, b: seq<string>, n: seq<nat>, from: nat, mid: nat, to: nat)
    requires Numbered(a, m, from, mid) && Numbered(b, n, mid, to)
    ensures Numbered(a + b, m + n, from, to)
  {
    hide FreshId.FormatId;
  }

  lemma CoherentExtended(env: Environment, ms0: seq<Message>, from: nat, ms: seq<Message>, mid: nat,
                         persisted: seq<Message>, m: seq<nat>, added: seq<Message>, n: seq<nat>, to: nat)
    requires Coherent(env, ms0, from, ms, mid, persisted, m) && WholeGroups(ms, added, n, mid, to)
    ensures Coherent(env, ms0, from, ms + added, to, persisted + added, m + n)
  {
    hide WellPaired, UniqueCalls, CallIds, Mentions, Numbered, NeverCompacts, KeepsPairing, KeepsOrder, KeepsUnblocked,
         KeepsUnique, Orderly, Regular, Traced, NoNudgeAnswers;
    NoNudgeAnswersConcat(persisted, added);
    NoNudgeAnswersConcat(ms, added);
    if KeepsUnique(env) {
      TracedExtended(ms0, ms, mid, added, n, to);
    }
    RegularConcat(persisted, added);
    NumberedRange(CallIds(added, |added|), n, mid, to);
    WellPairedConcat(persisted, added);
    var a, b := CallIds(persisted, |persisted|), CallIds(added, |added|);
    CallIdsConcat(persisted, added, |added|);
    NumberedConcat(a, m, b, n, from, mid, to);
    if NeverCompacts(env) {
      assert ms0 + (persisted + added) == ms + added;
      forall id | id in a + b ensures !Mentions(ms0, id) {
        MentionsConcat(ms0, persisted, id);
      }
    }
    if KeepsPairing(env) && WellPaired(ms0) {
      WellPairedConcat(ms, added);
    }
    if Orderly(ms) {
      OrderlyExtended(ms, added);
    }
    if KeepsUnique(env) && UniqueCalls(ms0) {
      NumberedAreUnique(added, n, mid, to);
      forall id | id in b ensures id !in CallIds(ms, |ms|) {
        NotMentionedNotCalled(ms, id);
      }
      UniqueConcat(ms, added);
    }
  }

  lemma NotMentionedNotCalled(ms: seq<Message>, id: string)
    requires !Mentions(ms, id)
    ensures id !in CallIds(ms, |ms|)
  {
    if id in CallIds(ms, |ms|) {
      CallIdsAreMentioned(ms, |ms|, id);
    }
  }

  lemma NumberedRange(ids: seq<string>, numbers: seq<nat>, from: nat, to: nat)
    requires Numbered(ids, numbers, from, to)
    ensures from <= to
  {
  }

  lemma {:induction false} NumberedAreUnique(ms: seq<Message>, numbers: seq<nat>, from: nat, to: nat)
    requires Numbered(CallIds(ms, |ms|), numbers, from, to)
    ensures UniqueCalls(ms)
  {
    hide CallIds;
    NumberedAreDistinct(CallIds(ms, |ms|), numbers, from, to);
  }

  // ---------- the transcripts of a run ----------

  /** What compaction before the `k`-th request makes of the transcript. */
  function Prepared(env: Environment, k: nat, ms: seq<Message>): seq<Message> {
    if env.compact(k, ms).Some? then env.compact(k, ms).value else ms
  }

  /** The transcript as it stands when request `start + i` has gone out, or at first. */
  function Sent(env: Environment, start: nat, ms0: seq<Message>, asked: seq<seq<Message>>, i: nat): seq<Message>
    requires i <= |asked|
  {
    if i == 0 then ms0 else Prepared(env, start + i - 1, asked[i - 1])
  }

  /** Between request `start + i - 1` and the next, or the end, the transcript grows by whole groups. */
  ghost predicate Grows(env: Environment, start: nat, ms0: seq<Message>, asked: seq<seq<Message>>, ms: seq<Message>,
                        i: nat)
    requires i <= |asked|
  {
    Extends(Sent(env, start, ms0, asked, i), if i == |asked| then ms else asked[i])
  }

  /** How it got from `ms0` to `ms` over the requests from `start` on, the transcript before each being `asked`: what
      comes between is whole groups alone. */
  ghost predicate Asked(env: Environment, start: nat, ms0: seq<Message>, asked: seq<seq<Message>>, ms: seq<Message>) {
    forall i | 0 <= i <= |asked| :: Grows(env, start, ms0, asked, ms, i)
  }

  lemma NothingAsked(env: Environment, start: nat, ms: seq<Message>)
    ensures Asked(env, start, ms, [], ms)
  {
    ExtendsItself(ms);
  }

  lemma AskedNext(env: Environment, start: nat, ms0: seq<Message>, asked: seq<seq<Message>>, ms: seq<Message>)
    requires Asked(env, start, ms0, asked, ms)
    ensures Asked(env, start, ms0, asked + [ms], Prepared(env, start + |asked|, ms))
  {
    var all, last := asked + [ms], Prepared(env, start + |asked|, ms);
    ExtendsItself(last);
    hide Extends, Prepared;
    forall i | 0 <= i <= |all| ensures Grows(env, start, ms0, all, last, i) {
      if i < |all| {
        assert Grows(env, start, ms0, asked, ms, i);
      }
    }
  }

  lemma AskedExtended(env: Environment, start: nat, ms0: seq<Message>, asked: seq<seq<Message>>, ms: seq<Message>,
                      ms': seq<Message>)
    requires Asked(env, start, ms0, asked, ms) && Extends(ms, ms')
    ensures Asked(env, start, ms0, asked, ms')
  {
    hide Extends, Prepared;
    forall i | 0 <= i <= |asked| ensures Grows(env, start, ms0, asked, ms', i) {
      assert Grows(env, start, ms0, asked, ms, i);
      if i == |asked| {
        ExtendsTwice(Sent(env, start, ms0, asked, i), ms, ms');
      }
    }
  }

  lemma AskedConcat(env: Environment, ms0: seq<Message>, a: seq<seq<Message>>, ms: seq<Message>,
                    b: seq<seq<Message>>, ms': seq<Message>)
    requires Asked(env, 0, ms0, a, ms) && Asked(env, |a|, ms, b, ms')
    ensures Asked(env, 0, ms0, a + b, ms')
  {
    hide Extends, Prepared;
    forall i | 0 <= i <= |a + b| ensures Grows(env, 0, ms0, a + b, ms', i) {
      if i <= |a| {
        assert Grows(env, 0, ms0, a, ms, i);
      }
      if i >= |a| {
        assert Grows(env, |a|, ms, b, ms', i - |a|);
      }
      if i == |a| {
        ExtendsTwice(Sent(env, 0, ms0, a, i), ms, if b == [] then ms' else b[0]);
      }
    }
  }

  // ---------- the loop ----------

  predicate RejectedReply(env: Environment, validator: V.Validator, k: nat) {
    env.reply(k).Some? && V.Validate(validator, env.reply(k).value).Err?
  }

  predicate AcceptedReply(env: Environment, validator: V.Validator, k: nat) {
    env.reply(k).Some? && V.Validate(validator, env.reply(k).value).Ok?
  }

  function StripIds(calls: seq<ToolCall>): seq<ToolCall> {
    seq(|calls|, i requires 0 <= i < |calls| => calls[i].(id := None))
  }

  /** `max_retries` plus one, saturating, and no more than the caller allows. */
  function AttemptLimit(maxRetries: int, maxAttempts: Option<int>): int {
    var retryLimit := if maxRetries >= I32_MAX then I32_MAX else maxRetries + 1;
    var allowed := if maxAttempts.Some? then maxAttempts.value else I32_MAX;
    if retryLimit <= allowed then retryLimit else allowed
  }

  /** The caller allows as many attempts as it takes to exhaust the retries. */
  predicate FullBudget(maxRetries: int, maxAttempts: Option<int>) {
    0 <= maxRetries < I32_MAX && (maxAttempts.Some? ==> maxAttempts.value >= maxRetries + 1)
  }

  datatype Inferred =
    | Accepted(calls: seq<ToolCall>, newMessages: seq<Message>, attempts: int)
    | NoneLeft
    | RetriesExhausted
    | BackendFailed

  /** Compaction replaces the transcript, and a due warning joins the new messages only. */
  method PrepareRequest(conv: Conversation, env: Environment, k: nat, newMessages: seq<Message>,
                        ghost ms0: seq<Message>, ghost from: nat, ghost numbers: seq<nat>)
    returns (newMessages': seq<Message>)
    requires Coherent(env, ms0, from, conv.messages, conv.counter, Persisted(newMessages, |newMessages|), numbers)
    modifies conv`messages
    ensures Coherent(env, ms0, from, conv.messages, conv.counter, Persisted(newMessages', |newMessages'|), numbers)
    ensures conv.messages == Prepared(env, k, old(conv.messages))
    ensures newMessages'
            == newMessages + (var w := env.warning(k, conv.messages); if w.Some? then [WarningMessage(w.value)] else [])
  {
    hide Coherent, Persisted;
    var compacted := env.compact(k, conv.messages);
    if compacted.Some? {
      CoherentCompacted(env, ms0, from, conv.messages, conv.counter, Persisted(newMessages, |newMessages|), numbers, k);
      conv.messages := compacted.value;
    }
    newMessages' := newMessages;
    var warning := env.warning(k, conv.messages);
    if warning.Some? {
      PersistedWarning(newMessages, warning.value);
      newMessages' := newMessages + [WarningMessage(warning.value)];
    }
  }

  lemma WholeGroupsExtend(before: seq<Message>, added: seq<Message>, numbers: seq<nat>, from: nat, to: nat)
    requires WholeGroups(before, added, numbers, from, to)
    ensures Extends(before, before + added)
  {
    hide WellPaired, Regular, Extends;
    ExtendsBy(before, added);
  }

  method RejectReply(conv: Conversation, env: Environment, reply: LLMResponse, why: V.Rejection, step: int,
                     newMessages: seq<Message>, ghost ms0: seq<Message>, ghost from: nat, ghost numbers: seq<nat>)
    returns (newMessages': seq<Message>, infos: seq<CallInfo>, ghost numbers': seq<nat>)
    requires Coherent(env, ms0, from, conv.messages, conv.counter, Persisted(newMessages, |newMessages|), numbers)
    modifies conv
    ensures Coherent(env, ms0, from, conv.messages, conv.counter, Persisted(newMessages', |newMessages'|), numbers')
    ensures newMessages' == newMessages + Rejected(reply, why, env.nudge(why), step, infos)
    ensures reply.ToolCalls? ==> NamesMatch(infos, reply.calls)
    ensures Extends(old(conv.messages), conv.messages)
  {
    hide Coherent, Persisted, WholeGroups, Rejected, Extends;
    ghost var before, mid := conv.messages, conv.counter;
    var added: seq<Message>;
    ghost var n;
    added, infos, n := EmitRejection(conv, reply, why, env.nudge(why), step);
    CoherentExtended(env, ms0, from, before, mid, Persisted(newMessages, |newMessages|), numbers, added, n,
                     conv.counter);
    AddedPersists(newMessages, before, added, n, mid, conv.counter);
    WholeGroupsExtend(before, added, n, mid, conv.counter);
    newMessages', numbers' := newMessages + added, numbers + n;
  }

  /** What happened at one attempt: the warning shown, and the identifiers given to the calls it rejected. */
  datatype Note = Note(warning: Option<string>, infos: seq<CallInfo>)

  /** The new messages of the first `n` attempts: each one's warning, then what its rejection adds. */
  function Written(env: Environment, validator: V.Validator, start: nat, step: int, notes: seq<Note>,
                   n: nat): seq<Message>
    requires n <= |notes|
  {
    if n == 0 then []
    else
      Written(env, validator, start, step, notes, n - 1)
      + WrittenAt(env, validator, start + n - 1, step, notes[n - 1])
  }

  function WarningPart(w: Option<string>): seq<Message> {
    if w.Some? then [WarningMessage(w.value)] else []
  }

  function WrittenAt(env: Environment, validator: V.Validator, k: nat, step: int, note: Note): seq<Message> {
    WarningPart(note.warning)
    + if RejectedReply(env, validator, k) then
        var why := V.Validate(validator, env.reply(k).value).error;
        Rejected(env.reply(k).value, why, env.nudge(why), step, note.infos)
      else []
  }

  lemma {:induction false} WrittenPrefix(env: Environment, validator: V.Validator, start: nat, step: int,
                                         notes: seq<Note>, note: Note, n: nat)
    requires n <= |notes|
    ensures Written(env, validator, start, step, notes + [note], n) == Written(env, validator, start, step, notes, n)
  {
    hide WrittenAt;
    if n > 0 {
      WrittenPrefix(env, validator, start, step, notes, note, n - 1);
    }
  }

  lemma WrittenNext(env: Environment, validator: V.Validator, start: nat, step: int, notes: seq<Note>, note: Note)
    ensures Written(env, validator, start, step, notes + [note], |notes| + 1)
            == Written(env, validator, start, step, notes, |notes|)
                + WrittenAt(env, validator, start + |notes|, step, note)
  {
    hide WrittenAt;
    WrittenPrefix(env, validator, start, step, notes, note, |notes|);
  }

  /** The identifiers noted for a rejected batch belong to its calls, one each. */
  predicate NoteMatches(env: Environment, validator: V.Validator, k: nat, note: Note) {
    RejectedReply(env, validator, k) && env.reply(k).value.ToolCalls? ==>
        NamesMatch(note.infos, env.reply(k).value.calls)
  }

  /** The new messages are exactly what the noted attempts write. */
  predicate Recorded(env: Environment, validator: V.Validator, start: nat, step: int, notes: seq<Note>,
                     newMessages: seq<Message>) {
    && newMessages == Written(env, validator, start, step, notes, |notes|)
    && forall i | 0 <= i < |notes| :: NoteMatches(env, validator, start + i, notes[i])
  }

  lemma RecordedNothing(env: Environment, validator: V.Validator, start: nat, step: int)
    ensures Recorded(env, validator, start, step, [], [])
  {
  }

  lemma RecordedNext(env: Environment, validator: V.Validator, start: nat, step: int, notes: seq<Note>,
                     before: seq<Message>, note: Note)
    requires Recorded(env, validator, start, step, notes, before)
    requires NoteMatches(env, validator, start + |notes|, note)
    ensures Recorded(env, validator, start, step, notes + [note], before
                     + WrittenAt(env, validator, start + |notes|, step, note))
  {
    hide WrittenAt, NoteMatches, Written;
    WrittenNext(env, validator, start, step, notes, note);
    assert (notes + [note])[|notes|] == note;
    assert forall i | 0 <= i < |notes| :: (notes + [note])[i] == notes[i];
  }

  lemma RecordedLast(env: Environment, validator: V.Validator, start: nat, step: int, notes: seq<Note>,
                     before: seq<Message>, w: Option<string>)
    requires Recorded(env, validator, start, step, notes, before) && !RejectedReply(env, validator, start + |notes|)
    ensures Recorded(env, validator, start, step, notes + [Note(w, [])], before + WarningPart(w))
  {
    hide Recorded;
    RecordedNext(env, validator, start, step, notes, before, Note(w, []));
    assert WarningPart(w) + [] == WarningPart(w);
  }

  lemma RecordedRejection(env: Environment, validator: V.Validator, start: nat, step: int, notes: seq<Note>,
                          before: seq<Message>, w: Option<string>, infos: seq<CallInfo>)
    requires Recorded(env, validator, start, step, notes, before) && RejectedReply(env, validator, start + |notes|)
    requires NoteMatches(env, validator, start + |notes|, Note(w, infos))
    ensures var reply := env.reply(start + |notes|).value;
            var why := V.Validate(validator, reply).error;
            Recorded(env, validator, start, step, notes + [Note(w, infos)],
                     before + WarningPart(w) + Rejected(reply, why, env.nudge(why), step, infos))
  {
    hide Recorded, Rejected, V.Validate, NoteMatches;
    RecordedNext(env, validator, start, step, notes, before, Note(w, infos));
    var reply := env.reply(start + |notes|).value;
    var why := V.Validate(validator, reply).error;
    var group := Rejected(reply, why, env.nudge(why), step, infos);
    assert before + (WarningPart(w) + group) == before + WarningPart(w) + group;
  }

  /** The transcript after an inference, spelt out. Without compaction it is the old one followed by the new messages
      less the warnings; every call identifier the inference assigned is new to the transcript and no two are equal;
      and the added messages pair every call with its own results. */
  lemma {:induction false} NewMessagesAreWellFormed(env: Environment, ms0: seq<Message>, from: nat, ms: seq<Message>,
                                                    to: nat, persisted: seq<Message>, numbers: seq<nat>)
    requires Coherent(env, ms0, from, ms, to, persisted, numbers)
    ensures WellPaired(persisted) && UniqueCalls(persisted)
    ensures NeverCompacts(env) ==> ms == ms0 + persisted
    ensures NeverCompacts(env) ==> forall id | id in CallIds(persisted, |persisted|) :: !Mentions(ms0, id)
    ensures KeepsPairing(env) && WellPaired(ms0) ==> WellPaired(ms)
    ensures KeepsOrder(env) && Orderly(ms0) ==> Orderly(ms)
    ensures KeepsUnblocked(env) && Unblocked(ms0) && NoNudgeAnswers(persisted, |persisted|) ==> Unblocked(ms)
    ensures KeepsUnique(env) && UniqueCalls(ms0) ==> UniqueCalls(ms)
    ensures KeepsUnique(env) ==> Traced(ms0, ms, to)
  {
    hide WellPaired, CallIds, Mentions, Numbered, UniqueCalls;
    NumberedAreUnique(persisted, numbers, from, to);
  }

  /** `made` counts the requests sent to the model; request `start + i` is the `i`-th of them. */
  method RunInference(conv: Conversation, tracker: ErrorTracker.ErrorTracker, validator: V.Validator, env: Environment,
                      start: nat, step: int, maxAttempts: Option<int>)
    returns (r: Inferred, made: nat, newMessages: seq<Message>, ghost numbers: seq<nat>, ghost notes: seq<Note>,
             ghost asked: seq<seq<Message>>)
    modifies conv, tracker
    ensures made <= AttemptLimit(tracker.maxRetries, maxAttempts) || made == 0
    ensures forall k | start <= k < start + made - 1 :: RejectedReply(env, validator, k)
    ensures r.Accepted? ==> made >= 1 && r.attempts == made && r.newMessages == newMessages
    ensures r.Accepted? ==> AcceptedReply(env, validator, start + made - 1)
    ensures r.Accepted? ==> r.calls == StripIds(V.Validate(validator, env.reply(start + made - 1).value).value)
    // the calls that passed, without identifiers of their own
    ensures r.Accepted? ==>
              var calls := V.Validate(validator, env.reply(start + made - 1).value).value;
              && |r.calls| == |calls|
              && forall i | 0 <= i < |calls| ::
                   r.calls[i] == ToolCall.ToolCall(calls[i].tool, calls[i].args, calls[i].reasoning, None)
    ensures r.Accepted? ==> tracker.retries == 0
    ensures made >= 2 ==> old(tracker.retries) + made - 1 <= tracker.maxRetries
    ensures r.NoneLeft? ==> made >= AttemptLimit(tracker.maxRetries, maxAttempts)
    ensures r.NoneLeft? ==>
              tracker.retries == old(tracker.retries) + made && (made > 0 ==> tracker.retries <= tracker.maxRetries)
    ensures r.NoneLeft? && made > 0 ==> RejectedReply(env, validator, start + made - 1)
    ensures r.NoneLeft? ==> !FullBudget(tracker.maxRetries, maxAttempts) || old(tracker.retries) < 0
    ensures r.RetriesExhausted? ==> made >= 1 && RejectedReply(env, validator, start + made - 1)
    ensures r.RetriesExhausted? ==> tracker.retries == old(tracker.retries) + made > tracker.maxRetries
    ensures r.BackendFailed? ==>
              made >= 1 && env.reply(start + made - 1).None? && tracker.retries == old(tracker.retries) + made - 1
    ensures tracker.toolErrors == old(tracker.toolErrors)
    ensures Coherent(env, old(conv.messages), old(conv.counter), conv.messages, conv.counter,
                     Persisted(newMessages, |newMessages|), numbers)
    ensures var persisted, ms0 := Persisted(newMessages, |newMessages|), old(conv.messages);
            && WellPaired(persisted) && UniqueCalls(persisted)
            && (NeverCompacts(env) ==>
                  && conv.messages == ms0 + persisted
                  && forall id | id in CallIds(persisted, |persisted|) :: !Mentions(ms0, id))
            && (KeepsPairing(env) && WellPaired(ms0) ==> WellPaired(conv.messages))
            && (KeepsOrder(env) && Orderly(ms0) ==> Orderly(conv.messages))
            && (KeepsUnblocked(env) && Unblocked(ms0) && NoNudgeAnswers(persisted, |persisted|) ==>
                  Unblocked(conv.messages))
            && (KeepsUnique(env) && UniqueCalls(ms0) ==> UniqueCalls(conv.messages))
    ensures !r.RetriesExhausted? ==> |notes| == made && Recorded(env, validator, start, step, notes, newMessages)
    ensures |asked| == made && Asked(env, start, old(conv.messages), asked, conv.messages)
  {
    hide Coherent, Persisted, V.Validate, Recorded, Rejected, NoteMatches, WarningPart, WellPaired, UniqueCalls,
         CallIds, Mentions, NeverCompacts, KeepsPairing, KeepsOrder, KeepsUnblocked, KeepsUnique, Orderly, Unblocked,
         NoNudgeAnswers, Traced, Asked, Extends;
    newMessages, numbers, notes, asked := [], [], [], [];
    NothingAsked(env, start, conv.messages);
    RecordedNothing(env, validator, start, step);
    made := 0;
    var limit := AttemptLimit(tracker.maxRetries, maxAttempts);
    PersistedNothing();
    CoherentAtFirst(env, conv.messages, conv.counter);
    while made < limit
      invariant made <= limit || made == 0
      invariant tracker.retries == old(tracker.retries) + made && (made > 0 ==> tracker.retries <= tracker.maxRetries)
      invariant tracker.toolErrors == old(tracker.toolErrors)
      invariant forall k | start <= k < start + made :: RejectedReply(env, validator, k)
      invariant Coherent(env, old(conv.messages), old(conv.counter), conv.messages, conv.counter,
                         Persisted(newMessages, |newMessages|), numbers)
      invariant |notes| == made && Recorded(env, validator, start, step, notes, newMessages)
      invariant |asked| == made && Asked(env, start, old(conv.messages), asked, conv.messages)
    {
      var k := start + made;
      ghost var before := newMessages;
      made := made + 1;
      AskedNext(env, start, old(conv.messages), asked, conv.messages);
      asked := asked + [conv.messages];
      newMessages := PrepareRequest(conv, env, k, newMessages, old(conv.messages), old(conv.counter), numbers);
      ghost var warning := env.warning(k, conv.messages);
      assert newMessages == before + WarningPart(warning) by { WarningPartIs(warning); }
      var reply := env.reply(k);
      if reply.None? {
        RecordedLast(env, validator, start, step, notes, before, warning);
        notes := notes + [Note(warning, [])];
        NewMessagesAreWellFormed(env, old(conv.messages), old(conv.counter), conv.messages, conv.counter,
                                 Persisted(newMessages, |newMessages|), numbers);
        return BackendFailed, made, newMessages, numbers, notes, asked;
      }
      var validation := V.Validate(validator, reply.value);
      if validation.Ok? {
        tracker.ResetRetries();
        RecordedLast(env, validator, start, step, notes, before, warning);
        notes := notes + [Note(warning, [])];
        NewMessagesAreWellFormed(env, old(conv.messages), old(conv.counter), conv.messages, conv.counter,
                                 Persisted(newMessages, |newMessages|), numbers);
        return Accepted(StripIds(validation.value), newMessages, made), made, newMessages, numbers, notes, asked;
      }
      tracker.RecordRetry();
      assert RejectedReply(env, validator, k);
      if tracker.RetriesExhausted() {
        NewMessagesAreWellFormed(env, old(conv.messages), old(conv.counter), conv.messages, conv.counter,
                                 Persisted(newMessages, |newMessages|), numbers);
        return RetriesExhausted, made, newMessages, numbers, notes, asked;
      }
      var infos: seq<CallInfo>;
      ghost var sent := conv.messages;
      newMessages, infos, numbers := RejectReply(conv, env, reply.value, validation.error, step, newMessages,
                                                 old(conv.messages), old(conv.counter), numbers);
      AskedExtended(env, start, old(conv.messages), asked, sent, conv.messages);
      NoteOf(env, validator, k, warning, infos);
      RecordedRejection(env, validator, start, step, notes, before, warning, infos);
      notes := notes + [Note(warning, infos)];
    }
    NewMessagesAreWellFormed(env, old(conv.messages), old(conv.counter), conv.messages, conv.counter,
                             Persisted(newMessages, |newMessages|), numbers);
    r := NoneLeft;
  }

  lemma WarningPartIs(w: Option<string>)
    ensures WarningPart(w) == if w.Some? then [WarningMessage(w.value)] else []
  {
  }

  lemma NoteOf(env: Environment, validator: V.Validator, k: nat, warning: Option<string>, infos: seq<CallInfo>)
    requires env.reply(k).Some? && (env.reply(k).value.ToolCalls? ==> NamesMatch(infos, env.reply(k).value.calls))
    ensures NoteMatches(env, validator, k, Note(warning, infos))
  {
  }

  lemma PersistedNothing()
    ensures Persisted([], 0) == []
  {
  }

  lemma AddedPersists(newMessages: seq<Message>, before: seq<Message>, added: seq<Message>, n: seq<nat>, mid: nat,
                      to: nat)
    requires WholeGroups(before, added, n, mid, to)
    ensures Persisted(newMessages + added, |newMessages + added|) == Persisted(newMessages, |newMessages|) + added
  {
    hide WellPaired, CallIds, Numbered, Mentions, Persisted;
    PersistedConcat(newMessages, added, |added|);
    assert added[..|added|] == added;
  }
}
