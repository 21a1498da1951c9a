/** The outbound normaliser read off the positions of the transcript: which calls and results there are, which result
    answers which call, and what every message becomes. */
module CallPlaces {
  import opened Wrappers
  import opened FreshId
  import opened Flatten
  import opened CallIds

  // ---------- calls and results by position ----------

  /** The calls an assistant message makes. */
  function CallsOf(m: Message): seq<Call> {
    if m.role == "assistant" && m.calls.Some? then m.calls.value else []
  }

  predicate CallOn(call: Call, r: string) {
    call.ObjectCall? && call.id == Text(r) && r != ""
  }

  predicate ResultOn(m: Message, r: string) {
    m.role == "tool" && m.toolCallId == Text(r)
  }

  /** How many of the first `n` calls carry `r`. */
  function CallsIn(calls: seq<Call>, r: string, n: nat): nat
    requires n <= |calls|
  {
    if n == 0 then 0 else CallsIn(calls, r, n - 1) + if CallOn(calls[n - 1], r) then 1 else 0
  }

  /** How many calls in the first `n` messages carry `r`. */
  function CallsBefore(ms: seq<Message>, r: string, n: nat): nat
    requires n <= |ms|
  {
    if n == 0 then 0
    else CallsBefore(ms, r, n - 1) + CallsIn(CallsOf(ms[n - 1]), r, |CallsOf(ms[n - 1])|)
  }

  /** How many results on `r` in the first `n` messages found a call that none before had taken. */
  function AnsweredBefore(ms: seq<Message>, r: string, n: nat): nat
    requires n <= |ms|
    decreases n, 0
  {
    if n == 0 then 0 else AnsweredBefore(ms, r, n - 1) + if Finds(ms, n - 1, r) then 1 else 0
  }

  /** Message `i` is a result on `r`, and some earlier call on `r` still waits for its result. */
  predicate Finds(ms: seq<Message>, i: nat, r: string)
    requires i < |ms|
    decreases i, 1
  {
    ResultOn(ms[i], r) && AnsweredBefore(ms, r, i) < CallsBefore(ms, r, i)
  }

  predicate Orphan(ms: seq<Message>, i: nat)
    requires i < |ms|
  {
    ms[i].role == "tool" && ms[i].toolCallId.Text? && !Finds(ms, i, ms[i].toolCallId.s)
  }

  /** How many calls and orphan results there are in the first `n` messages. */
  function NumbersBefore(ms: seq<Message>, n: nat): nat
    requires n <= |ms|
  {
    if n == 0 then 0
    else NumbersBefore(ms, n - 1) + |CallsOf(ms[n - 1])| + if Orphan(ms, n - 1) then 1 else 0
  }

  /** Call `b` of message `a` is the `j`-th call, counted from 0, that carries `r`. */
  predicate NthCallAt(ms: seq<Message>, r: string, j: nat, a: nat, b: nat) {
    && a < |ms| && b < |CallsOf(ms[a])| && CallOn(CallsOf(ms[a])[b], r)
    && CallsBefore(ms, r, a) + CallsIn(CallsOf(ms[a]), r, b) == j
  }

  // ---------- positions and events ----------

  lemma {:induction false} PartIs(m: Message)
    ensures CallsOf(m) != [] ==> EventsOf(m) == CallEvents(CallsOf(m))
    ensures |EventsOf(m)| == |CallsOf(m)| + if m.role == "tool" && m.toolCallId.Text? then 1 else 0
    ensures m.role == "tool" && m.toolCallId.Text? ==> CallsOf(m) == [] && EventsOf(m) == [ResultEvent(m.toolCallId.s)]
  {
  }

  lemma {:induction false} CallEventIs(call: Call, r: string)
    ensures IsCallOn(r, CallEvent(call.ObjectCall?, call.Raw())) <==> CallOn(call, r)
  {
  }

  /** Where the events of message `i` are among all events. */
  lemma {:induction false} PlaceIs(ms: seq<Message>, i: nat)
    requires i < |ms|
    ensures var at := Offset(Parts(ms), i);
            && at + |EventsOf(ms[i])| == Offset(Parts(ms), i + 1) <= |Events(ms)|
            && forall b | 0 <= b < |EventsOf(ms[i])| :: Events(ms)[at + b] == EventsOf(ms[i])[b]
  {
    var parts := Parts(ms);
    PartOf(parts, i, |ms|);
    var at := Offset(parts, i);
    assert parts[i] == EventsOf(ms[i]) && Events(ms) == UpTo(parts, |ms|);
    hide *;
    forall b | 0 <= b < |EventsOf(ms[i])| ensures Events(ms)[at + b] == EventsOf(ms[i])[b] {
      assert Events(ms)[at..at + |parts[i]|][b] == parts[i][b];
    }
  }

  lemma {:induction false} CallAt(ms: seq<Message>, a: nat, b: nat)
    requires a < |ms| && b < |CallsOf(ms[a])|
    ensures var e, call := Offset(Parts(ms), a) + b, CallsOf(ms[a])[b];
            e < |Events(ms)| && Events(ms)[e] == CallEvent(call.ObjectCall?, call.Raw())
  {
    hide Offset, Events, EventsOf, CallsOf;
    PlaceIs(ms, a);
    PartIs(ms[a]);
    assert Events(ms)[Offset(Parts(ms), a) + b] == EventsOf(ms[a])[b] == CallEvents(CallsOf(ms[a]))[b];
  }

  lemma {:induction false} ResultAt(ms: seq<Message>, i: nat)
    requires i < |ms| && ms[i].role == "tool" && ms[i].toolCallId.Text?
    ensures var e := Offset(Parts(ms), i);
            e < |Events(ms)| && Events(ms)[e] == ResultEvent(ms[i].toolCallId.s)
    ensures CallsOf(ms[i]) == [] && Offset(Parts(ms), i + 1) == Offset(Parts(ms), i) + 1
  {
    PlaceIs(ms, i);
    PartIs(ms[i]);
    hide Offset, Events, EventsOf, CallsOf;
    assert Events(ms)[Offset(Parts(ms), i) + 0] == EventsOf(ms[i])[0];
  }

  lemma {:induction false} Bounds(ms: seq<Message>, i: nat)
    requires i < |ms|
    ensures Offset(Parts(ms), i) + |CallsOf(ms[i])| <= Offset(Parts(ms), i + 1) <= |Events(ms)|
    ensures !(ms[i].role == "tool" && ms[i].toolCallId.Text?) ==>
              Offset(Parts(ms), i) + |CallsOf(ms[i])| == Offset(Parts(ms), i + 1)
    ensures Offset(Parts(ms), 0) == 0
  {
    PlaceIs(ms, i);
    PartIs(ms[i]);
    hide Events, EventsOf, CallsOf;
  }

  /** What one event adds to the counts. */
  lemma {:induction false} EventCounts(evs: seq<Event>, e: nat, r: string)
    requires e < |evs|
    ensures CallsOn(r, evs, e + 1) == CallsOn(r, evs, e) + (if IsCallOn(r, evs[e]) then 1 else 0)
    ensures PairedOn(r, evs, e + 1) == PairedOn(r, evs, e)
            + (if evs[e] == ResultEvent(r) && PairedOn(r, evs, e) < CallsOn(r, evs, e) then 1 else 0)
    ensures Drawn(evs, e + 1) == Drawn(evs, e) + (if IsPaired(evs, e) then 0 else 1)
  {
    CountsStep(r, evs, e);
    AfterStep(evs, e);
  }

  /** What has been counted up to call `b` of message `a`. */
  lemma {:induction false} CountsWithin(ms: seq<Message>, r: string, a: nat, b: nat)
    requires a < |ms| && b <= |CallsOf(ms[a])|
    ensures var at, evs := Offset(Parts(ms), a), Events(ms);
            && at + b <= |evs|
            && CallsOn(r, evs, at + b) == CallsOn(r, evs, at) + CallsIn(CallsOf(ms[a]), r, b)
            && PairedOn(r, evs, at + b) == PairedOn(r, evs, at)
            && Drawn(evs, at + b) == Drawn(evs, at) + b
  {
    hide Offset, Events, EventsOf, CallsOf, CallsOn, PairedOn, Drawn;
    Bounds(ms, a);
    if b > 0 {
      CountsWithin(ms, r, a, b - 1);
      CallAt(ms, a, b - 1);
      CallEventIs(CallsOf(ms[a])[b - 1], r);
      EventCounts(Events(ms), Offset(Parts(ms), a) + (b - 1), r);
      hide CallOn, IsCallOn;
    }
  }

  lemma {:induction false} CountNothing(evs: seq<Event>, r: string)
    ensures CallsOn(r, evs, 0) == PairedOn(r, evs, 0) == Drawn(evs, 0) == 0
  {
  }

  lemma {:induction false} CountsUpTo(ms: seq<Message>, r: string, n: nat)
    requires n <= |ms|
    ensures var at, evs := Offset(Parts(ms), n), Events(ms);
            && at <= |evs|
            && CallsOn(r, evs, at) == CallsBefore(ms, r, n) && PairedOn(r, evs, at) == AnsweredBefore(ms, r, n)
            && Drawn(evs, at) == NumbersBefore(ms, n)
    decreases n
  {
    hide Events, EventsOf, CallsOf, CallsIn, CallsOn, PairedOn, Drawn;
    if n == 0 {
      CountNothing(Events(ms), r);
    } else {
      var m := ms[n - 1];
      CountsUpTo(ms, r, n - 1);
      Bounds(ms, n - 1);
      hide Offset;
      if m.role == "tool" && m.toolCallId.Text? {
        ResultAt(ms, n - 1);
        CountsUpTo(ms, m.toolCallId.s, n - 1);
        EventCounts(Events(ms), Offset(Parts(ms), n - 1), r);
        NoneIn(r);
      } else {
        CountsWithin(ms, r, n - 1, |CallsOf(m)|);
      }
    }
  }

  lemma {:induction false} NoneIn(r: string)
    ensures CallsIn([], r, 0) == 0
  {
  }

  lemma {:induction false} PairedMeansFinds(ms: seq<Message>, i: nat)
    requires i < |ms| && ms[i].role == "tool" && ms[i].toolCallId.Text?
    ensures var e := Offset(Parts(ms), i);
            && e < |Events(ms)| && Events(ms)[e] == ResultEvent(ms[i].toolCallId.s)
            && (IsPaired(Events(ms), e) <==> Finds(ms, i, ms[i].toolCallId.s))
  {
    hide Events, EventsOf, CallsOn, PairedOn, Offset, AnsweredBefore, CallsBefore;
    ResultAt(ms, i);
    CountsUpTo(ms, ms[i].toolCallId.s, i);
  }

  // ---------- what every message becomes ----------

  function Renumbered(calls: seq<Call>, from: nat): seq<Call> {
    seq(|calls|, b requires 0 <= b < |calls| =>
      if calls[b].ObjectCall? then ObjectCall(Text(FormatId("", from + b)), calls[b].rest) else calls[b])
  }

  lemma {:induction false} IdAtPlace(ms: seq<Message>, i: nat, b: nat)
    requires i < |ms| && b < |EventsOf(ms[i])|
    ensures var e := Offset(Parts(ms), i) + b;
            e < |Events(ms)| && IdsOf(ms, i, Assign(Events(ms)))[b] == PairedId(Events(ms), e)
  {
    hide Offset, Events, EventsOf, PairedId, Assign, UpTo;
    PlaceIs(ms, i);
    var e := Offset(Parts(ms), i) + b;
    RefinesPairing(Events(ms), e);
    EventsAre(ms);
    StretchStep(Parts(ms), i, Assign(Events(ms)));
  }

  lemma {:induction false} EventsAre(ms: seq<Message>)
    ensures Events(ms) == Concat(Parts(ms)) && |Events(ms)| == Offset(Parts(ms), |ms|)
    ensures Offset(Parts(ms), 0) == 0
  {
    hide EventsOf;
  }

  lemma {:induction false} CallIdAt(ms: seq<Message>, i: nat, b: nat)
    requires i < |ms| && b < |CallsOf(ms[i])|
    ensures b < |EventsOf(ms[i])|
            && IdsOf(ms, i, Assign(Events(ms)))[b] == FormatId("", NumbersBefore(ms, i) + b)
  {
    hide Offset, Events, EventsOf, Assign, CallsOf, Drawn, NumbersBefore;
    PartIs(ms[i]);
    IdAtPlace(ms, i, b);
    CallAt(ms, i, b);
    CountsUpTo(ms, "", i);
    CountsWithin(ms, "", i, b);
    hide FormatId;
  }

  lemma {:induction false} NormalizedAt(ms: seq<Message>, i: nat)
    requires i < |ms|
    ensures |Normalized(ms)| == |ms| && Normalized(ms)[i] == Rewrite(ms[i], IdsOf(ms, i, Assign(Events(ms))))
  {
  }

  /** The calls of an assistant message take the next numbers in order, and nothing else of it changes. */
  lemma {:induction false} CallsAreRenumbered(ms: seq<Message>, i: nat)
    requires i < |ms| && ms[i].role == "assistant" && ms[i].calls.Some?
    ensures |Normalized(ms)| == |ms|
    ensures Normalized(ms)[i] == ms[i].(calls := Some(Renumbered(ms[i].calls.value, NumbersBefore(ms, i))))
  {
    var calls, ids, from := ms[i].calls.value, IdsOf(ms, i, Assign(Events(ms))), NumbersBefore(ms, i);
    NormalizedAt(ms, i);
    RewritesCalls(ms[i], ids);
    hide *;
    forall b | 0 <= b < |calls| ensures ids[b] == FormatId("", from + b) {
      CallIdAt(ms, i, b);
    }
    RenumberedIs(calls, ids, from);
  }

  lemma {:induction false} RewritesCalls(m: Message, ids: seq<string>)
    requires m.role == "assistant" && m.calls.Some? && |ids| == |EventsOf(m)|
    ensures CallsOf(m) == m.calls.value && |ids| == |m.calls.value|
    ensures Rewrite(m, ids) == m.(calls := Some(RewriteCalls(m.calls.value, ids)))
  {
  }

  lemma {:induction false} RenumberedIs(calls: seq<Call>, ids: seq<string>, from: nat)
    requires |ids| == |calls| && forall b | 0 <= b < |calls| :: ids[b] == FormatId("", from + b)
    ensures RewriteCalls(calls, ids) == Renumbered(calls, from)
  {
    hide FormatId;
  }

  /** Messages that are neither calls of an assistant nor identified results of a tool are unchanged. */
  lemma {:induction false} OthersAreKept(ms: seq<Message>, i: nat)
    requires i < |ms|
    requires !(ms[i].role == "assistant" && ms[i].calls.Some?) && !(ms[i].role == "tool" && ms[i].toolCallId.Text?)
    ensures |Normalized(ms)| == |ms| && Normalized(ms)[i] == ms[i]
  {
    NormalizedAt(ms, i);
    hide Normalized, Events, Assign;
  }

  lemma {:induction false} ResultIdAt(ms: seq<Message>, i: nat)
    requires i < |ms| && ms[i].role == "tool" && ms[i].toolCallId.Text?
    ensures var e := Offset(Parts(ms), i);
            e < |Events(ms)| && Normalized(ms)[i] == ms[i].(toolCallId := Text(PairedId(Events(ms), e)))
  {
    hide Normalized, Events, Assign, PairedId, Offset, EventsOf, CallsOf, Rewrite;
    ResultAt(ms, i);
    PartIs(ms[i]);
    IdAtPlace(ms, i, 0);
    NormalizedAt(ms, i);
    RewritesResult(ms[i], IdsOf(ms, i, Assign(Events(ms))));
  }

  lemma {:induction false} RewritesResult(m: Message, ids: seq<string>)
    requires m.role == "tool" && m.toolCallId.Text? && |ids| == |EventsOf(m)|
    ensures |ids| == 1 && Rewrite(m, ids) == m.(toolCallId := Text(ids[0]))
  {
  }

  /** An orphan result takes the next number, and nothing else of it changes. */
  lemma {:induction false} OrphansAreNumbered(ms: seq<Message>, i: nat)
    requires i < |ms| && Orphan(ms, i)
    ensures |Normalized(ms)| == |ms|
    ensures Normalized(ms)[i] == ms[i].(toolCallId := Text(FormatId("", NumbersBefore(ms, i))))
  {
    hide Normalized, Events, Offset, Drawn, Finds;
    PairedMeansFinds(ms, i);
    ResultIdAt(ms, i);
    CountsUpTo(ms, "", i);
    NormalizedAt(ms, i);
    hide FormatId;
  }

  // ---------- results follow their calls ----------

  lemma {:induction false} NthIsUnique(r: string, evs: seq<Event>, e: nat, f: nat)
    requires e < |evs| && f < |evs| && IsCallOn(r, evs[e]) && IsCallOn(r, evs[f])
    requires CallsOn(r, evs, e) == CallsOn(r, evs, f)
    ensures e == f
  {
    if e < f {
      CallsGrow(r, evs, e, f);
    }
    if f < e {
      CallsGrow(r, evs, f, e);
    }
  }

  lemma {:induction false} CallsGrow(r: string, evs: seq<Event>, e: nat, n: nat)
    requires e < n <= |evs| && IsCallOn(r, evs[e])
    ensures CallsOn(r, evs, e) < CallsOn(r, evs, n)
  {
    EventCounts(evs, e, r);
    CountsMonotone(r, evs, e + 1, n);
  }

  lemma {:induction false} NthCallIs(ms: seq<Message>, r: string, j: nat, a: nat, b: nat)
    requires NthCallAt(ms, r, j, a, b)
    ensures var e := Offset(Parts(ms), a) + b;
            e < |Events(ms)| && IsCallOn(r, Events(ms)[e]) && CallsOn(r, Events(ms), e) == j
  {
    hide Offset, Events, EventsOf, CallsOn, CallsIn, CallsBefore;
    CallAt(ms, a, b);
    CallEventIs(CallsOf(ms[a])[b], r);
    CountsUpTo(ms, r, a);
    CountsWithin(ms, r, a, b);
  }

  /** Every event belongs to a place of some message. */
  lemma {:induction false} Located(ms: seq<Message>, e: nat, n: nat) returns (a: nat, b: nat)
    requires n <= |ms| && e < Offset(Parts(ms), n)
    ensures a < n && b < |EventsOf(ms[a])| && Offset(Parts(ms), a) + b == e
  {
    hide *;
    EventsAre(ms);
    PlaceIs(ms, n - 1);
    if e < Offset(Parts(ms), n - 1) {
      a, b := Located(ms, e, n - 1);
    } else {
      a, b := n - 1, e - Offset(Parts(ms), n - 1);
    }
  }

  lemma {:induction false} SomewhereIsNth(ms: seq<Message>, r: string, e: nat)
    requires e < |Events(ms)| && IsCallOn(r, Events(ms)[e])
    ensures exists a, b :: NthCallAt(ms, r, CallsOn(r, Events(ms), e), a, b) && Offset(Parts(ms), a) + b == e
  {
    hide Offset, Events, EventsOf, CallsOn, CallsIn, CallsBefore, CallsOf, Parts, UpTo;
    EventsAre(ms);
    var a, b := Located(ms, e, |ms|);
    PlaceIs(ms, a);
    PartIs(ms[a]);
    assert Events(ms)[Offset(Parts(ms), a) + b] == EventsOf(ms[a])[b];
    assert b < |CallsOf(ms[a])|;
    CallAt(ms, a, b);
    CallEventIs(CallsOf(ms[a])[b], r);
    CountsUpTo(ms, r, a);
    CountsWithin(ms, r, a, b);
    assert NthCallAt(ms, r, CallsOn(r, Events(ms), e), a, b);
  }

  /** In the output, message `i` is the old one with the identifier of call `b` of message `a`, an earlier one. */
  predicate Follows(ms: seq<Message>, out: seq<Message>, i: nat, a: nat, b: nat) {
    && a < i < |ms| == |out| && b < |CallsOf(out[a])| && CallsOf(out[a])[b].ObjectCall?
    && out[i] == ms[i].(toolCallId := CallsOf(out[a])[b].id)
    && CallsOf(out[a])[b].id == Text(FormatId("", NumbersBefore(ms, a) + b))
  }

  /** A result that finds a waiting call carries that call's new identifier: the `j`-th result on `r` to find one
      carries that of the `j`-th call on `r`, which there is, in an earlier message. Nothing else of it changes. */
  lemma {:induction false} ResultsFollowTheirCalls(ms: seq<Message>, i: nat, r: string)
    requires i < |ms| && Finds(ms, i, r)
    ensures exists a: nat, b: nat :: NthCallAt(ms, r, AnsweredBefore(ms, r, i), a, b)
    ensures forall a: nat, b: nat | NthCallAt(ms, r, AnsweredBefore(ms, r, i), a, b) ::
              Follows(ms, Normalized(ms), i, a, b)
  {
    hide *;
    FoundIs(ms, i, r);
    PairedMeansFinds(ms, i);
    var evs, e, j := Events(ms), Offset(Parts(ms), i), AnsweredBefore(ms, r, i);
    CountsUpTo(ms, r, i);
    TargetIs(evs, e, r);
    SomewhereIsNth(ms, r, Target(evs, e));
    forall a: nat, b: nat | NthCallAt(ms, r, j, a, b) ensures Follows(ms, Normalized(ms), i, a, b) {
      FollowsItsCall(ms, i, r, a, b);
    }
  }

  lemma {:induction false} FollowsItsCall(ms: seq<Message>, i: nat, r: string, a: nat, b: nat)
    requires i < |ms| && Finds(ms, i, r) && NthCallAt(ms, r, AnsweredBefore(ms, r, i), a, b)
    ensures Follows(ms, Normalized(ms), i, a, b)
  {
    hide *;
    FoundIs(ms, i, r);
    ResultIdAt(ms, i);
    PairedMeansFinds(ms, i);
    NormalizedAt(ms, i);
    CountsUpTo(ms, r, i);
    var evs, e, j := Events(ms), Offset(Parts(ms), i), AnsweredBefore(ms, r, i);
    TargetIs(evs, e, r);
    NthCallIsCall(ms, r, j, a, b);
    NthCallIs(ms, r, j, a, b);
    NthIsUnique(r, evs, Offset(Parts(ms), a) + b, Target(evs, e));
    CallDrawn(ms, a, b);
    EarlierPlace(ms, a, b, i);
    RenumberedAt(ms, a, b);
    FollowsIs(ms, Normalized(ms), i, a, b);
  }

  lemma {:induction false} FollowsIs(ms: seq<Message>, out: seq<Message>, i: nat, a: nat, b: nat)
    requires a < i < |ms| == |out| && b < |CallsOf(out[a])| && CallsOf(out[a])[b].ObjectCall?
    requires CallsOf(out[a])[b].id == Text(FormatId("", NumbersBefore(ms, a) + b))
    requires out[i] == ms[i].(toolCallId := Text(FormatId("", NumbersBefore(ms, a) + b)))
    ensures Follows(ms, out, i, a, b)
  {
    hide FormatId, NumbersBefore;
  }

  lemma {:induction false} FoundIs(ms: seq<Message>, i: nat, r: string)
    requires i < |ms| && Finds(ms, i, r)
    ensures ms[i].role == "tool" && ms[i].toolCallId == Text(r)
  {
  }

  lemma {:induction false} TargetIs(evs: seq<Event>, e: nat, r: string)
    requires e < |evs| && evs[e] == ResultEvent(r) && IsPaired(evs, e)
    ensures var t := Target(evs, e);
            && t < e && IsCallOn(r, evs[t]) && CallsOn(r, evs, t) == PairedOn(r, evs, e)
            && PairedId(evs, e) == FormatId("", Drawn(evs, t))
  {
    hide FormatId;
  }

  lemma {:induction false} NthCallIsCall(ms: seq<Message>, r: string, j: nat, a: nat, b: nat)
    requires NthCallAt(ms, r, j, a, b)
    ensures a < |ms| && ms[a].role == "assistant" && ms[a].calls.Some? && b < |ms[a].calls.value|
            && CallsOf(ms[a]) == ms[a].calls.value && ms[a].calls.value[b].ObjectCall?
  {
    hide CallsIn, CallsBefore;
  }

  lemma {:induction false} CallDrawn(ms: seq<Message>, a: nat, b: nat)
    requires a < |ms| && b < |CallsOf(ms[a])|
    ensures Offset(Parts(ms), a) + b <= |Events(ms)|
    ensures Drawn(Events(ms), Offset(Parts(ms), a) + b) == NumbersBefore(ms, a) + b
  {
    hide *;
    CountsUpTo(ms, "", a);
    CountsWithin(ms, "", a, b);
  }

  lemma {:induction false} EarlierPlace(ms: seq<Message>, a: nat, b: nat, i: nat)
    requires a < |ms| && i < |ms| && Offset(Parts(ms), a) + b < Offset(Parts(ms), i)
    ensures a < i
  {
    hide *;
    if i <= a {
      OffsetsGrow(ms, i, a);
    }
  }

  lemma {:induction false} OffsetsGrow(ms: seq<Message>, i: nat, a: nat)
    requires i <= a <= |ms|
    ensures Offset(Parts(ms), i) <= Offset(Parts(ms), a)
  {
    if i < a {
      OffsetsGrow(ms, i, a - 1);
    }
  }

  lemma {:induction false} RenumberedAt(ms: seq<Message>, a: nat, b: nat)
    requires a < |ms| && ms[a].role == "assistant" && ms[a].calls.Some? && b < |ms[a].calls.value|
             && ms[a].calls.value[b].ObjectCall?
    ensures |Normalized(ms)| == |ms|
    ensures var calls := CallsOf(Normalized(ms)[a]);
            b < |calls| && calls[b].ObjectCall? && calls[b].id == Text(FormatId("", NumbersBefore(ms, a) + b))
  {
    CallsAreRenumbered(ms, a);
    hide Normalized, NumbersBefore, FormatId;
  }

  // ---------- no identifier twice ----------

  lemma {:induction false} NumbersGrow(ms: seq<Message>, i: nat, k: nat)
    requires i <= k <= |ms|
    ensures NumbersBefore(ms, i) <= NumbersBefore(ms, k)
  {
    hide Orphan, CallsOf;
    if i < k {
      NumbersGrow(ms, i, k - 1);
    }
  }

  lemma {:induction false} NumbersPast(ms: seq<Message>, i: nat, k: nat)
    requires i < k <= |ms|
    ensures NumbersBefore(ms, i) + |CallsOf(ms[i])| <= NumbersBefore(ms, k)
    ensures Orphan(ms, i) ==> NumbersBefore(ms, i) < NumbersBefore(ms, k)
  {
    hide *;
    NumbersGrow(ms, i + 1, k);
    NumbersNext(ms, i);
  }

  lemma {:induction false} NumbersNext(ms: seq<Message>, i: nat)
    requires i < |ms|
    ensures NumbersBefore(ms, i + 1) == NumbersBefore(ms, i) + |CallsOf(ms[i])| + if Orphan(ms, i) then 1 else 0
  {
    hide Orphan, CallsOf;
  }

  /** Call `b` of message `a` carries this identifier. */
  predicate CarriesAt(out: seq<Message>, a: nat, b: nat, id: string) {
    a < |out| && b < |CallsOf(out[a])| && CallsOf(out[a])[b].ObjectCall? && CallsOf(out[a])[b].id == Text(id)
  }

  lemma {:induction false} CarriedIs(ms: seq<Message>, a: nat, b: nat, id: string)
    requires CarriesAt(Normalized(ms), a, b, id)
    ensures a < |ms| && b < |CallsOf(ms[a])| && id == FormatId("", NumbersBefore(ms, a) + b)
  {
    NormalizedAt(ms, a);
    if ms[a].role == "assistant" && ms[a].calls.Some? {
      CallsAreRenumbered(ms, a);
      hide Normalized, NumbersBefore, FormatId;
    } else {
      NoCallsGained(ms[a], IdsOf(ms, a, Assign(Events(ms))));
      assert false;
    }
  }

  lemma {:induction false} NoCallsGained(m: Message, ids: seq<string>)
    requires !(m.role == "assistant" && m.calls.Some?) && |ids| == |EventsOf(m)|
    ensures CallsOf(Rewrite(m, ids)) == []
  {
  }

  lemma {:induction false} OneCallPerId(ms: seq<Message>, a: nat, b: nat, c: nat, d: nat, id: string)
    requires CarriesAt(Normalized(ms), a, b, id) && CarriesAt(Normalized(ms), c, d, id)
    ensures a == c && b == d
  {
    hide *;
    CarriedIs(ms, a, b, id);
    CarriedIs(ms, c, d, id);
    FormatIdInjective("", NumbersBefore(ms, a) + b, NumbersBefore(ms, c) + d);
    if a < c {
      NumbersPast(ms, a, c);
    } else if c < a {
      NumbersPast(ms, c, a);
    }
  }

  lemma {:induction false} OrphanHasItsOwn(ms: seq<Message>, i: nat, a: nat, b: nat)
    requires i < |ms| && Orphan(ms, i)
    ensures !CarriesAt(Normalized(ms), a, b, FormatId("", NumbersBefore(ms, i)))
  {
    hide *;
    var id := FormatId("", NumbersBefore(ms, i));
    if CarriesAt(Normalized(ms), a, b, id) {
      CarriedIs(ms, a, b, id);
      FormatIdInjective("", NumbersBefore(ms, a) + b, NumbersBefore(ms, i));
      OrphanMakesNoCall(ms, i);
      if a < i {
        NumbersPast(ms, a, i);
      } else if i < a {
        NumbersPast(ms, i, a);
      }
      assert false;
    }
  }

  lemma {:induction false} OrphanMakesNoCall(ms: seq<Message>, i: nat)
    requires i < |ms| && Orphan(ms, i)
    ensures CallsOf(ms[i]) == []
  {
  }

  /** In the output no two calls carry the same identifier, and an orphan result has one that no call and no other
      orphan carries. */
  lemma {:induction false} IdentifiersAreUnique(ms: seq<Message>)
    ensures forall a: nat, b: nat, c: nat, d: nat, id |
              CarriesAt(Normalized(ms), a, b, id) && CarriesAt(Normalized(ms), c, d, id) :: a == c && b == d
    ensures |Normalized(ms)| == |ms|
    ensures forall i: nat | i < |ms| && Orphan(ms, i) :: OwnIdentifier(ms, Normalized(ms), i)
  {
    hide *;
    forall a: nat, b: nat, c: nat, d: nat, id |
        CarriesAt(Normalized(ms), a, b, id) && CarriesAt(Normalized(ms), c, d, id)
      ensures a == c && b == d
    {
      OneCallPerId(ms, a, b, c, d, id);
    }
    SameLength(ms);
    forall i: nat | i < |ms| && Orphan(ms, i) ensures OwnIdentifier(ms, Normalized(ms), i) {
      OrphanIsUnique(ms, i);
    }
  }

  lemma {:induction false} SameLength(ms: seq<Message>)
    ensures |Normalized(ms)| == |ms|
  {
  }

  /** No call of the output and no other orphan carries the identifier of message `i`. */
  ghost predicate OwnIdentifier(ms: seq<Message>, out: seq<Message>, i: nat)
    requires i < |ms| == |out|
  {
    && out[i].toolCallId.Text?
    && (forall a: nat, b: nat :: !CarriesAt(out, a, b, out[i].toolCallId.s))
    && forall k: nat | k < |ms| && k != i && Orphan(ms, k) :: out[k].toolCallId != out[i].toolCallId
  }

  lemma {:induction false} OrphanIsUnique(ms: seq<Message>, i: nat)
    requires i < |ms| && Orphan(ms, i)
    ensures |Normalized(ms)| == |ms| && OwnIdentifier(ms, Normalized(ms), i)
  {
    var out, id := Normalized(ms), FormatId("", NumbersBefore(ms, i));
    hide Normalized, Orphan, NumbersBefore, FormatId, CarriesAt;
    OrphansAreNumbered(ms, i);
    forall a: nat, b: nat ensures !CarriesAt(out, a, b, id) {
      OrphanHasItsOwn(ms, i, a, b);
    }
    forall k: nat | k < |ms| && k != i && Orphan(ms, k) ensures out[k].toolCallId != Text(id) {
      OrphansAreNumbered(ms, k);
      FormatIdInjective("", NumbersBefore(ms, k), NumbersBefore(ms, i));
      if k < i {
        NumbersPast(ms, k, i);
      } else {
        NumbersPast(ms, i, k);
      }
    }
  }

  // ---------- what the statistics count ----------

  /** An earlier call carries the same identifier. */
  predicate Repeated(ms: seq<Message>, a: nat, b: nat)
    requires a < |ms| && b < |CallsOf(ms[a])|
  {
    var call := CallsOf(ms[a])[b];
    && call.ObjectCall? && call.id.Text? && call.id.s != ""
    && CallsBefore(ms, call.id.s, a) + CallsIn(CallsOf(ms[a]), call.id.s, b) > 0
  }

  predicate Unnamed(call: Call) {
    !call.ObjectCall? || !call.id.Text? || call.id.s == ""
  }

  function RepeatedIn(ms: seq<Message>, a: nat, n: nat): nat
    requires a < |ms| && n <= |CallsOf(ms[a])|
  {
    if n == 0 then 0 else RepeatedIn(ms, a, n - 1) + if Repeated(ms, a, n - 1) then 1 else 0
  }

  function UnnamedIn(calls: seq<Call>, n: nat): nat
    requires n <= |calls|
  {
    if n == 0 then 0 else UnnamedIn(calls, n - 1) + if Unnamed(calls[n - 1]) then 1 else 0
  }

  /** A result found its call, and its identifier in the output is another than it was. */
  predicate Remapped(ms: seq<Message>, out: seq<Message>, i: nat)
    requires i < |ms| == |out|
  {
    && ms[i].role == "tool" && ms[i].toolCallId.Text? && Finds(ms, i, ms[i].toolCallId.s)
    && out[i].toolCallId != ms[i].toolCallId
  }

  /** The repeated calls, the calls without identifier, the remapped results and the orphans of the first `n`
      messages. */
  function Counted(ms: seq<Message>, out: seq<Message>, n: nat): Stats
    requires n <= |ms| == |out|
  {
    if n == 0 then Stats(0, 0, 0, 0)
    else
      var c, calls := Counted(ms, out, n - 1), CallsOf(ms[n - 1]);
      Stats(c.duplicate + RepeatedIn(ms, n - 1, |calls|), c.missing + UnnamedIn(calls, |calls|),
            c.remapped + (if Remapped(ms, out, n - 1) then 1 else 0),
            c.orphan + if Orphan(ms, n - 1) then 1 else 0)
  }

  lemma {:induction false} CalledBefore(r: string, evs: seq<Event>, n: nat)
    requires n <= |evs|
    ensures CallsOn(r, evs, n) > 0 <==> exists d | 0 <= d < n :: IsCallOn(r, evs[d])
  {
    if n > 0 {
      CalledBefore(r, evs, n - 1);
    }
  }

  /** What a call adds to the statistics. */
  lemma {:induction false} CallAdds(ms: seq<Message>, a: nat, b: nat)
    requires a < |ms| && b < |CallsOf(ms[a])|
    ensures var evs, e := Events(ms), Offset(Parts(ms), a) + b;
            && e < |evs|
            && (CallIds.Repeats(evs, e) <==> Repeated(ms, a, b)) && (Nameless(evs, e) <==> Unnamed(CallsOf(ms[a])[b]))
            && !CallIds.Moved(evs, e) && !Lost(evs, e)
  {
    hide Events, Parts, Offset, CallsOf, CallsOn, CallsIn, CallsBefore;
    var evs, e, call := Events(ms), Offset(Parts(ms), a) + b, CallsOf(ms[a])[b];
    CallAt(ms, a, b);
    if !Unnamed(call) {
      var r := call.id.s;
      CountsUpTo(ms, r, a);
      CountsWithin(ms, r, a, b);
      CalledBefore(r, evs, e);
      assert forall d | 0 <= d < e :: IsCallOn(r, evs[d]) <==> evs[d].CallEvent? && evs[d].raw == Some(r);
    }
  }

  lemma {:induction false} StatsWithin(ms: seq<Message>, a: nat, b: nat)
    requires a < |ms| && b <= |CallsOf(ms[a])|
    ensures var at, evs := Offset(Parts(ms), a), Events(ms);
            && at + b <= |evs|
            && var was, now := After(evs, at).stats, After(evs, at + b).stats;
               && now.duplicate == was.duplicate + RepeatedIn(ms, a, b)
               && now.missing == was.missing + UnnamedIn(CallsOf(ms[a]), b)
               && now.remapped == was.remapped && now.orphan == was.orphan
  {
    hide Events, Parts, Offset, CallsOf, After, Repeated, Unnamed, CallIds.Repeats, Nameless, CallIds.Moved, Lost;
    Bounds(ms, a);
    if b > 0 {
      StatsWithin(ms, a, b - 1);
      CallAdds(ms, a, b - 1);
      StatsDelta(Events(ms), Offset(Parts(ms), a) + (b - 1));
    }
  }

  /** What a result adds to them. */
  lemma {:induction false} ResultAdds(ms: seq<Message>, i: nat)
    requires i < |ms| && ms[i].role == "tool" && ms[i].toolCallId.Text?
    ensures var evs, e := Events(ms), Offset(Parts(ms), i);
            && e < |evs| && |Normalized(ms)| == |ms|
            && !CallIds.Repeats(evs, e) && !Nameless(evs, e)
            && (CallIds.Moved(evs, e) <==> Remapped(ms, Normalized(ms), i)) && (Lost(evs, e) <==> Orphan(ms, i))
  {
    hide Events, Parts, Offset, Normalized, Finds, IsPaired, PairedId;
    SameLength(ms);
    PairedMeansFinds(ms, i);
    ResultIdAt(ms, i);
  }

  lemma {:induction false} StatsUpTo(ms: seq<Message>, n: nat)
    requires n <= |ms|
    ensures var at, evs := Offset(Parts(ms), n), Events(ms);
            at <= |evs| && |Normalized(ms)| == |ms| && After(evs, at).stats == Counted(ms, Normalized(ms), n)
  {
    hide Events, Parts, Normalized, CallsOf, After, CallIds.Repeats, Nameless, CallIds.Moved, Lost, Remapped, Orphan,
         RepeatedIn, UnnamedIn, Offset;
    SameLength(ms);
    if n == 0 {
      EventsAre(ms);
      StatsBegin(Events(ms));
    } else {
      var m := ms[n - 1];
      StatsUpTo(ms, n - 1);
      Bounds(ms, n - 1);
      if m.role == "tool" && m.toolCallId.Text? {
        ResultAt(ms, n - 1);
        ResultAdds(ms, n - 1);
        StatsDelta(Events(ms), Offset(Parts(ms), n - 1));
        NothingIn(ms, n - 1);
      } else {
        StatsWithin(ms, n - 1, |CallsOf(m)|);
        NoResult(ms, Normalized(ms), n - 1);
      }
    }
  }

  lemma {:induction false} NothingIn(ms: seq<Message>, a: nat)
    requires a < |ms| && CallsOf(ms[a]) == []
    ensures RepeatedIn(ms, a, 0) == 0 && UnnamedIn([], 0) == 0
  {
  }

  lemma {:induction false} NoResult(ms: seq<Message>, out: seq<Message>, i: nat)
    requires i < |ms| == |out| && !(ms[i].role == "tool" && ms[i].toolCallId.Text?)
    ensures !Remapped(ms, out, i) && !Orphan(ms, i)
  {
  }

  /** The statistics count the calls whose identifier an earlier call carries, the calls without one, the results whose
      identifier changed to that of their call, and the orphan results. */
  lemma {:induction false} StatisticsAreCounts(ms: seq<Message>)
    ensures |Normalized(ms)| == |ms| && FinalStats(ms) == Counted(ms, Normalized(ms), |ms|)
  {
    hide *;
    SameLength(ms);
    EventsAre(ms);
    StatsUpTo(ms, |ms|);
    NormalizedIs(ms);
  }
}
