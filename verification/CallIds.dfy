/** The outbound normaliser: one pass that renumbers every call and re-pairs every tool result with its call. */
module CallIds {
  import opened Wrappers
  import opened FreshId
  import opened Flatten

  // ---------- transcripts ----------

  /** What a JSON object holds under an identifier key. */
  datatype IdField = Absent | Text(s: string) | NotText

  /** An element of `tool_calls`; `rest` is everything the pass never reads. */
  datatype Call =
    | ObjectCall(id: IdField, rest: string)
    | OtherCall(rest: string)
  {
    /** The identifier other messages can refer to; an empty one does not count. */
    function Raw(): Option<string> {
      if ObjectCall? && id.Text? && id.s != "" then Some(id.s) else None
    }

    function WithId(s: string): Call {
      if ObjectCall? then this.(id := Text(s)) else this
    }
  }

  datatype Message = Message(role: string, calls: Option<seq<Call>>, toolCallId: IdField, rest: string)

  datatype Stats = Stats(duplicate: nat, missing: nat, remapped: nat, orphan: nat)

  /** A place where the pass hands out an identifier. */
  datatype Event =
    | CallEvent(isObject: bool, raw: Option<string>)
    | ResultEvent(id: string)

  function CallEvents(calls: seq<Call>): (evs: seq<Event>)
    ensures |evs| == |calls|
  {
    seq(|calls|, i requires 0 <= i < |calls| => CallEvent(calls[i].ObjectCall?, calls[i].Raw()))
  }

  function EventsOf(m: Message): seq<Event> {
    if m.role == "assistant" && m.calls.Some? then CallEvents(m.calls.value)
    else if m.role == "tool" && m.toolCallId.Text? then [ResultEvent(m.toolCallId.s)]
    else []
  }

  function Parts(ms: seq<Message>): (parts: seq<seq<Event>>)
    ensures |parts| == |ms|
  {
    seq(|ms|, i requires 0 <= i < |ms| => EventsOf(ms[i]))
  }

  function Events(ms: seq<Message>): seq<Event> {
    Concat(Parts(ms))
  }

  // ---------- the pass as a fold over events ----------

  datatype State = State(counter: nat, seenRaw: set<string>, pending: map<string, seq<string>>, stats: Stats)
  {
    function Queue(r: string): seq<string> {
      if r in pending then pending[r] else []
    }
  }

  const INITIAL := State(0, {}, map[], Stats(0, 0, 0, 0))

  function Id(k: nat): string {
    FormatId("", k)
  }

  function IdFor(st: State, ev: Event): string {
    if ev.ResultEvent? && st.Queue(ev.id) != [] then st.Queue(ev.id)[0] else Id(st.counter)
  }

  function Step(st: State, ev: Event): State {
    match ev
    case CallEvent(_, None) =>
      st.(counter := st.counter + 1, stats := st.stats.(missing := st.stats.missing + 1))
    case CallEvent(_, Some(r)) =>
      st.(counter := st.counter + 1,
          seenRaw := st.seenRaw + {r},
          pending := st.pending[r := st.Queue(r) + [Id(st.counter)]],
          stats := if r in st.seenRaw then st.stats.(duplicate := st.stats.duplicate + 1) else st.stats)
    case ResultEvent(r) =>
      if st.Queue(r) != [] then
        st.(pending := st.pending[r := st.Queue(r)[1..]],
            stats := if st.Queue(r)[0] != r then st.stats.(remapped := st.stats.remapped + 1) else st.stats)
      else
        st.(counter := st.counter + 1, stats := st.stats.(orphan := st.stats.orphan + 1))
  }

  /** The state after the first `n` events. */
  function After(evs: seq<Event>, n: nat): State
    requires n <= |evs|
  {
    if n == 0 then INITIAL else Step(After(evs, n - 1), evs[n - 1])
  }

  function IdAt(evs: seq<Event>, e: nat): string
    requires e < |evs|
  {
    IdFor(After(evs, e), evs[e])
  }

  function Assign(evs: seq<Event>): (ids: seq<string>)
    ensures |ids| == |evs|
  {
    seq(|evs|, e requires 0 <= e < |evs| => IdAt(evs, e))
  }

  function RewriteCalls(calls: seq<Call>, ids: seq<string>): (r: seq<Call>)
    requires |ids| == |calls|
    ensures |r| == |calls|
  {
    seq(|calls|, i requires 0 <= i < |calls| => calls[i].WithId(ids[i]))
  }

  function Rewrite(m: Message, ids: seq<string>): Message
    requires |ids| == |EventsOf(m)|
  {
    if m.role == "assistant" && m.calls.Some? then m.(calls := Some(RewriteCalls(m.calls.value, ids)))
    else if m.role == "tool" && m.toolCallId.Text? then m.(toolCallId := Text(ids[0]))
    else m
  }

  function IdsOf(ms: seq<Message>, i: nat, ids: seq<string>): (r: seq<string>)
    requires i < |ms| && |ids| == |Events(ms)|
    ensures |r| == |EventsOf(ms[i])|
  {
    Stretch(Parts(ms), i, ids)
  }

  function RewriteAll(ms: seq<Message>, ids: seq<string>): (r: seq<Message>)
    requires |ids| == |Events(ms)|
    ensures |r| == |ms|
  {
    seq(|ms|, i requires 0 <= i < |ms| => Rewrite(ms[i], IdsOf(ms, i, ids)))
  }

  function Normalized(ms: seq<Message>): seq<Message> {
    RewriteAll(ms, Assign(Events(ms)))
  }

  function FinalStats(ms: seq<Message>): Stats {
    After(Events(ms), |Events(ms)|).stats
  }

  // ---------- the pass itself ----------

  ghost predicate Issued(s: string, below: nat) {
    exists k: nat :: k < below && s == Id(k)
  }

  lemma NextIdIsUnused(counter: nat)
    ensures !Issued(Id(counter), counter)
  {
    forall k: nat | k < counter ensures Id(counter) != Id(k) {
      FormatIdInjective("", counter, k);
    }
  }

  /** Draws the next identifier; all identifiers drawn before lie below the counter,
      so the search loop always accepts its first candidate. */
  method NextNumericCallId(counter: nat, seen: set<string>)
    returns (id: string, counter': nat, seen': set<string>)
    requires forall s | s in seen :: Issued(s, counter)
    ensures id == Id(counter) && counter' == counter + 1 && seen' == seen + {id}
    ensures forall s | s in seen' :: Issued(s, counter')
  {
    id, counter', seen' := NextUniqueId("", counter, seen);
    NextIdIsUnused(counter);
    assert FormatId("", counter) !in seen;
    forall s | s in seen' ensures Issued(s, counter') {
      if s in seen {
        var k: nat :| k < counter && s == Id(k);
      }
    }
  }

  /** One call: counts its anomaly, draws its number and queues it under its raw identifier. */
  method RenumberCall(call: Call, ghost evs: seq<Event>, ghost e: nat, st: State, seen: set<string>)
    returns (call': Call, st': State, seen': set<string>)
    requires e < |evs| && evs[e] == CallEvent(call.ObjectCall?, call.Raw())
    requires st == After(evs, e) && forall s | s in seen :: Issued(s, st.counter)
    ensures st' == After(evs, e + 1) && forall s | s in seen' :: Issued(s, st'.counter)
    ensures call' == call.WithId(IdAt(evs, e))
  {
    var seenRaw, pending, stats := st.seenRaw, st.pending, st.stats;
    var raw := call.Raw();
    if raw.Some? {
      if raw.value in seenRaw {
        stats := stats.(duplicate := stats.duplicate + 1);
      }
      seenRaw := seenRaw + {raw.value};
    } else {
      stats := stats.(missing := stats.missing + 1);
    }
    var id, counter;
    id, counter, seen' := NextNumericCallId(st.counter, seen);
    if raw.Some? {
      var queue := if raw.value in pending then pending[raw.value] else [];
      pending := pending[raw.value := queue + [id]];
    }
    call' := call.WithId(id);
    st' := State(counter, seenRaw, pending, stats);
  }

  /** The calls of one assistant message, whose events begin at `base`. */
  method RenumberCalls(calls: seq<Call>, ghost evs: seq<Event>, ghost base: nat, st: State, seen: set<string>)
    returns (out: seq<Call>, st': State, seen': set<string>)
    requires base + |calls| <= |evs| && evs[base..base + |calls|] == CallEvents(calls)
    requires st == After(evs, base) && forall s | s in seen :: Issued(s, st.counter)
    ensures st' == After(evs, base + |calls|) && forall s | s in seen' :: Issued(s, st'.counter)
    ensures out == RewriteCalls(calls, Assign(evs)[base..base + |calls|])
  {
    hide After, Step;
    out, st', seen' := [], st, seen;
    for j := 0 to |calls|
      invariant st' == After(evs, base + j) && forall s | s in seen' :: Issued(s, st'.counter)
      invariant |out| == j && forall i | 0 <= i < j :: out[i] == calls[i].WithId(IdAt(evs, base + i))
    {
      assert evs[base + j] == evs[base..base + |calls|][j];
      var call;
      call, st', seen' := RenumberCall(calls[j], evs, base + j, st', seen');
      out := out + [call];
    }
  }

  /** One identified tool result: takes the oldest waiting call, or a number of its own. */
  method RenumberResult(raw: string, ghost evs: seq<Event>, ghost e: nat, st: State, seen: set<string>)
    returns (id: string, st': State, seen': set<string>)
    requires e < |evs| && evs[e] == ResultEvent(raw)
    requires st == After(evs, e) && forall s | s in seen :: Issued(s, st.counter)
    ensures st' == After(evs, e + 1) && forall s | s in seen' :: Issued(s, st'.counter)
    ensures id == IdAt(evs, e)
  {
    var stats := st.stats;
    if raw in st.pending && st.pending[raw] != [] {
      id := st.pending[raw][0];
      if id != raw {
        stats := stats.(remapped := stats.remapped + 1);
      }
      st', seen' := st.(pending := st.pending[raw := st.pending[raw][1..]], stats := stats), seen;
    } else {
      stats := stats.(orphan := stats.orphan + 1);
      var counter;
      id, counter, seen' := NextNumericCallId(st.counter, seen);
      st' := st.(counter := counter, stats := stats);
    }
  }

  /** One message: the calls of an assistant, or the result of a tool; any other is kept. */
  method RenumberMessage(message: Message, ghost evs: seq<Event>, ghost base: nat, st: State, seen: set<string>)
    returns (message': Message, st': State, seen': set<string>)
    requires base + |EventsOf(message)| <= |evs| && evs[base..base + |EventsOf(message)|] == EventsOf(message)
    requires st == After(evs, base) && forall s | s in seen :: Issued(s, st.counter)
    ensures st' == After(evs, base + |EventsOf(message)|) && forall s | s in seen' :: Issued(s, st'.counter)
    ensures message' == Rewrite(message, Assign(evs)[base..base + |EventsOf(message)|])
  {
    hide After, Step;
    message', st', seen' := message, st, seen;
    if message.role == "assistant" && message.calls.Some? {
      var calls;
      calls, st', seen' := RenumberCalls(message.calls.value, evs, base, st, seen);
      message' := message.(calls := Some(calls));
    } else if message.role == "tool" && message.toolCallId.Text? {
      var id;
      assert evs[base] == evs[base..base + 1][0];
      id, st', seen' := RenumberResult(message.toolCallId.s, evs, base, st, seen);
      message' := message.(toolCallId := Text(id));
    }
  }

  lemma AfterNothing(evs: seq<Event>)
    ensures After(evs, 0) == INITIAL
  {
  }

  method NormalizeToolCallIds(messages: array<Message>) returns (stats: Stats)
    modifies messages
    ensures messages[..] == Normalized(old(messages[..]))
    ensures stats == FinalStats(old(messages[..]))
  {
    hide After, Assign, EventsOf, Rewrite, UpTo, Stretch;
    ghost var before := messages[..];
    ghost var evs, parts := Events(before), Parts(before);
    AfterNothing(evs);
    var st, seen: set<string> := INITIAL, {};
    for i := 0 to messages.Length
      invariant Offset(parts, i) <= |evs|
      invariant st == After(evs, Offset(parts, i)) && forall s | s in seen :: Issued(s, st.counter)
      invariant forall k | i <= k < messages.Length :: messages[k] == before[k]
      invariant forall k | 0 <= k < i :: messages[k] == Rewrite(before[k], IdsOf(before, k, Assign(evs)))
    {
      PartOf(parts, i, |before|);
      StretchStep(parts, i, Assign(evs));
      var message;
      message, st, seen := RenumberMessage(messages[i], evs, Offset(parts, i), st, seen);
      messages[i] := message;
    }
    assert messages[..] == Normalized(before);
    stats := st.stats;
  }

  // ---------- the declarative pairing the pass refines ----------

  predicate IsCallOn(r: string, ev: Event) {
    ev.CallEvent? && ev.raw == Some(r)
  }

  /** How many of the first `n` events are calls on `r`. */
  function CallsOn(r: string, evs: seq<Event>, n: nat): nat
    requires n <= |evs|
  {
    if n == 0 then 0 else CallsOn(r, evs, n - 1) + (if IsCallOn(r, evs[n - 1]) then 1 else 0)
  }

  /** How many results on `r` among the first `n` events found a call to pair with. */
  function PairedOn(r: string, evs: seq<Event>, n: nat): (p: nat)
    requires n <= |evs|
    ensures p <= CallsOn(r, evs, n)
  {
    if n == 0 then 0
    else
      var p := PairedOn(r, evs, n - 1);
      if evs[n - 1] == ResultEvent(r) && p < CallsOn(r, evs, n - 1) then p + 1 else p
  }

  predicate IsPaired(evs: seq<Event>, e: nat)
    requires e < |evs|
  {
    evs[e].ResultEvent? && PairedOn(evs[e].id, evs, e) < CallsOn(evs[e].id, evs, e)
  }

  /** How many of the first `n` events drew a number of their own: calls and orphan results. */
  function Drawn(evs: seq<Event>, n: nat): nat
    requires n <= |evs|
  {
    if n == 0 then 0 else Drawn(evs, n - 1) + (if IsPaired(evs, n - 1) then 0 else 1)
  }

  /** The position of the `j`-th call that carries `r`. */
  function NthCall(r: string, j: nat, evs: seq<Event>, n: nat): (e: nat)
    requires n <= |evs| && j < CallsOn(r, evs, n)
    ensures e < n && IsCallOn(r, evs[e]) && CallsOn(r, evs, e) == j
  {
    if j < CallsOn(r, evs, n - 1) then NthCall(r, j, evs, n - 1) else n - 1
  }

  /** The call a paired result answers: if `j` results on the same raw identifier
      were paired before it, the `j`-th call that carries that identifier. */
  function Target(evs: seq<Event>, e: nat): (t: nat)
    requires e < |evs| && IsPaired(evs, e)
    ensures t < e && IsCallOn(evs[e].id, evs[t])
  {
    NthCall(evs[e].id, PairedOn(evs[e].id, evs, e), evs, e)
  }

  /** The event whose number an event carries. */
  function Owner(evs: seq<Event>, e: nat): (o: nat)
    requires e < |evs|
    ensures o <= e && !IsPaired(evs, o)
  {
    if IsPaired(evs, e) then Target(evs, e) else e
  }

  function PairedId(evs: seq<Event>, e: nat): string
    requires e < |evs|
  {
    Id(Drawn(evs, Owner(evs, e)))
  }

  /** A queue's contents, when `p` results on its identifier were served before. */
  ghost predicate Holds(q: seq<string>, r: string, evs: seq<Event>, n: nat)
    requires n <= |evs|
  {
    var p := PairedOn(r, evs, n);
    && p + |q| == CallsOn(r, evs, n)
    && forall i {:trigger q[i]} | 0 <= i < |q| :: q[i] == Id(Drawn(evs, NthCall(r, p + i, evs, n)))
  }

  lemma CountsStep(r: string, evs: seq<Event>, n: nat)
    requires n < |evs|
    ensures CallsOn(r, evs, n + 1) == CallsOn(r, evs, n) + (if IsCallOn(r, evs[n]) then 1 else 0)
    ensures PairedOn(r, evs, n + 1) == PairedOn(r, evs, n)
            + (if evs[n] == ResultEvent(r) && PairedOn(r, evs, n) < CallsOn(r, evs, n) then 1 else 0)
    ensures forall j {:trigger NthCall(r, j, evs, n)} | 0 <= j < CallsOn(r, evs, n) ::
              NthCall(r, j, evs, n + 1) == NthCall(r, j, evs, n)
    ensures IsCallOn(r, evs[n]) ==> NthCall(r, CallsOn(r, evs, n), evs, n + 1) == n
  {
  }

  lemma {:induction false} HoldsAppended(q: seq<string>, r: string, evs: seq<Event>, n: nat)
    requires n < |evs| && Holds(q, r, evs, n) && IsCallOn(r, evs[n])
    ensures Holds(q + [Id(Drawn(evs, n))], r, evs, n + 1)
  {
    hide Drawn, Id, CallsOn, PairedOn, NthCall;
    CountsStep(r, evs, n);
    var p, q' := PairedOn(r, evs, n), q + [Id(Drawn(evs, n))];
    forall i | 0 <= i < |q'| ensures q'[i] == Id(Drawn(evs, NthCall(r, p + i, evs, n + 1))) {
      if i < |q| {
        assert q'[i] == q[i] && NthCall(r, p + i, evs, n + 1) == NthCall(r, p + i, evs, n);
      }
    }
  }

  lemma HoldsServed(q: seq<string>, r: string, evs: seq<Event>, n: nat)
    requires n < |evs| && Holds(q, r, evs, n) && evs[n] == ResultEvent(r) && q != []
    ensures Holds(q[1..], r, evs, n + 1)
  {
    hide Drawn, Id, CallsOn, PairedOn, NthCall;
    CountsStep(r, evs, n);
    var p, q' := PairedOn(r, evs, n), q[1..];
    forall i | 0 <= i < |q'| ensures q'[i] == Id(Drawn(evs, NthCall(r, p + 1 + i, evs, n + 1))) {
      assert q'[i] == q[i + 1] && NthCall(r, p + (i + 1), evs, n + 1) == NthCall(r, p + (i + 1), evs, n);
    }
  }

  lemma HoldsKept(q: seq<string>, r: string, evs: seq<Event>, n: nat)
    requires n < |evs| && Holds(q, r, evs, n) && !IsCallOn(r, evs[n]) && (evs[n] == ResultEvent(r) ==> q == [])
    ensures Holds(q, r, evs, n + 1)
  {
    hide Drawn, Id, CallsOn, PairedOn, NthCall;
    CountsStep(r, evs, n);
    var p := PairedOn(r, evs, n);
    forall i | 0 <= i < |q| ensures q[i] == Id(Drawn(evs, NthCall(r, p + i, evs, n + 1))) {
      assert NthCall(r, p + i, evs, n + 1) == NthCall(r, p + i, evs, n);
    }
  }

  lemma {:induction false} HoldsStep(q: seq<string>, r: string, evs: seq<Event>, n: nat)
    requires n < |evs| && Holds(q, r, evs, n)
    ensures Holds(if IsCallOn(r, evs[n]) then q + [Id(Drawn(evs, n))]
                  else if evs[n] == ResultEvent(r) && q != [] then q[1..] else q, r, evs, n + 1)
  {
    hide Holds, Drawn, Id;
    if IsCallOn(r, evs[n]) {
      HoldsAppended(q, r, evs, n);
    } else if evs[n] == ResultEvent(r) && q != [] {
      HoldsServed(q, r, evs, n);
    } else {
      HoldsKept(q, r, evs, n);
    }
  }

  lemma QueueStep(evs: seq<Event>, n: nat, r: string)
    requires n < |evs|
    ensures var q := After(evs, n).Queue(r);
            After(evs, n + 1).Queue(r) ==
            if IsCallOn(r, evs[n]) then q + [Id(After(evs, n).counter)]
            else if evs[n] == ResultEvent(r) && q != [] then q[1..] else q
    ensures After(evs, n + 1).counter == After(evs, n).counter
            + (if evs[n].ResultEvent? && After(evs, n).Queue(evs[n].id) != [] then 0 else 1)
  {
    hide After;
    assert After(evs, n + 1) == Step(After(evs, n), evs[n]) by { AfterStep(evs, n); }
  }

  lemma AfterStep(evs: seq<Event>, n: nat)
    requires n < |evs|
    ensures After(evs, n + 1) == Step(After(evs, n), evs[n])
    ensures Drawn(evs, n + 1) == Drawn(evs, n) + (if IsPaired(evs, n) then 0 else 1)
  {
  }

  lemma NothingHeld(evs: seq<Event>, r: string)
    ensures After(evs, 0).counter == Drawn(evs, 0) && Holds(After(evs, 0).Queue(r), r, evs, 0)
  {
  }

  lemma HeldIfPaired(evs: seq<Event>, n: nat)
    requires n < |evs| && evs[n].ResultEvent? && Holds(After(evs, n).Queue(evs[n].id), evs[n].id, evs, n)
    ensures IsPaired(evs, n) <==> After(evs, n).Queue(evs[n].id) != []
  {
  }

  /** The queue of a raw identifier holds, in order, the numbers of the calls on it
      that no result has taken yet. */
  lemma {:induction false} QueueIsWaiting(evs: seq<Event>, n: nat, r: string)
    requires n <= |evs|
    ensures After(evs, n).counter == Drawn(evs, n)
    ensures Holds(After(evs, n).Queue(r), r, evs, n)
  {
    hide After, Drawn, Id, CallsOn, PairedOn, NthCall, Holds;
    if n == 0 {
      NothingHeld(evs, r);
    } else {
      QueueIsWaiting(evs, n - 1, r);
      QueueStep(evs, n - 1, r);
      AfterStep(evs, n - 1);
      HoldsStep(After(evs, n - 1).Queue(r), r, evs, n - 1);
      if evs[n - 1].ResultEvent? {
        QueueIsWaiting(evs, n - 1, evs[n - 1].id);
        HeldIfPaired(evs, n - 1);
      }
    }
  }

  /** The pass refines the declarative pairing: a call or an orphan result carries its own
      number, and a paired result carries the number of the call it answers. */
  lemma RefinesPairing(evs: seq<Event>, e: nat)
    requires e < |evs|
    ensures Assign(evs)[e] == PairedId(evs, e)
  {
    QueueIsWaiting(evs, e, if evs[e].ResultEvent? then evs[e].id else "");
  }

  lemma {:induction false} DrawnGrows(evs: seq<Event>, a: nat, b: nat)
    requires a < b <= |evs| && !IsPaired(evs, a)
    ensures Drawn(evs, a) < Drawn(evs, b)
  {
    if a < b - 1 {
      DrawnGrows(evs, a, b - 1);
    }
  }

  /** No two calls or orphan results share an identifier, and two events share one
      exactly when they have the same owner. */
  lemma SharedIdMeansSameOwner(evs: seq<Event>, a: nat, b: nat)
    requires a < |evs| && b < |evs|
    ensures Assign(evs)[a] == Assign(evs)[b] <==> Owner(evs, a) == Owner(evs, b)
  {
    RefinesPairing(evs, a);
    RefinesPairing(evs, b);
    var m, n := Owner(evs, a), Owner(evs, b);
    FormatIdInjective("", Drawn(evs, m), Drawn(evs, n));
    if m < n {
      DrawnGrows(evs, m, n);
    } else if n < m {
      DrawnGrows(evs, n, m);
    }
  }

  lemma {:induction false} CountsMonotone(r: string, evs: seq<Event>, a: nat, b: nat)
    requires a <= b <= |evs|
    ensures PairedOn(r, evs, a) <= PairedOn(r, evs, b)
    ensures CallsOn(r, evs, a) <= CallsOn(r, evs, b)
  {
    if a < b {
      CountsMonotone(r, evs, a, b - 1);
    }
  }

  /** Two results never answer the same call, and results on one raw identifier
      answer its calls in order. */
  lemma NoCallPairedTwice(evs: seq<Event>, a: nat, b: nat)
    requires a < b < |evs| && IsPaired(evs, a) && IsPaired(evs, b)
    ensures Target(evs, a) != Target(evs, b)
    ensures evs[a] == evs[b] ==> Target(evs, a) < Target(evs, b)
  {
    if evs[a] == evs[b] {
      CountsMonotone(evs[a].id, evs, a + 1, b);
      if Target(evs, b) <= Target(evs, a) {
        CountsMonotone(evs[a].id, evs, Target(evs, b), Target(evs, a));
      }
    }
  }

  // ---------- the statistics ----------

  /** How many of the first `n` positions are in a set. */
  ghost function Where(evs: seq<Event>, n: nat, test: (seq<Event>, nat) -> bool): set<nat> {
    set e: nat | e < n && test(evs, e)
  }

  lemma WhereStep(evs: seq<Event>, n: nat, test: (seq<Event>, nat) -> bool)
    ensures |Where(evs, n + 1, test)| == |Where(evs, n, test)| + (if test(evs, n) then 1 else 0)
  {
    assert Where(evs, n + 1, test) == Where(evs, n, test) + (if test(evs, n) then {n} else {});
  }

  ghost predicate Repeats(evs: seq<Event>, e: nat) {
    e < |evs| && evs[e].CallEvent? && evs[e].raw.Some? &&
        exists d | 0 <= d < e :: evs[d].CallEvent? && evs[d].raw == evs[e].raw
  }

  ghost predicate Nameless(evs: seq<Event>, e: nat) {
    e < |evs| && evs[e].CallEvent? && evs[e].raw.None?
  }

  ghost predicate Answers(evs: seq<Event>, e: nat) {
    e < |evs| && IsPaired(evs, e)
  }

  ghost predicate Moved(evs: seq<Event>, e: nat) {
    Answers(evs, e) && PairedId(evs, e) != evs[e].id
  }

  ghost predicate Lost(evs: seq<Event>, e: nat) {
    e < |evs| && evs[e].ResultEvent? && !IsPaired(evs, e)
  }

  ghost predicate IsResult(evs: seq<Event>, e: nat) {
    e < |evs| && evs[e].ResultEvent?
  }

  lemma {:induction false} SeenRawIsCalled(evs: seq<Event>, n: nat, r: string)
    requires n <= |evs|
    ensures r in After(evs, n).seenRaw <==> exists d | 0 <= d < n :: IsCallOn(r, evs[d])
  {
    if n > 0 {
      SeenRawIsCalled(evs, n - 1, r);
    }
  }

  /** Each counter counts exactly the events it names. */
  lemma {:induction false} StatsCount(evs: seq<Event>, n: nat)
    requires n <= |evs|
    ensures After(evs, n).stats == Stats(|Where(evs, n, Repeats)|, |Where(evs, n, Nameless)|,
                                         |Where(evs, n, Moved)|, |Where(evs, n, Lost)|)
  {
    hide After, Where, Repeats, Nameless, Moved, Lost;
    if n == 0 {
      StatsBegin(evs);
    } else {
      StatsCount(evs, n - 1);
      WhereStep(evs, n - 1, Repeats);
      WhereStep(evs, n - 1, Nameless);
      WhereStep(evs, n - 1, Moved);
      WhereStep(evs, n - 1, Lost);
      StatsDelta(evs, n - 1);
    }
  }

  lemma StatsBegin(evs: seq<Event>)
    ensures After(evs, 0).stats == Stats(0, 0, 0, 0)
    ensures Where(evs, 0, Repeats) == {} && Where(evs, 0, Nameless) == {} && Where(evs, 0, Moved) == {}
            && Where(evs, 0, Lost) == {}
  {
    hide Repeats, Nameless, Moved, Lost;
  }

  lemma StatsDelta(evs: seq<Event>, e: nat)
    requires e < |evs|
    ensures var was, now := After(evs, e).stats, After(evs, e + 1).stats;
            && now.duplicate == was.duplicate + (if Repeats(evs, e) then 1 else 0)
            && now.missing == was.missing + (if Nameless(evs, e) then 1 else 0)
            && now.remapped == was.remapped + (if Moved(evs, e) then 1 else 0)
            && now.orphan == was.orphan + (if Lost(evs, e) then 1 else 0)
  {
    match evs[e]
    case CallEvent(_, None) =>
    case CallEvent(_, Some(r)) =>
      SeenRawIsCalled(evs, e, r);
      assert Repeats(evs, e) <==> exists d | 0 <= d < e :: IsCallOn(r, evs[d]);
    case ResultEvent(r) =>
      QueueIsWaiting(evs, e, r);
      RefinesPairing(evs, e);
  }

  /** Every identified result is either paired or an orphan. */
  lemma {:induction false} ResultsAddUp(evs: seq<Event>)
    ensures |Where(evs, |evs|, IsResult)| == |Where(evs, |evs|, Answers)| + After(evs, |evs|).stats.orphan
  {
    StatsCount(evs, |evs|);
    var results, paired, lost := Where(evs, |evs|, IsResult), Where(evs, |evs|, Answers), Where(evs, |evs|, Lost);
    assert results == paired + lost && paired !! lost;
  }

  // ---------- a second pass changes nothing ----------

  function Relabel(evs: seq<Event>, ids: seq<string>): (r: seq<Event>)
    requires |ids| == |evs|
    ensures |r| == |evs|
  {
    seq(|evs|, e requires 0 <= e < |evs| =>
      match evs[e]
      case CallEvent(isObject, _) => CallEvent(isObject, if isObject then Some(ids[e]) else None)
      case ResultEvent(_) => ResultEvent(ids[e]))
  }

  /** Only an object can carry an identifier. */
  ghost predicate WellFormed(evs: seq<Event>) {
    forall e | 0 <= e < |evs| :: evs[e].CallEvent? && evs[e].raw.Some? ==> evs[e].isObject
  }

  /** The queues of the first pass hold issued identifiers, none of them twice. */
  ghost predicate Apart(one: State) {
    && (forall r, i {:trigger one.Queue(r)[i]} | 0 <= i < |one.Queue(r)| :: Issued(one.Queue(r)[i], one.counter))
    && (forall r, i, s, j {:trigger one.Queue(r)[i], one.Queue(s)[j]}
          | 0 <= i < |one.Queue(r)| && 0 <= j < |one.Queue(s)| && one.Queue(r)[i] == one.Queue(s)[j] ::
              r == s && i == j)
  }

  /** An identifier that waits in the first pass waits, alone, under its own name in the second. */
  ghost predicate Echoed(one: State, two: State) {
    forall r, i {:trigger one.Queue(r)[i]} | 0 <= i < |one.Queue(r)| :: two.Queue(one.Queue(r)[i]) == [one.Queue(r)[i]]
  }

  ghost predicate OwnNames(two: State) {
    && (forall s | s in two.seenRaw :: Issued(s, two.counter))
    && (forall s | s in two.pending :: Issued(s, two.counter))
  }

  /** What ties the state of the second pass to the state of the first. */
  ghost predicate Tied(one: State, two: State) {
    && one.counter == two.counter
    && Apart(one) && Echoed(one, two) && OwnNames(two)
    && two.stats.duplicate == two.stats.remapped == 0
    && two.stats.orphan == one.stats.orphan
  }

  lemma IssuedGrows(below: nat)
    ensures forall s | Issued(s, below) :: Issued(s, below + 1)
    ensures Issued(Id(below), below + 1)
  {
    forall s | Issued(s, below) ensures Issued(s, below + 1) {
      var k: nat :| k < below && s == Id(k);
    }
  }

  /** Where the elements of a queue come from when one event is handled. */
  lemma QueueOrigin(st: State, ev: Event, r: string, i: nat)
    requires i < |Step(st, ev).Queue(r)|
    ensures var k := if ev == ResultEvent(r) && st.Queue(r) != [] then i + 1 else i;
            || (k < |st.Queue(r)| && Step(st, ev).Queue(r)[i] == st.Queue(r)[k])
            || (ev.CallEvent? && ev.raw == Some(r) && i == |st.Queue(r)| && Step(st, ev).Queue(r)[i] == Id(st.counter))
  {
  }

  lemma ApartStep(one: State, ev: Event)
    requires Apart(one)
    ensures Apart(Step(one, ev))
  {
    NextIdIsUnused(one.counter);
    IssuedGrows(one.counter);
    var one' := Step(one, ev);
    forall r, i | 0 <= i < |one'.Queue(r)| ensures Issued(one'.Queue(r)[i], one'.counter) {
      QueueOrigin(one, ev, r, i);
    }
    forall r, i, s, j | 0 <= i < |one'.Queue(r)| && 0 <= j < |one'.Queue(s)| && one'.Queue(r)[i] == one'.Queue(s)[j]
      ensures r == s && i == j
    {
      QueueOrigin(one, ev, r, i);
      QueueOrigin(one, ev, s, j);
    }
  }

  lemma TiedCall(one: State, two: State, isObject: bool, raw: Option<string>)
    requires Tied(one, two) && (raw.Some? ==> isObject)
    ensures Tied(Step(one, CallEvent(isObject, raw)),
                 Step(two, CallEvent(isObject, if isObject then Some(Id(one.counter)) else None)))
  {
    var id, ev := Id(one.counter), CallEvent(isObject, raw);
    var one', two' := Step(one, ev), Step(two, CallEvent(isObject, if isObject then Some(id) else None));
    NextIdIsUnused(one.counter);
    IssuedGrows(one.counter);
    ApartStep(one, ev);
    forall r, i | 0 <= i < |one'.Queue(r)| ensures two'.Queue(one'.Queue(r)[i]) == [one'.Queue(r)[i]] {
      QueueOrigin(one, ev, r, i);
    }
  }

  lemma TiedResult(one: State, two: State, r: string)
    requires Tied(one, two)
    ensures var id := IdFor(one, ResultEvent(r));
            && IdFor(two, ResultEvent(id)) == id
            && Tied(Step(one, ResultEvent(r)), Step(two, ResultEvent(id)))
  {
    var id, ev := IdFor(one, ResultEvent(r)), ResultEvent(r);
    var one', two' := Step(one, ev), Step(two, ResultEvent(id));
    NextIdIsUnused(one.counter);
    IssuedGrows(one.counter);
    ApartStep(one, ev);
    if one.Queue(r) != [] {
      assert two.Queue(one.Queue(r)[0]) == [id];
    } else {
      assert two.Queue(id) == [];
    }
    forall s, i | 0 <= i < |one'.Queue(s)| ensures two'.Queue(one'.Queue(s)[i]) == [one'.Queue(s)[i]] {
      QueueOrigin(one, ev, s, i);
    }
  }

  lemma SecondPassStep(evs: seq<Event>, again: seq<Event>, e: nat)
    requires WellFormed(evs) && e < |evs| && again == Relabel(evs, Assign(evs))
    requires Tied(After(evs, e), After(again, e))
    ensures IdAt(again, e) == IdAt(evs, e)
    ensures Tied(After(evs, e + 1), After(again, e + 1))
  {
    match evs[e]
    case CallEvent(isObject, raw) => TiedCall(After(evs, e), After(again, e), isObject, raw);
    case ResultEvent(r) => TiedResult(After(evs, e), After(again, e), r);
  }

  lemma TiedInitially()
    ensures Tied(INITIAL, INITIAL)
  {
  }

  lemma {:induction false} SecondPass(evs: seq<Event>, again: seq<Event>, n: nat)
    requires WellFormed(evs) && n <= |evs| && again == Relabel(evs, Assign(evs))
    ensures Tied(After(evs, n), After(again, n))
    ensures forall e | 0 <= e < n :: IdAt(again, e) == IdAt(evs, e)
  {
    hide *;
    AfterNothing(evs);
    AfterNothing(again);
    TiedInitially();
    if n > 0 {
      SecondPass(evs, again, n - 1);
      SecondPassStep(evs, again, n - 1);
    }
  }

  lemma {:induction false} EventsWellFormed(ms: seq<Message>, n: nat)
    requires n <= |ms|
    ensures WellFormed(UpTo(Parts(ms), n))
  {
    if n > 0 {
      EventsWellFormed(ms, n - 1);
    }
  }

  lemma EventsOfRewrite(m: Message, ids: seq<string>)
    requires |ids| == |EventsOf(m)| && "" !in ids
    ensures EventsOf(Rewrite(m, ids)) == Relabel(EventsOf(m), ids)
    ensures Rewrite(Rewrite(m, ids), ids) == Rewrite(m, ids)
  {
    if m.role == "assistant" && m.calls.Some? {
      var calls := RewriteCalls(m.calls.value, ids);
      forall i | 0 <= i < |ids| ensures CallEvents(calls)[i] == Relabel(EventsOf(m), ids)[i] {
        assert ids[i] in ids;
      }
      assert RewriteCalls(calls, ids) == calls;
    }
  }

  lemma RelabelConcat(a: seq<Event>, b: seq<Event>, x: seq<string>, y: seq<string>)
    requires |a| == |x| && |b| == |y|
    ensures Relabel([], []) == []
    ensures Relabel(a + b, x + y) == Relabel(a, x) + Relabel(b, y)
  {
  }

  lemma {:induction false} RelabelParts(parts: seq<seq<Event>>, parts': seq<seq<Event>>, ids: seq<string>, n: nat)
    requires n <= |parts| == |parts'| && |ids| == |Concat(parts)|
    requires forall i | 0 <= i < |parts| :: parts'[i] == Relabel(parts[i], Stretch(parts, i, ids))
    ensures Offset(parts', n) == Offset(parts, n) <= |ids|
    ensures UpTo(parts', n) == Relabel(UpTo(parts, n), ids[..Offset(parts, n)])
  {
    hide Relabel, Stretch;
    if n > 0 {
      RelabelParts(parts, parts', ids, n - 1);
      StretchStep(parts, n - 1, ids);
      RelabelConcat(UpTo(parts, n - 1), parts[n - 1], ids[..Offset(parts, n - 1)], Stretch(parts, n - 1, ids));
    } else {
      RelabelConcat([], [], [], []);
      assert ids[..0] == [];
    }
  }

  /** The events of a rewritten transcript are the old events under their new identifiers,
      and they fall in the same messages. */
  lemma EventsOfRewritten(ms: seq<Message>, ids: seq<string>, i: nat)
    requires |ids| == |Events(ms)| && "" !in ids && i <= |ms|
    ensures Events(RewriteAll(ms, ids)) == Relabel(Events(ms), ids)
    ensures Offset(Parts(RewriteAll(ms, ids)), i) == Offset(Parts(ms), i)
  {
    hide Relabel, EventsOf, Rewrite, UpTo, Offset, Stretch;
    var parts, parts' := Parts(ms), Parts(RewriteAll(ms, ids));
    forall k | 0 <= k < |ms|
      ensures parts'[k] == Relabel(parts[k], Stretch(parts, k, ids))
    {
      StretchStep(parts, k, ids);
      EventsOfRewrite(ms[k], IdsOf(ms, k, ids));
    }
    RelabelParts(parts, parts', ids, |ms|);
    RelabelParts(parts, parts', ids, i);
    assert ids[..|ids|] == ids;
  }

  lemma AssignedIdsNotEmpty(evs: seq<Event>)
    ensures "" !in Assign(evs)
  {
    forall e: nat | e < |evs| ensures Assign(evs)[e] != "" {
      RefinesPairing(evs, e);
      FormatIdLength("", Drawn(evs, Owner(evs, e)));
    }
  }

  /** Normalising twice is normalising once; the second pass meets no duplicate identifier,
      moves no result, and meets the same orphans again. */
  lemma NormalizingIsIdempotent(ms: seq<Message>)
    ensures Normalized(Normalized(ms)) == Normalized(ms)
    ensures var again := FinalStats(Normalized(ms));
            again.duplicate == again.remapped == 0 && again.orphan == FinalStats(ms).orphan
  {
    hide *;
    var evs := Events(ms);
    var ids := Assign(evs);
    AssignedIdsNotEmpty(evs);
    AllWellFormed(ms);
    SameIds(evs, Relabel(evs, ids));
    EventsOfRewritten(ms, ids, |ms|);
    RewriteTwice(ms, ids);
    NormalizedIs(ms);
    NormalizedIs(RewriteAll(ms, ids));
  }

  lemma NormalizedIs(ms: seq<Message>)
    ensures Normalized(ms) == RewriteAll(ms, Assign(Events(ms)))
    ensures FinalStats(ms) == After(Events(ms), |Events(ms)|).stats
  {
  }

  lemma AllWellFormed(ms: seq<Message>)
    ensures WellFormed(Events(ms))
  {
    EventsWellFormed(ms, |ms|);
  }

  lemma SameIds(evs: seq<Event>, again: seq<Event>)
    requires WellFormed(evs) && again == Relabel(evs, Assign(evs))
    ensures Assign(again) == Assign(evs)
    ensures var st := After(again, |again|).stats;
            st.duplicate == st.remapped == 0 && st.orphan == After(evs, |evs|).stats.orphan
  {
    hide After, Relabel, IdAt;
    SecondPass(evs, again, |evs|);
  }

  lemma RewriteTwice(ms: seq<Message>, ids: seq<string>)
    requires |ids| == |Events(ms)| && "" !in ids
    ensures |Events(RewriteAll(ms, ids))| == |ids| && RewriteAll(RewriteAll(ms, ids), ids) == RewriteAll(ms, ids)
  {
    hide Relabel, EventsOf, Rewrite, UpTo, Offset, Stretch;
    var out := RewriteAll(ms, ids);
    EventsOfRewritten(ms, ids, |ms|);
    forall i | 0 <= i < |ms| ensures RewriteAll(out, ids)[i] == out[i] {
      EventsOfRewritten(ms, ids, i);
      EventsOfRewritten(ms, ids, i + 1);
      StretchStep(Parts(ms), i, ids);
      StretchStep(Parts(out), i, ids);
      EventsOfRewrite(ms[i], IdsOf(ms, i, ids));
    }
  }
}
