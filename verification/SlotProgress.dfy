/** What the participants of the slot get done when nobody calls any more: every continuation ends, and every state in
    which the locks are not crossed can come to rest with all its tasks done. */
module SlotProgress {
  import opened Wrappers
  import opened SlotWorker

  /** A step of somebody who is already inside. */
  predicate Inside(a: Action) {
    !a.Call? && !a.CancelCurrent?
  }

  /** The state after these actions; `None` once one could not happen. */
  function From(s: State, run: seq<Action>): Option<State>
    decreases |run|
  {
    if run == [] then Some(s)
    else match Next(s, run[0])
      case None => None
      case Some(t) => From(t, run[1..])
  }

  // ---------- the work that is left ----------

  /** An upper bound on the steps a call still takes and makes the worker take. */
  function CallLeft(p: SubmitPoint): nat {
    match p
    case Start => 18
    case WantCancel(_) => 17
    case Insert => 16
    case Notify => 5
    case Leaving => 1
    case Returned => 0
  }

  function CallsLeft(submits: map<nat, Submit>, n: nat): nat {
    if n == 0 then 0
    else CallsLeft(submits, n - 1) + if n - 1 in submits then CallLeft(submits[n - 1].point) else 0
  }

  function WorkerLeft(w: Worker, idle: bool): nat {
    match w
    case Parked => 0
    case Await => 1
    case TakeFirst => if idle then 4 else 2
    case CheckQueue => 3
    case Report(_) => 4
    case ClearPrio(_) => 5
    case ClearCancel(_) => 6
    case Run(_) => 7
    case Subscribe(_) => 8
    case SetPrio(_) => 9
    case SetCancel(_) => 10
    case CheckReceiver(_) => 11
  }

  /** All calls have identifiers below `n`. */
  predicate Bounded(s: State, n: nat) {
    forall id | id in s.submits :: id < n
  }

  function Left(s: State, n: nat): nat {
    CallsLeft(s.submits, n) + 10 * |s.queue| + WorkerLeft(s.worker, s.queue == []) + if s.permit then 3 else 0
  }

  lemma {:induction false} CallsLeftMoved(submits: map<nat, Submit>, id: nat, call: Submit, n: nat)
    requires id in submits
    ensures CallsLeft(submits[id := call], n)
            == CallsLeft(submits, n) + if id < n then CallLeft(call.point) - CallLeft(submits[id].point) else 0
  {
    hide CallLeft;
    if n > 0 {
      CallsLeftMoved(submits, id, call, n - 1);
    }
  }

  lemma WorkerMakesProgress(s: State, receiverClosed: bool, n: nat)
    requires WorkerNext(s, receiverClosed).Some? && Bounded(s, n)
    ensures var s' := WorkerNext(s, receiverClosed).value;
            Bounded(s', n) && s'.submits.Keys == s.submits.Keys && Left(s', n) < Left(s, n)
  {
    hide CallsLeft;
    CallsFrame(s, receiverClosed);
  }

  /** A submitter moves its own call only. */
  lemma CallMoves(s: State, a: Action)
    requires Next(s, a).Some? && Inside(a) && !a.WorkerStep? && !a.InsertTask?
    ensures a.id in s.submits
    ensures var s' := Next(s, a).value;
            && s'.queue == s.queue && a.id in s'.submits && s'.submits == s.submits[a.id := s'.submits[a.id]]
            && CallLeft(s'.submits[a.id].point) + (if a.NotifyOne? then 4 else 1) <= CallLeft(s.submits[a.id].point)
            && (!a.NotifyOne? ==> s'.worker == s.worker && s'.permit == s.permit)
            && (s'.worker == s.worker || (s.worker.Parked? && s'.worker.CheckQueue? && s'.permit == s.permit))
  {
    hide HasReceiver, Enqueued, WorkerNext;
  }

  lemma InsertionMoves(s: State, a: Action)
    requires Next(s, a).Some? && a.InsertTask?
    ensures a.id in s.submits && s.submits[a.id].point == Insert
    ensures var s' := Next(s, a).value;
            && |s'.queue| == |s.queue| + 1 && s'.submits == s.submits[a.id := Submit(s.submits[a.id].priority, Notify)]
            && s'.worker == s.worker && s'.permit == s.permit
  {
    hide HasReceiver, Enqueued, WorkerNext;
    var s' := Next(s, a).value;
    EnqueuedContents(s.queue, Task(a.id, s.submits[a.id].priority, |s.arrived|));
    assert |s'.queue| == |multiset(s'.queue)|;
  }

  /** Every step inside leaves less to do. */
  lemma StepMakesProgress(s: State, a: Action, n: nat)
    requires Next(s, a).Some? && Inside(a) && Bounded(s, n)
    ensures var s' := Next(s, a).value;
            Bounded(s', n) && s'.submits.Keys == s.submits.Keys && Left(s', n) < Left(s, n)
  {
    hide CallsLeft, HasReceiver, Enqueued, WorkerNext;
    if a.WorkerStep? {
      WorkerMakesProgress(s, a.receiverClosed, n);
    } else {
      var s' := Next(s, a).value;
      hide Next;
      if a.InsertTask? {
        InsertionMoves(s, a);
      } else {
        CallMoves(s, a);
      }
      CallsLeftMoved(s.submits, a.id, s'.submits[a.id], n);
    }
  }

  /** A continuation without new calls takes no more steps than are left. */
  lemma {:induction false} ContinuationEnds(s: State, run: seq<Action>, n: nat)
    requires Bounded(s, n) && (forall a | a in run :: Inside(a)) && From(s, run).Some?
    ensures Bounded(From(s, run).value, n) && |run| + Left(From(s, run).value, n) <= Left(s, n)
    ensures From(s, run).value.submits.Keys == s.submits.Keys
    decreases |run|
  {
    hide Left, Next, Bounded;
    if run != [] {
      StepMakesProgress(s, run[0], n);
      ContinuationEnds(Next(s, run[0]).value, run[1..], n);
    }
  }

  // ---------- coming to rest ----------

  /** All calls have returned, and the task of each is finished or dropped. */
  ghost predicate Done(s: State) {
    && AtRest(s) && s.queue == []
    && (forall id | id in s.submits :: HasArrived(s, id))
    && forall t | t in s.arrived :: t in s.finished || t in s.dropped
  }

  lemma RestIsDone(s: State)
    requires Reachable(s) && AtRest(s)
    ensures Done(s)
  {
    StuckExactly(s);
    hide Reachable, HasArrived;
    forall id | id in s.submits ensures HasArrived(s, id) {
      OneTaskPerCall(s, id);
    }
    forall t | t in s.arrived ensures t in s.finished || t in s.dropped {
      EveryTaskInOnePlace(s, t);
    }
  }

  /** Whoever holds the priority lock goes first, then the worker, then any call: that never crosses the locks. */
  lemma GoodMove(s: State) returns (a: Action)
    requires Reachable(s) && !Crossed(s) && !AtRest(s)
    ensures Inside(a) && Next(s, a).Some? && !Crossed(Next(s, a).value)
  {
    ReachableInvariant(s);
    LocksSuffice(s);
    if s.prioLock.Some? {
      a := SendCancel(s.prioLock.value);
      assert Next(s, a).Some? by { hide Invariant; }
      CellsFrame(s, a);
    } else if !s.worker.Parked? {
      a := WorkerStep(false);
      WorkerKeepsCells(s, false);
    } else {
      hide Invariant;
      var id :| id in s.submits && !s.submits[id].point.Returned?;
      a := match s.submits[id].point
        case Start => ComparePriority(id)
        case WantCancel(_) => SendCancel(id)
        case Insert => InsertTask(id)
        case Notify => NotifyOne(id)
        case _ => Return(id);
      CellsFrame(s, a);
    }
  }

  /** These steps inside bring the state to rest. */
  ghost predicate BringsToRest(s: State, run: seq<Action>) {
    && (forall a | a in run :: Inside(a)) && From(s, run).Some?
    && From(s, run).value.submits.Keys == s.submits.Keys && Done(From(s, run).value)
  }

  lemma {:induction false} ComesToRest(s: State, n: nat) returns (run: seq<Action>)
    requires Reachable(s) && !Crossed(s) && Bounded(s, n)
    ensures BringsToRest(s, run)
    decreases Left(s, n)
  {
    hide Reachable, Crossed, AtRest, Done, Bounded, Left, Next;
    if AtRest(s) {
      run := [];
      RestIsDone(s);
    } else {
      var a := GoodMove(s);
      ReachableStep(s, a);
      StepMakesProgress(s, a, n);
      var rest := ComesToRest(Next(s, a).value, n);
      run := [a] + rest;
      assert run[1..] == rest;
    }
  }

  lemma SomeBound(ids: set<nat>) returns (n: nat)
    ensures forall id | id in ids :: id < n
  {
    if ids == {} {
      n := 0;
    } else {
      var id :| id in ids;
      var m := SomeBound(ids - {id});
      n := if id < m then m else id + 1;
      assert forall k | k in ids :: k == id || k in ids - {id};
    }
  }

  lemma {:induction false} CrossedNeverRests(s: State, run: seq<Action>)
    requires Reachable(s) && Crossed(s) && From(s, run).Some?
    ensures !AtRest(From(s, run).value)
    decreases |run|
  {
    if run != [] {
      CrossedForEver(s, run[0]);
      ReachableStep(s, run[0]);
      CrossedNeverRests(Next(s, run[0]).value, run[1..]);
    }
  }

  /** Without new calls a reachable state can come to rest, every call returned and every task finished or dropped,
      exactly when its locks are not crossed. */
  lemma RestsExactly(s: State)
    requires Reachable(s)
    ensures (exists run :: BringsToRest(s, run)) <==> !Crossed(s)
  {
    hide Reachable, Crossed, AtRest, From;
    if Crossed(s) {
      forall run ensures !BringsToRest(s, run) {
        if From(s, run).Some? {
          CrossedNeverRests(s, run);
        }
      }
    } else {
      var n := SomeBound(s.submits.Keys);
      var run := ComesToRest(s, n);
    }
  }

  lemma {:induction false} ReachableFrom(s: State, run: seq<Action>)
    requires Reachable(s) && From(s, run).Some?
    ensures Reachable(From(s, run).value)
    decreases |run|
  {
    hide Reachable, Next;
    if run != [] {
      ReachableStep(s, run[0]);
      ReachableFrom(Next(s, run[0]).value, run[1..]);
    }
  }

  /** And whatever those inside do, in whatever order: after a bounded number of steps they cannot go on, and then all
      is done, or the locks are crossed. */
  lemma EveryContinuationSettles(s: State) returns (bound: nat)
    requires Reachable(s)
    ensures forall run: seq<Action> | (forall a | a in run :: Inside(a)) && From(s, run).Some? ::
              && |run| <= bound
              && (Stuck(From(s, run).value) ==> Done(From(s, run).value) || Crossed(From(s, run).value))
  {
    var n := SomeBound(s.submits.Keys);
    bound := Left(s, n);
    hide Reachable, Crossed, AtRest, Left, From, Stuck, Inside, Done;
    forall run: seq<Action> | (forall a | a in run :: Inside(a)) && From(s, run).Some?
      ensures |run| <= bound
      ensures Stuck(From(s, run).value) ==> Done(From(s, run).value) || Crossed(From(s, run).value)
    {
      ContinuationEnds(s, run, n);
      ReachableFrom(s, run);
      StuckExactly(From(s, run).value);
      if AtRest(From(s, run).value) {
        RestIsDone(From(s, run).value);
      }
    }
  }
}
