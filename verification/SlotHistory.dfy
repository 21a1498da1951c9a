/** The history of a run of the slot worker: which tasks were run, when, and in which order. */
module SlotHistory {
  import opened Wrappers
  import opened SlotWorker

  /** After `n` actions the worker is running this task. */
  predicate Running(run: seq<Action>, n: nat, t: Task)
    requires n <= |run|
  {
    After(run, n).Some? && After(run, n).value.worker == Run(t)
  }

  lemma {:induction false} EarlierHappened(run: seq<Action>, k: nat, n: nat)
    requires k <= n <= |run| && After(run, n).Some?
    ensures After(run, k).Some?
    decreases n
  {
    hide Next;
    if k < n {
      EarlierHappened(run, k, n - 1);
    }
  }

  lemma NextAfter(run: seq<Action>, n: nat)
    requires n < |run| && After(run, n + 1).Some?
    ensures After(run, n).Some? && Next(After(run, n).value, run[n]) == After(run, n + 1)
  {
    hide Next;
  }

  // ---------- each finished task ran once ----------

  /** Not yet run, running, or past it. */
  function Stage(s: State, t: Task): nat {
    if t in s.finished || s.worker in {ClearCancel(t), ClearPrio(t), Report(t)} then 2
    else if s.worker == Run(t) then 1
    else 0
  }

  lemma StageStep(s: State, a: Action, t: Task)
    requires Next(s, a).Some?
    ensures Stage(s, t) <= Stage(Next(s, a).value, t) <= Stage(s, t) + 1
  {
    if a.WorkerStep? {
      WorkerStage(s, a.receiverClosed, t);
    } else {
      if !a.InsertTask? {
        HistoryFrame(s, a);
      } else {
        InsertionFrame(s, a);
      }
      hide Next, WorkerNext;
    }
  }

  lemma InsertionFrame(s: State, a: Action)
    requires Next(s, a).Some? && a.InsertTask?
    ensures var s' := Next(s, a).value;
            s'.worker == s.worker && s'.finished == s.finished && s'.dropped == s.dropped && s'.served == s.served
  {
    hide Enqueued, WorkerNext, HasReceiver;
  }

  lemma WorkerStage(s: State, receiverClosed: bool, t: Task)
    requires WorkerNext(s, receiverClosed).Some?
    ensures Stage(s, t) <= Stage(WorkerNext(s, receiverClosed).value, t) <= Stage(s, t) + 1
  {
  }

  /** The stage of a task only ever grows, one at a time. */
  lemma {:induction false} Stretch(run: seq<Action>, n: nat, t: Task) returns (lo: nat, hi: nat)
    requires n <= |run| && After(run, n).Some?
    ensures lo <= hi <= n + 1 && (lo == hi ==> lo == n + 1)
    ensures forall k | 0 <= k <= n :: After(run, k).Some?
              && (Stage(After(run, k).value, t) >= 1 <==> k >= lo) && (Stage(After(run, k).value, t) >= 2 <==> k >= hi)
  {
    hide Next;
    if n == 0 {
      lo, hi := 1, 1;
    } else {
      NextAfter(run, n - 1);
      lo, hi := Stretch(run, n - 1, t);
      StageStep(After(run, n - 1).value, run[n - 1], t);
      hide After, Stage;
      var stage := Stage(After(run, n).value, t);
      lo, hi := if lo < n || stage >= 1 then lo else n + 1, if hi < n || stage >= 2 then hi else n + 1;
    }
  }

  /** A finished task is at no other place, so it is not running. */
  lemma RunningIsStageOne(run: seq<Action>, n: nat, t: Task)
    requires n <= |run| && After(run, n).Some?
    ensures Running(run, n, t) <==> Stage(After(run, n).value, t) == 1
    ensures t in After(run, n).value.dropped ==> Stage(After(run, n).value, t) == 0
  {
    hide After;
    var s := After(run, n).value;
    RunKeepsInvariant(run, n);
    hide Invariant;
    PlacedOnce(s, t);
  }

  /** Every finished task was running in exactly one stretch of the run; a dropped one never was, nor was one that still
      waits. */
  lemma FinishedRanOnce(run: seq<Action>, t: Task) returns (lo: nat, hi: nat)
    requires After(run, |run|).Some?
    ensures t in After(run, |run|).value.finished ==>
              lo < hi <= |run| && forall k | 0 <= k <= |run| :: Running(run, k, t) <==> lo <= k < hi
    ensures t in After(run, |run|).value.dropped || t in After(run, |run|).value.queue ==>
              forall k | 0 <= k <= |run| :: !Running(run, k, t)
  {
    lo, hi := Stretch(run, |run|, t);
    var s := After(run, |run|).value;
    RunKeepsInvariant(run, |run|);
    hide Invariant, After;
    PlacedOnce(s, t);
    forall k | 0 <= k <= |run| ensures Running(run, k, t) <==> lo <= k < hi {
      RunningIsStageOne(run, k, t);
    }
  }

  // ---------- who is dropped ----------

  /** At step `k` the worker looked whether the task's receiver was still there. */
  predicate LookedAt(run: seq<Action>, k: nat, t: Task, closed: bool)
    requires k < |run|
  {
    After(run, k).Some? && After(run, k).value.worker == CheckReceiver(t) && run[k] == WorkerStep(closed)
  }

  lemma DropStep(s: State, a: Action, t: Task)
    requires Next(s, a).Some?
    ensures t in Next(s, a).value.dropped
            <==> t in s.dropped || (s.worker == CheckReceiver(t) && a == WorkerStep(true))
  {
    if !a.WorkerStep? {
      if a.InsertTask? {
        InsertionFrame(s, a);
      } else {
        HistoryFrame(s, a);
      }
      hide Next;
    }
  }

  /** A task is dropped exactly when its receiver was found closed. */
  lemma {:induction false} DroppedExactly(run: seq<Action>, n: nat, t: Task)
    requires n <= |run| && After(run, n).Some?
    ensures t in After(run, n).value.dropped <==> exists k | 0 <= k < n :: LookedAt(run, k, t, true)
  {
    hide Next;
    if n > 0 {
      NextAfter(run, n - 1);
      DroppedExactly(run, n - 1, t);
      DropStep(After(run, n - 1).value, run[n - 1], t);
      assert LookedAt(run, n - 1, t, true)
        <==> After(run, n - 1).value.worker == CheckReceiver(t) && run[n - 1] == WorkerStep(true);
      hide LookedAt, After;
    }
  }

  predicate PastLooking(s: State, t: Task) {
    s.worker in {SetCancel(t), SetPrio(t), Subscribe(t), Run(t), ClearCancel(t), ClearPrio(t), Report(t)}
    || t in s.finished
  }

  lemma LookStep(s: State, a: Action, t: Task)
    requires Next(s, a).Some? && PastLooking(Next(s, a).value, t)
    ensures PastLooking(s, t) || (s.worker == CheckReceiver(t) && a == WorkerStep(false))
  {
    if !a.WorkerStep? {
      if a.InsertTask? {
        InsertionFrame(s, a);
      } else {
        HistoryFrame(s, a);
      }
      hide Next;
    }
  }

  /** A task gets past that look, to be run and finished, only when its receiver was found open. */
  lemma {:induction false} RunWhenOpen(run: seq<Action>, n: nat, t: Task)
    requires n <= |run| && After(run, n).Some? && PastLooking(After(run, n).value, t)
    ensures exists k | 0 <= k < n :: LookedAt(run, k, t, false)
  {
    hide Next;
    if n > 0 {
      NextAfter(run, n - 1);
      LookStep(After(run, n - 1).value, run[n - 1], t);
      if PastLooking(After(run, n - 1).value, t) {
        RunWhenOpen(run, n - 1, t);
      } else {
        assert LookedAt(run, n - 1, t, false);
      }
    }
  }

  // ---------- the order of service ----------

  predicate Over(s: State, t: Task) {
    t in s.finished || t in s.dropped
  }

  /** The tasks taken so far are over, but for the last if it is in hand; and none was taken twice. */
  ghost predicate ServedInTurn(s: State) {
    && (forall i | 0 <= i < |s.served| :: Over(s, s.served[i].task) || i == |s.served| - 1)
    && (forall t | InHand(s.worker, t) :: s.served != [] && s.served[|s.served| - 1].task == t)
    && ((forall t :: !InHand(s.worker, t)) ==> forall i | 0 <= i < |s.served| :: Over(s, s.served[i].task))
    && (forall i, j | 0 <= i < j < |s.served| :: s.served[i].task != s.served[j].task)
  }

  lemma OverStays(s: State, a: Action, t: Task)
    requires Next(s, a).Some? && Over(s, t)
    ensures Over(Next(s, a).value, t)
  {
    StageStep(s, a, t);
    DropStep(s, a, t);
    if !a.WorkerStep? {
      if a.InsertTask? {
        InsertionFrame(s, a);
      } else {
        HistoryFrame(s, a);
      }
      hide Next;
    }
  }

  lemma TakenIsNew(s: State)
    requires Invariant(s) && ServedInTurn(s) && s.worker.TakeFirst? && s.queue != []
    ensures forall i | 0 <= i < |s.served| :: s.served[i].task != s.queue[0]
  {
    hide Invariant;
    PlacedOnce(s, s.queue[0]);
    assert s.queue[0] in s.queue;
    assert forall t :: !InHand(s.worker, t);
    hide ServedInTurn;
  }

  lemma InHandIsOne(w: Worker, t: Task)
    requires InHand(w, t)
    ensures forall u :: InHand(w, u) ==> u == t
  {
  }

  /** Whatever else the worker does, a task leaves its hand only when it is over. */
  lemma HandKept(s: State, receiverClosed: bool)
    requires WorkerNext(s, receiverClosed).Some? && !(s.worker.TakeFirst? && s.queue != [])
    ensures var s' := WorkerNext(s, receiverClosed).value;
            && s'.served == s.served
            && (forall t :: InHand(s'.worker, t) ==> InHand(s.worker, t))
            && (forall t :: InHand(s.worker, t) ==> InHand(s'.worker, t) || Over(s', t))
            && (forall t :: Over(s, t) ==> Over(s', t))
  {
  }

  lemma TakingEndsNothing(s: State, receiverClosed: bool)
    requires s.worker.TakeFirst? && s.queue != []
    ensures forall t :: Over(s, t) == Over(WorkerNext(s, receiverClosed).value, t)
  {
  }

  lemma WorkerServesInTurn(s: State, receiverClosed: bool)
    requires WorkerNext(s, receiverClosed).Some? && Invariant(s) && ServedInTurn(s)
    ensures ServedInTurn(WorkerNext(s, receiverClosed).value)
  {
    var s' := WorkerNext(s, receiverClosed).value;
    if s.worker.TakeFirst? && s.queue != [] {
      TakenIsNew(s);
      hide Invariant;
      assert forall t :: !InHand(s.worker, t);
      assert s'.served == s.served + [Service(s.queue[0], |s.arrived|)] && InHand(s'.worker, s.queue[0]);
      hide WorkerNext, InHand;
      assert forall i | 0 <= i < |s.served| :: s'.served[i] == s.served[i] && Over(s, s.served[i].task);
      assert forall t :: InHand(s'.worker, t) ==> t == s.queue[0] by { InHandIsOne(s'.worker, s.queue[0]); }
      assert forall t :: Over(s, t) == Over(s', t) by { TakingEndsNothing(s, receiverClosed); }
    } else {
      hide Invariant;
      HandKept(s, receiverClosed);
      hide WorkerNext, InHand, Over;
      if i :| 0 <= i < |s.served| && !Over(s', s.served[i].task) {
        assert !Over(s, s.served[i].task);
        assert i == |s.served| - 1;
        var t :| InHand(s.worker, t);
        assert s.served[i].task == t && InHand(s'.worker, t);
      }
    }
  }

  lemma StepServesInTurn(s: State, a: Action)
    requires Next(s, a).Some? && Invariant(s) && ServedInTurn(s)
    ensures ServedInTurn(Next(s, a).value)
  {
    if a.WorkerStep? {
      WorkerServesInTurn(s, a.receiverClosed);
    } else {
      hide Invariant;
      if a.InsertTask? {
        InsertionFrame(s, a);
      } else {
        HistoryFrame(s, a);
        ServedFrame(s, a);
      }
      hide Next;
      assert forall t :: InHand(Next(s, a).value.worker, t) == InHand(s.worker, t);
      assert forall t :: Over(Next(s, a).value, t) == Over(s, t);
    }
  }

  lemma ServedFrame(s: State, a: Action)
    requires Next(s, a).Some? && !a.WorkerStep?
    ensures Next(s, a).value.served == s.served
  {
    hide Enqueued, WorkerNext, HasReceiver;
  }

  lemma {:induction false} AllServedInTurn(run: seq<Action>, n: nat)
    requires n <= |run| && After(run, n).Some?
    ensures ServedInTurn(After(run, n).value)
  {
    hide Next;
    if n > 0 {
      NextAfter(run, n - 1);
      AllServedInTurn(run, n - 1);
      RunKeepsInvariant(run, n - 1);
      StepServesInTurn(After(run, n - 1).value, run[n - 1]);
    }
  }

  lemma {:induction false} LaterStates(run: seq<Action>, k: nat, n: nat, t: Task)
    requires k <= n <= |run| && After(run, n).Some? && After(run, k).Some?
    ensures After(run, k).value.served <= After(run, n).value.served
    ensures Over(After(run, k).value, t) ==> Over(After(run, n).value, t)
    decreases n
  {
    hide Next, Over;
    if k < n {
      NextAfter(run, n - 1);
      LaterStates(run, k, n - 1, t);
      ServedGrows(After(run, n - 1).value, run[n - 1]);
      if Over(After(run, n - 1).value, t) {
        OverStays(After(run, n - 1).value, run[n - 1], t);
      }
    }
  }

  lemma ServedGrows(s: State, a: Action)
    requires Next(s, a).Some?
    ensures s.served <= Next(s, a).value.served
  {
    if !a.WorkerStep? {
      ServedFrame(s, a);
    }
  }

  lemma RunningIsInHand(run: seq<Action>, n: nat, t: Task)
    requires n <= |run| && After(run, n).Some? && Running(run, n, t)
    ensures InHand(After(run, n).value.worker, t) && !Over(After(run, n).value, t)
  {
    hide After;
    RunKeepsInvariant(run, n);
    hide Invariant;
    PlacedOnce(After(run, n).value, t);
  }

  /** Tasks run in the order in which they were taken from the queue: one is over before the next runs. */
  lemma RunsInOrderOfService(run: seq<Action>, i: nat, j: nat, k: nat, l: nat)
    requires After(run, |run|).Some? && i < j < |After(run, |run|).value.served| && k <= |run| && l <= |run|
    requires Running(run, k, After(run, |run|).value.served[i].task)
    requires Running(run, l, After(run, |run|).value.served[j].task)
    ensures k < l
  {
    var served := After(run, |run|).value.served;
    var a, b := served[i].task, served[j].task;
    EarlierHappened(run, k, |run|);
    EarlierHappened(run, l, |run|);
    hide After;
    RunningIsInHand(run, k, a);
    RunningIsInHand(run, l, b);
    AllServedInTurn(run, l);
    AllServedInTurn(run, |run|);
    LaterStates(run, l, |run|, a);
    var s := After(run, l).value;
    var last := |s.served| - 1;
    assert s.served[last].task == b && s.served[last] == served[last];
    assert last == j;
    assert s.served[i] == served[i] && Over(s, a);
    if l <= k {
      LaterStates(run, l, k, a);
    }
  }

  // ---------- what others see of a running task ----------

  /** While a task runs both cells speak of it, and while the worker looks for work they are empty. */
  lemma {:induction false} CellsWhileRunning(s: State)
    requires Reachable(s)
    ensures s.worker.Run? ==> s.cancelCell == Some(s.worker.task) && s.prioCell == Some(s.worker.task.priority)
    ensures s.worker.CheckQueue? || s.worker.Await? || s.worker.Parked? || s.worker.TakeFirst? ==>
              s.cancelCell == None && s.prioCell == None
  {
    ReachableInvariant(s);
    hide QueueOrdered, NoOvertaking, Conserved, OnePerCall, WakeUpSafe, ComparersHoldPriority, SignalsOnTarget;
  }

  // ---------- cancelling ----------

  /** Cancelling from outside sets the token of the task on the slot, if its call has not returned or it is subscribed,
      and nothing else. */
  lemma CancelReachesTheSlot(s: State)
    requires Reachable(s) && Next(s, CancelCurrent).Some?
    ensures Next(s, CancelCurrent)
            == if (s.worker.Subscribe? || s.worker.Run? || s.worker.ClearCancel?)
                  && (s.worker.Run? || (s.worker.task.id in s.submits && !s.submits[s.worker.task.id].point.Returned?))
               then Some(s.(flagged := s.flagged + {s.worker.task.id})) else Some(s)
  {
    ReachableInvariant(s);
  }

  /** Tokens are set by signals and by cancelling alone, and never unset. */
  lemma OnlySignalsSetTokens(s: State, a: Action)
    requires Next(s, a).Some?
    ensures s.flagged <= Next(s, a).value.flagged
    ensures !a.SendCancel? && !a.CancelCurrent? ==> Next(s, a).value.flagged == s.flagged
  {
    hide Enqueued;
  }
}
