/** Many submitters and one worker share a queue, a one-permit notifier and two locks; an action is one critical
    section. */
module SlotWorker {
  import opened Wrappers

  // ---------- the state ----------

  /** A queued task; `arrival` counts the insertions that came before its own. */
  datatype Task = Task(id: nat, priority: int, arrival: nat)

  /** Where a call of `submit` stands. `WantCancel` holds the priority lock. */
  datatype SubmitPoint = Start | WantCancel(compared: Option<Task>) | Insert | Notify | Leaving | Returned

  datatype Submit = Submit(priority: int, point: SubmitPoint)

  /** Where the worker loop stands. `SetPrio` and `ClearPrio` hold the cancel lock. */
  datatype Worker =
    | CheckQueue | Await | Parked | TakeFirst | CheckReceiver(task: Task)
    | SetCancel(task: Task) | SetPrio(task: Task) | Subscribe(task: Task) | Run(task: Task)
    | ClearCancel(task: Task) | ClearPrio(task: Task) | Report(task: Task)

  /** A preemption signal: who sent it, the task whose priority it compared with, and whose token it set. */
  datatype Signal = Signal(priority: int, compared: Option<Task>, target: Option<Task>)

  /** A task taken from the queue, and how many tasks had been inserted by then. */
  datatype Service = Service(task: Task, arrivals: nat)

  /** The shared cells and program points, and the history `arrived`, `served`, `finished`, `dropped`, `signals`.
      `flagged` holds the ids whose cancel token reads true. */
  datatype State = State(
    queue: seq<Task>, permit: bool,
    cancelCell: Option<Task>, prioCell: Option<int>, cancelLocked: bool, prioLock: Option<nat>,
    worker: Worker, submits: map<nat, Submit>, flagged: set<nat>,
    arrived: seq<Task>, served: seq<Service>, finished: seq<Task>, dropped: seq<Task>, signals: seq<Signal>)

  const INITIAL: State :=
    State([], false, None, None, false, None, CheckQueue, map[], {}, [], [], [], [], [])

  // ---------- the actions ----------

  datatype Action =
    | Call(id: nat, priority: int)
    | ComparePriority(id: nat) | SendCancel(id: nat) | InsertTask(id: nat) | NotifyOne(id: nat) | Return(id: nat)
    | WorkerStep(receiverClosed: bool)
    | CancelCurrent

  predicate At(s: State, id: nat, point: SubmitPoint) {
    id in s.submits && s.submits[id].point == point
  }

  function Moved(s: State, id: nat, point: SubmitPoint): State
    requires id in s.submits
  {
    s.(submits := s.submits[id := s.submits[id].(point := point)])
  }

  /** The task that owns the inference slot. */
  function OnSlot(w: Worker): Option<Task> {
    if w.SetCancel? || w.SetPrio? || w.Subscribe? || w.Run? || w.ClearCancel? || w.ClearPrio?
        then Some(w.task) else None
  }

  /** A watch channel takes a value only while a receiver is alive: the one `submit`
      holds until it returns, or the one the worker subscribes for the run. */
  predicate HasReceiver(s: State, t: Task) {
    (t.id in s.submits && s.submits[t.id].point != Returned) || s.worker == Run(t)
  }

  function Signalled(s: State, target: Option<Task>): State {
    match target
    case None => s
    case Some(t) => if HasReceiver(s, t) then s.(flagged := s.flagged + {t.id}) else s
  }

  /** The first position whose task has a strictly greater priority number. */
  function PlaceFor(queue: seq<Task>, priority: int, i: nat): (p: nat)
    requires i <= |queue|
    ensures i <= p <= |queue|
    ensures forall j | i <= j < p :: queue[j].priority <= priority
    ensures p < |queue| ==> priority < queue[p].priority
    decreases |queue| - i
  {
    if i == |queue| || priority < queue[i].priority then i else PlaceFor(queue, priority, i + 1)
  }

  function Enqueued(queue: seq<Task>, t: Task): seq<Task> {
    var p := PlaceFor(queue, t.priority, 0);
    queue[..p] + [t] + queue[p..]
  }

  /** What the worker does next; `None` when it has to wait. */
  function WorkerNext(s: State, receiverClosed: bool): Option<State> {
    match s.worker
    case CheckQueue => Some(s.(worker := if s.queue == [] then Await else TakeFirst))
    case Await => Some(if s.permit then s.(permit := false, worker := CheckQueue) else s.(worker := Parked))
    case Parked => None
    case TakeFirst =>
      if s.queue == [] then Some(s.(worker := CheckQueue))
      else Some(s.(queue := s.queue[1..], worker := CheckReceiver(s.queue[0]),
                   served := s.served + [Service(s.queue[0], |s.arrived|)]))
    case CheckReceiver(t) =>
      if receiverClosed then Some(s.(worker := CheckQueue, dropped := s.dropped + [t]))
      else Some(s.(worker := SetCancel(t)))
    case SetCancel(t) =>
      if s.cancelLocked then None
      else Some(s.(cancelLocked := true, cancelCell := Some(t), worker := SetPrio(t)))
    case SetPrio(t) =>
      if s.prioLock.Some? then None
      else Some(s.(prioCell := Some(t.priority), cancelLocked := false, worker := Subscribe(t)))
    case Subscribe(t) => Some(s.(worker := Run(t)))
    case Run(t) => Some(s.(worker := ClearCancel(t)))
    case ClearCancel(t) =>
      if s.cancelLocked then None
      else Some(s.(cancelLocked := true, cancelCell := None, worker := ClearPrio(t)))
    case ClearPrio(t) =>
      if s.prioLock.Some? then None
      else Some(s.(prioCell := None, cancelLocked := false, worker := Report(t)))
    case Report(t) => Some(s.(worker := CheckQueue, finished := s.finished + [t]))
  }

  /** The effect of an action; `None` when it cannot happen in this state. */
  function Next(s: State, a: Action): Option<State> {
    match a
    case Call(id, priority) =>
      if id in s.submits then None
      else Some(s.(submits := s.submits[id := Submit(priority, Start)]))
    case ComparePriority(id) =>
      if !At(s, id, Start) || s.prioLock.Some? then None
      else if s.prioCell.Some? && s.submits[id].priority < s.prioCell.value then
        Some(Moved(s, id, WantCancel(OnSlot(s.worker))).(prioLock := Some(id)))
      else Some(Moved(s, id, Insert))
    case SendCancel(id) =>
      if id !in s.submits || !s.submits[id].point.WantCancel? || s.cancelLocked then None
      else
        var signal := Signal(s.submits[id].priority, s.submits[id].point.compared, s.cancelCell);
        Some(Moved(Signalled(s, s.cancelCell), id, Insert).(prioLock := None, signals := s.signals + [signal]))
    case InsertTask(id) =>
      if !At(s, id, Insert) then None
      else
        var t := Task(id, s.submits[id].priority, |s.arrived|);
        Some(Moved(s, id, Notify).(queue := Enqueued(s.queue, t), arrived := s.arrived + [t]))
    case NotifyOne(id) =>
      if !At(s, id, Notify) then None
      else if s.worker.Parked? then Some(Moved(s, id, Leaving).(worker := CheckQueue))
      else Some(Moved(s, id, Leaving).(permit := true))
    case Return(id) => if !At(s, id, Leaving) then None else Some(Moved(s, id, Returned))
    case WorkerStep(receiverClosed) => WorkerNext(s, receiverClosed)
    case CancelCurrent => if s.cancelLocked then None else Some(Signalled(s, s.cancelCell))
  }

  /** The state after the first `n` actions of a run; `None` once an action could not happen. */
  function After(run: seq<Action>, n: nat): Option<State>
    requires n <= |run|
  {
    if n == 0 then Some(INITIAL)
    else match After(run, n - 1)
      case None => None
      case Some(s) => Next(s, run[n - 1])
  }

  ghost predicate Reachable(s: State) {
    exists run: seq<Action> :: After(run, |run|) == Some(s)
  }

  // ---------- the queue: priority order, first come among equals ----------

  predicate Before(a: Task, b: Task) {
    a.priority < b.priority || (a.priority == b.priority && a.arrival < b.arrival)
  }

  ghost predicate QueueOrdered(s: State) {
    && (forall i, j | 0 <= i < j < |s.queue| :: Before(s.queue[i], s.queue[j]))
    && (forall t | t in s.queue :: t.arrival < |s.arrived|)
  }

  /** Whoever was served earlier either outranks, or had been taken before the other was inserted. */
  ghost predicate NoOvertaking(s: State) {
    && (forall i, j | 0 <= i < j < |s.served| ::
          Before(s.served[i].task, s.served[j].task) || s.served[j].task.arrival >= s.served[i].arrivals)
    && (forall i, t | 0 <= i < |s.served| && t in s.queue ::
          Before(s.served[i].task, t) || t.arrival >= s.served[i].arrivals)
    && (forall i | 0 <= i < |s.served| :: s.served[i].arrivals <= |s.arrived|)
  }

  lemma EnqueuedContents(queue: seq<Task>, t: Task)
    ensures multiset(Enqueued(queue, t)) == multiset(queue) + multiset{t}
    ensures forall u :: u in Enqueued(queue, t) <==> u == t || u in queue
  {
    var p := PlaceFor(queue, t.priority, 0);
    hide *;
    assert queue == queue[..p] + queue[p..];
    assert multiset(queue[..p] + [t] + queue[p..]) == multiset(queue) + multiset{t};
    assert forall u :: u in queue[..p] + [t] + queue[p..] <==> u in multiset(queue[..p] + [t] + queue[p..]);
    assert forall u :: u in queue <==> u in multiset(queue);
  }

  lemma InsertKeepsOrder(queue: seq<Task>, t: Task)
    requires forall i, j | 0 <= i < j < |queue| :: Before(queue[i], queue[j])
    requires forall u | u in queue :: u.arrival < t.arrival
    ensures var q := Enqueued(queue, t); forall i, j | 0 <= i < j < |q| :: Before(q[i], q[j])
  {
    var p := PlaceFor(queue, t.priority, 0);
    hide PlaceFor;
    forall i, j | 0 <= i < j < |queue| + 1 ensures Before(Enqueued(queue, t)[i], Enqueued(queue, t)[j]) {
      if j == p {
        assert queue[i] in queue;
      } else if i == p {
        assert p < |queue| && (j > p + 1 ==> Before(queue[p], queue[j - 1]));
      }
    }
  }

  predicate Takes(s: State, a: Action) {
    a.WorkerStep? && s.worker.TakeFirst? && s.queue != []
  }

  /** Only an insertion and the worker's removal touch the queue. */
  lemma QueueFrame(s: State, a: Action)
    requires Next(s, a).Some? && !a.InsertTask? && !Takes(s, a)
    ensures var s' := Next(s, a).value; s'.queue == s.queue && s'.served == s.served && s'.arrived == s.arrived
  {
    hide Enqueued, HasReceiver;
  }

  lemma TakeKeepsOrder(s: State, a: Action)
    requires QueueOrdered(s) && NoOvertaking(s) && Takes(s, a)
    ensures QueueOrdered(Next(s, a).value) && NoOvertaking(Next(s, a).value)
  {
    hide Enqueued, HasReceiver;
    var s', first := Next(s, a).value, s.queue[0];
    assert s'.queue == s.queue[1..] && s'.arrived == s.arrived;
    assert s'.served == s.served + [Service(first, |s.arrived|)];
    hide Next, Before;
    TailMembers(s.queue);
    assert first in s.queue;
    assert forall i | 0 <= i < |s.served| :: s'.served[i] == s.served[i];
  }

  lemma TailMembers(queue: seq<Task>)
    requires queue != []
    ensures forall t | t in queue[1..] :: t in queue && exists k | 1 <= k < |queue| :: queue[k] == t
  {
  }

  lemma InsertionKeepsOrder(s: State, a: Action)
    requires Next(s, a).Some? && QueueOrdered(s) && NoOvertaking(s) && a.InsertTask?
    ensures QueueOrdered(Next(s, a).value) && NoOvertaking(Next(s, a).value)
  {
    hide Enqueued, HasReceiver, Before;
    InsertKeepsOrder(s.queue, Task(a.id, s.submits[a.id].priority, |s.arrived|));
    EnqueuedContents(s.queue, Task(a.id, s.submits[a.id].priority, |s.arrived|));
  }

  lemma StepKeepsOrder(s: State, a: Action)
    requires Next(s, a).Some? && QueueOrdered(s) && NoOvertaking(s)
    ensures QueueOrdered(Next(s, a).value) && NoOvertaking(Next(s, a).value)
  {
    hide Next, Before;
    if a.InsertTask? {
      InsertionKeepsOrder(s, a);
    } else if Takes(s, a) {
      TakeKeepsOrder(s, a);
    } else {
      QueueFrame(s, a);
    }
  }

  // ---------- every inserted task is in exactly one place ----------

  predicate InHand(w: Worker, t: Task) {
    !w.CheckQueue? && !w.Await? && !w.Parked? && !w.TakeFirst? && w.task == t
  }

  function Count(ts: seq<Task>, t: Task): nat {
    multiset(ts)[t]
  }

  /** In how many places a task is found. */
  function Places(s: State, t: Task): nat {
    Count(s.queue, t) + (if InHand(s.worker, t) then 1 else 0) + Count(s.finished, t) + Count(s.dropped, t)
  }

  predicate PastInsertion(p: SubmitPoint) {
    p.Notify? || p.Leaving? || p.Returned?
  }

  ghost predicate Conserved(s: State) {
    && (forall t :: Places(s, t) == Count(s.arrived, t))
    && (forall i | 0 <= i < |s.arrived| :: s.arrived[i].arrival == i)
  }

  /** The inserted tasks are those of the calls that are past their insertion, one each. */
  ghost predicate OnePerCall(s: State) {
    && (forall i | 0 <= i < |s.arrived| :: FromCall(s, s.arrived[i]))
    && (forall i, j | 0 <= i < j < |s.arrived| :: s.arrived[i].id != s.arrived[j].id)
    && (forall id | id in s.submits && PastInsertion(s.submits[id].point) :: HasArrived(s, id))
  }

  predicate FromCall(s: State, t: Task) {
    t.id in s.submits && PastInsertion(s.submits[t.id].point) && s.submits[t.id].priority == t.priority
  }

  ghost predicate HasArrived(s: State, id: nat) {
    exists i | 0 <= i < |s.arrived| :: s.arrived[i].id == id
  }

  lemma CountAppend(ts: seq<Task>, u: Task, t: Task)
    ensures Count(ts + [u], t) == Count(ts, t) + (if u == t then 1 else 0)
  {
  }

  lemma CountTail(ts: seq<Task>, t: Task)
    requires ts != []
    ensures Count(ts, t) == Count(ts[1..], t) + (if ts[0] == t then 1 else 0)
  {
    assert ts == [ts[0]] + ts[1..];
  }

  lemma CountEnqueued(queue: seq<Task>, u: Task, t: Task)
    ensures Count(Enqueued(queue, u), t) == Count(queue, t) + (if u == t then 1 else 0)
  {
    hide Enqueued;
    EnqueuedContents(queue, u);
  }

  lemma WorkerConserves(s: State, receiverClosed: bool, t: Task)
    requires WorkerNext(s, receiverClosed).Some?
    ensures var s' := WorkerNext(s, receiverClosed).value; s'.arrived == s.arrived && Places(s', t) == Places(s, t)
  {
    hide Count;
    var s' := WorkerNext(s, receiverClosed).value;
    if s.worker.TakeFirst? {
      if s.queue != [] {
        CountTail(s.queue, t);
      }
    } else if s.worker.Report? {
      CountAppend(s.finished, s.worker.task, t);
    } else if s.worker.CheckReceiver? {
      CountAppend(s.dropped, s.worker.task, t);
    }
  }

  /** What the submitters' other actions leave alone. */
  lemma HistoryFrame(s: State, a: Action)
    requires Next(s, a).Some? && !a.InsertTask? && !a.WorkerStep?
    ensures var s' := Next(s, a).value;
            && s'.arrived == s.arrived && s'.queue == s.queue && s'.finished == s.finished && s'.dropped == s.dropped
            && (s'.worker == s.worker || (s.worker.Parked? && s'.worker.CheckQueue?))
  {
    hide WorkerNext, HasReceiver, Enqueued;
  }

  lemma StepConserves(s: State, a: Action)
    requires Next(s, a).Some? && Conserved(s)
    ensures Conserved(Next(s, a).value)
  {
    hide Count, WorkerNext, HasReceiver, Enqueued;
    var s' := Next(s, a).value;
    if a.WorkerStep? {
      CallsFrame(s, a.receiverClosed);
      forall t ensures Places(s', t) == Places(s, t) {
        WorkerConserves(s, a.receiverClosed, t);
      }
    } else if a.InsertTask? {
      InsertionConserves(s, a);
    } else {
      HistoryFrame(s, a);
      hide Next;
      assert forall t :: Places(s', t) == Places(s, t);
    }
  }

  lemma InsertionConserves(s: State, a: Action)
    requires Next(s, a).Some? && a.InsertTask? && Conserved(s)
    ensures Conserved(Next(s, a).value)
  {
    hide Count, Enqueued, HasReceiver;
    var s', u := Next(s, a).value, Task(a.id, s.submits[a.id].priority, |s.arrived|);
    assert s' == Moved(s, a.id, Notify).(queue := Enqueued(s.queue, u), arrived := s.arrived + [u]);
    hide Next;
    forall t ensures Places(s', t) == Count(s'.arrived, t) {
      CountEnqueued(s.queue, u, t);
      CountAppend(s.arrived, u, t);
    }
  }

  /** Which calls are past their insertion changes only with an insertion. */
  lemma PointsFrame(s: State, a: Action, id: nat)
    requires Next(s, a).Some? && !a.InsertTask? && !a.WorkerStep?
    ensures var s' := Next(s, a).value;
            && (id in s.submits ==> id in s'.submits && s'.submits[id].priority == s.submits[id].priority)
            && (id in s'.submits && PastInsertion(s'.submits[id].point)
                <==> id in s.submits && PastInsertion(s.submits[id].point))
  {
    hide WorkerNext, HasReceiver, Enqueued;
  }

  lemma StepKeepsCalls(s: State, a: Action)
    requires Next(s, a).Some? && OnePerCall(s)
    ensures OnePerCall(Next(s, a).value)
  {
    hide HasReceiver, Enqueued, WorkerNext;
    if a.WorkerStep? {
      WorkerKeepsCalls(s, a.receiverClosed);
    } else if a.InsertTask? {
      InsertionKeepsCalls(s, a);
    } else {
      hide Next;
      OthersKeepCalls(s, a);
    }
  }

  lemma WorkerKeepsCalls(s: State, receiverClosed: bool)
    requires WorkerNext(s, receiverClosed).Some? && OnePerCall(s)
    ensures OnePerCall(WorkerNext(s, receiverClosed).value)
  {
    var s' := WorkerNext(s, receiverClosed).value;
    CallsFrame(s, receiverClosed);
    hide WorkerNext;
    assert forall t: Task :: FromCall(s', t) == FromCall(s, t);
    assert forall id: nat :: HasArrived(s', id) == HasArrived(s, id);
  }

  lemma OthersKeepCalls(s: State, a: Action)
    requires Next(s, a).Some? && OnePerCall(s) && !a.InsertTask? && !a.WorkerStep?
    ensures OnePerCall(Next(s, a).value)
  {
    var s' := Next(s, a).value;
    HistoryFrame(s, a);
    hide Next;
    forall i | 0 <= i < |s'.arrived| ensures FromCall(s', s'.arrived[i]) {
      PointsFrame(s, a, s.arrived[i].id);
      assert FromCall(s, s.arrived[i]);
    }
    forall id | id in s'.submits && PastInsertion(s'.submits[id].point) ensures HasArrived(s', id) {
      PointsFrame(s, a, id);
      assert HasArrived(s, id);
    }
  }

  lemma InsertionKeepsCalls(s: State, a: Action)
    requires Next(s, a).Some? && OnePerCall(s) && a.InsertTask?
    ensures OnePerCall(Next(s, a).value)
  {
    var s' := Next(s, a).value;
    var t := Task(a.id, s.submits[a.id].priority, |s.arrived|);
    hide Enqueued;
    assert s'.arrived == s.arrived + [t] && s'.submits == s.submits[a.id := Submit(t.priority, Notify)];
    hide Next, HasArrived;
    forall i | 0 <= i < |s'.arrived| ensures FromCall(s', s'.arrived[i])
        && (i < |s.arrived| ==> s'.arrived[i].id != a.id) {
      assert i < |s.arrived| ==> FromCall(s, s.arrived[i]);
    }
    forall id | id in s'.submits && PastInsertion(s'.submits[id].point) ensures HasArrived(s', id) {
      ArrivedStays(s, t, s', id);
    }
  }

  lemma ArrivedStays(s: State, t: Task, s': State, id: nat)
    requires s'.arrived == s.arrived + [t] && (HasArrived(s, id) || id == t.id)
    ensures HasArrived(s', id)
  {
    if id == t.id {
      assert s'.arrived[|s.arrived|].id == id;
    } else {
      var i :| 0 <= i < |s.arrived| && s.arrived[i].id == id;
      assert s'.arrived[i].id == id;
    }
  }

  lemma CallsFrame(s: State, receiverClosed: bool)
    requires WorkerNext(s, receiverClosed).Some?
    ensures var s' := WorkerNext(s, receiverClosed).value; s'.arrived == s.arrived && s'.submits == s.submits
  {
  }

  // ---------- no lost wake-up ----------

  ghost predicate NotifyPending(s: State) {
    exists id :: At(s, id, Notify)
  }

  ghost predicate WakeUpSafe(s: State) {
    && ((s.worker.Await? || s.worker.Parked?) && s.queue != [] ==> s.permit || NotifyPending(s))
    && (s.worker.Parked? ==> !s.permit)
  }

  lemma StepKeepsWakeUp(s: State, a: Action)
    requires Next(s, a).Some? && WakeUpSafe(s)
    ensures WakeUpSafe(Next(s, a).value)
  {
    hide HasReceiver, Enqueued;
    var s' := Next(s, a).value;
    if a.WorkerStep? {
      WorkerKeepsWakeUp(s, a.receiverClosed);
    } else {
      hide WorkerNext;
      if NotifyPending(s) {
        var id :| At(s, id, Notify);
        assert a == NotifyOne(id) || At(s', id, Notify);
      }
      if a.InsertTask? {
        assert At(s', a.id, Notify);
      }
    }
  }

  lemma WorkerKeepsWakeUp(s: State, receiverClosed: bool)
    requires WorkerNext(s, receiverClosed).Some? && WakeUpSafe(s)
    ensures WakeUpSafe(WorkerNext(s, receiverClosed).value)
  {
    var s' := WorkerNext(s, receiverClosed).value;
    CallsFrame(s, receiverClosed);
    assert NotifyPending(s) == NotifyPending(s') by {
      assert forall id :: At(s, id, Notify) == At(s', id, Notify);
    }
    hide NotifyPending;
  }

  // ---------- the two cells and the locks ----------

  /** The worker's point fixes what the cells hold and whether the cancel lock is taken. */
  predicate CellsFollowWorker(s: State) {
    var w := s.worker;
    if w.SetPrio? then s.cancelLocked && s.cancelCell == Some(w.task) && s.prioCell == None
    else if w.ClearPrio? then s.cancelLocked && s.cancelCell == None && s.prioCell == Some(w.task.priority)
    else if w.Subscribe? || w.Run? || w.ClearCancel? then
      !s.cancelLocked && s.cancelCell == Some(w.task) && s.prioCell == Some(w.task.priority)
    else !s.cancelLocked && s.cancelCell == None && s.prioCell == None
  }

  /** A submitter that waits for the cancel lock holds the priority lock, and outranks the task on the slot. */
  ghost predicate ComparersHoldPriority(s: State) {
    && (forall id | id in s.submits && s.submits[id].point.WantCancel? ::
          s.prioLock == Some(id) && Outranks(s, s.submits[id]))
    && (s.prioLock.Some? ==> s.prioLock.value in s.submits && s.submits[s.prioLock.value].point.WantCancel?)
  }

  predicate Outranks(s: State, c: Submit) {
    && c.point.WantCancel? && s.prioCell.Some?
    && OnSlot(s.worker).Some? && c.point.compared == OnSlot(s.worker)
    && s.prioCell.value == OnSlot(s.worker).value.priority
    && c.priority < s.prioCell.value
  }

  /** Every signal reached the token of the very task it compared with, which it outranked. */
  ghost predicate SignalsOnTarget(s: State) {
    forall i | 0 <= i < |s.signals| :: OnTarget(s.signals[i])
  }

  predicate OnTarget(g: Signal) {
    g.compared.Some? && g.target == g.compared && g.priority < g.compared.value.priority
  }

  /** Outside the worker, nothing moves the cells, the cancel lock or the task on the slot. */
  lemma CellsFrame(s: State, a: Action)
    requires Next(s, a).Some? && !a.WorkerStep?
    ensures var s' := Next(s, a).value;
            && s'.cancelCell == s.cancelCell && s'.prioCell == s.prioCell && s'.cancelLocked == s.cancelLocked
            && (s'.worker == s.worker || (s.worker.Parked? && s'.worker.CheckQueue?))
  {
    hide HasReceiver, Enqueued, WorkerNext;
  }

  lemma WorkerKeepsCells(s: State, receiverClosed: bool)
    requires WorkerNext(s, receiverClosed).Some? && CellsFollowWorker(s)
    ensures CellsFollowWorker(WorkerNext(s, receiverClosed).value)
    ensures WorkerNext(s, receiverClosed).value.prioLock == s.prioLock
    ensures WorkerNext(s, receiverClosed).value.signals == s.signals
  {
  }

  lemma StepKeepsCells(s: State, a: Action)
    requires Next(s, a).Some? && CellsFollowWorker(s)
    ensures CellsFollowWorker(Next(s, a).value)
  {
    hide WorkerNext;
    if a.WorkerStep? {
      WorkerKeepsCells(s, a.receiverClosed);
    } else {
      CellsFrame(s, a);
      hide Next;
    }
  }

  /** While a submitter holds the priority lock, the worker can neither publish nor
      clear a priority, so the task on the slot stays. */
  lemma SlotStaysWhileLocked(s: State, receiverClosed: bool)
    requires WorkerNext(s, receiverClosed).Some? && CellsFollowWorker(s) && s.prioLock.Some? && s.prioCell.Some?
    ensures var s' := WorkerNext(s, receiverClosed).value;
            s'.prioCell == s.prioCell && OnSlot(s'.worker) == OnSlot(s.worker) && s'.prioLock == s.prioLock
  {
  }

  lemma WorkerKeepsComparers(s: State, receiverClosed: bool)
    requires WorkerNext(s, receiverClosed).Some? && CellsFollowWorker(s) && ComparersHoldPriority(s)
    ensures ComparersHoldPriority(WorkerNext(s, receiverClosed).value)
  {
    CallsFrame(s, receiverClosed);
    WorkerKeepsCells(s, receiverClosed);
    if s.prioLock.Some? {
      assert Outranks(s, s.submits[s.prioLock.value]);
      SlotStaysWhileLocked(s, receiverClosed);
    }
    hide WorkerNext, CellsFollowWorker;
  }

  /** Only comparing takes the priority lock, and only signalling gives it back. */
  lemma LockFrame(s: State, a: Action, id: nat)
    requires Next(s, a).Some? && !a.WorkerStep? && !a.ComparePriority? && !a.SendCancel?
    ensures var s' := Next(s, a).value;
            && s'.prioLock == s.prioLock
            && (id in s.submits && s.submits[id].point.WantCancel? ==>
                id in s'.submits && s'.submits[id] == s.submits[id])
            && (id in s'.submits && s'.submits[id].point.WantCancel? ==>
                id in s.submits && s.submits[id].point.WantCancel?)
  {
    hide HasReceiver, Enqueued, WorkerNext;
  }

  lemma OthersKeepComparers(s: State, a: Action)
    requires Next(s, a).Some? && ComparersHoldPriority(s)
    requires CellsFollowWorker(s) && !a.WorkerStep? && !a.ComparePriority? && !a.SendCancel?
    ensures ComparersHoldPriority(Next(s, a).value)
  {
    CellsFrame(s, a);
    hide Next;
    var s' := Next(s, a).value;
    assert OnSlot(s'.worker) == OnSlot(s.worker);
    if s.prioLock.Some? {
      LockFrame(s, a, s.prioLock.value);
    }
    forall id | id in s'.submits && s'.submits[id].point.WantCancel?
      ensures s'.prioLock == Some(id) && Outranks(s', s'.submits[id])
    {
      LockFrame(s, a, id);
      assert Outranks(s, s.submits[id]);
    }
    LockFrame(s, a, 0);
  }

  lemma LockingKeepsComparers(s: State, a: Action)
    requires Next(s, a).Some? && ComparersHoldPriority(s)
    requires CellsFollowWorker(s) && (a.ComparePriority? || a.SendCancel?)
    ensures ComparersHoldPriority(Next(s, a).value)
  {
    CellsFrame(s, a);
    hide HasReceiver, Enqueued, WorkerNext;
    var s' := Next(s, a).value;
    assert forall id | id in s'.submits && id != a.id :: id in s.submits && s.submits[id] == s'.submits[id];
  }

  lemma StepKeepsComparers(s: State, a: Action)
    requires Next(s, a).Some? && CellsFollowWorker(s) && ComparersHoldPriority(s)
    ensures ComparersHoldPriority(Next(s, a).value)
  {
    hide ComparersHoldPriority, CellsFollowWorker, WorkerNext;
    if a.WorkerStep? {
      WorkerKeepsComparers(s, a.receiverClosed);
    } else {
      hide Next;
      if a.ComparePriority? || a.SendCancel? {
        LockingKeepsComparers(s, a);
      } else {
        OthersKeepComparers(s, a);
      }
    }
  }

  lemma StepKeepsSignals(s: State, a: Action)
    requires Next(s, a).Some? && CellsFollowWorker(s) && ComparersHoldPriority(s) && SignalsOnTarget(s)
    ensures SignalsOnTarget(Next(s, a).value)
  {
    hide HasReceiver, Enqueued, WorkerNext;
    if a.SendCancel? {
      assert Outranks(s, s.submits[a.id]);
    } else if a.WorkerStep? {
      WorkerKeepsCells(s, a.receiverClosed);
    } else {
      assert Next(s, a).value.signals == s.signals;
    }
  }

  // ---------- all runs ----------

  ghost predicate Invariant(s: State) {
    && QueueOrdered(s) && NoOvertaking(s) && Conserved(s) && OnePerCall(s)
    && WakeUpSafe(s) && CellsFollowWorker(s) && ComparersHoldPriority(s) && SignalsOnTarget(s)
  }

  lemma StepKeepsInvariant(s: State, a: Action)
    requires Next(s, a).Some? && Invariant(s)
    ensures Invariant(Next(s, a).value)
  {
    hide Next, QueueOrdered, NoOvertaking, Conserved, OnePerCall, WakeUpSafe, CellsFollowWorker,
         ComparersHoldPriority, SignalsOnTarget;
    StepKeepsOrder(s, a);
    StepConserves(s, a);
    StepKeepsCalls(s, a);
    StepKeepsWakeUp(s, a);
    StepKeepsCells(s, a);
    StepKeepsComparers(s, a);
    StepKeepsSignals(s, a);
  }

  lemma {:induction false} RunKeepsInvariant(run: seq<Action>, n: nat)
    requires n <= |run| && After(run, n).Some?
    ensures Invariant(After(run, n).value)
  {
    if n > 0 {
      hide Invariant, Next;
      RunKeepsInvariant(run, n - 1);
      StepKeepsInvariant(After(run, n - 1).value, run[n - 1]);
    }
  }

  lemma ReachableInvariant(s: State)
    requires Reachable(s)
    ensures Invariant(s)
  {
    hide Invariant, After;
    var run: seq<Action> :| After(run, |run|) == Some(s);
    RunKeepsInvariant(run, |run|);
  }

  /** In every run the queue is in priority order, first come among equals, and service respects that order. */
  lemma QueueIsFair(s: State)
    requires Reachable(s)
    ensures forall i, j | 0 <= i < j < |s.queue| :: Before(s.queue[i], s.queue[j])
    ensures forall i, j | 0 <= i < j < |s.served| ::
              Before(s.served[i].task, s.served[j].task) || s.served[j].task.arrival >= s.served[i].arrivals
  {
    ReachableInvariant(s);
    hide Before;
  }

  /** In every run each task that was inserted is in exactly one of the queue, the worker's hand,
      the finished and the dropped tasks; nothing else is in any of them. */
  lemma EveryTaskInOnePlace(s: State, t: Task)
    requires Reachable(s)
    ensures Places(s, t) == if t in s.arrived then 1 else 0
  {
    ReachableInvariant(s);
    hide Invariant;
    PlacedOnce(s, t);
  }

  lemma PlacedOnce(s: State, t: Task)
    requires Invariant(s)
    ensures Places(s, t) == if t in s.arrived then 1 else 0
  {
    hide Places, Before;
    if t in s.arrived {
      var i :| 0 <= i < |s.arrived| && s.arrived[i] == t;
      assert forall j | 0 <= j < |s.arrived| && j != i :: s.arrived[j].arrival == j && s.arrived[i].arrival == i;
      CountOnce(s.arrived, i);
    }
  }

  lemma CountOnce(ts: seq<Task>, i: nat)
    requires i < |ts| && forall j | 0 <= j < |ts| && j != i :: ts[j] != ts[i]
    ensures Count(ts, ts[i]) == 1
  {
    assert ts == ts[..i] + [ts[i]] + ts[i + 1..];
    assert ts[i] !in ts[..i] && ts[i] !in ts[i + 1..];
  }

  /** Past its insertion, a call has exactly one task, with the priority it asked for. */
  lemma OneTaskPerCall(s: State, id: nat)
    requires Reachable(s) && id in s.submits
    ensures PastInsertion(s.submits[id].point) <==> HasArrived(s, id)
    ensures forall i, j | 0 <= i < |s.arrived| && 0 <= j < |s.arrived| ::
            s.arrived[i].id == s.arrived[j].id == id ==> i == j
    ensures forall t | t in s.arrived && t.id == id :: t.priority == s.submits[id].priority
  {
    ReachableInvariant(s);
    hide Before, Places;
    assert forall t | t in s.arrived ::
           exists i | 0 <= i < |s.arrived| :: s.arrived[i] == t && FromCall(s, s.arrived[i]);
  }

  /** The worker never sleeps on a waiting task: if it waits while the queue is not empty,
      a permit is stored or a submitter is between its insertion and its notification. */
  lemma NoLostWakeUp(s: State)
    requires Reachable(s) && (s.worker.Await? || s.worker.Parked?) && s.queue != []
    ensures s.permit || exists id :: At(s, id, Notify)
    ensures s.worker.Parked? ==> exists id :: At(s, id, Notify)
  {
    ReachableInvariant(s);
  }

  /** Every preemption signal ever sent went to the task whose priority the sender compared with, and outranked it. */
  lemma SignalsReachTheirTarget(s: State, i: nat)
    requires Reachable(s) && i < |s.signals|
    ensures var g := s.signals[i]; g.compared.Some? && g.target == g.compared && g.priority < g.compared.value.priority
  {
    ReachableInvariant(s);
    assert OnTarget(s.signals[i]);
  }

  /** A signal is sent while its target is published: subscribing, running or being cleared.
      It takes effect exactly when the target's own call of `submit` has not returned or the worker has subscribed. */
  lemma SignalTakesEffect(s: State, id: nat)
    requires Reachable(s) && Next(s, SendCancel(id)).Some?
    ensures var s' := Next(s, SendCancel(id)).value;
            && (s.worker.Subscribe? || s.worker.Run? || s.worker.ClearCancel?)
            && (var t := s.worker.task;
                && t.id in s.submits
                && (t.id in s'.flagged
                    <==> t.id in s.flagged || s.worker.Run? || s.submits[t.id].point != Returned))
  {
    ReachableInvariant(s);
    assert Outranks(s, s.submits[id]);
    var t := s.worker.task;
    assert InHand(s.worker, t) && Places(s, t) == Count(s.arrived, t) >= 1;
    assert t in s.arrived;
    var i :| 0 <= i < |s.arrived| && s.arrived[i] == t;
    assert FromCall(s, s.arrived[i]);
    hide Enqueued, WorkerNext, Invariant;
  }

  // ---------- what can get stuck ----------

  /** No participant that is already inside can move. */
  ghost predicate Stuck(s: State) {
    forall a: Action | !a.Call? && !a.CancelCurrent? :: Next(s, a).None?
  }

  /** All calls have returned and the worker waits for the next. */
  ghost predicate AtRest(s: State) {
    s.worker.Parked? && forall id | id in s.submits :: s.submits[id].point.Returned?
  }

  /** The worker holds the cancel lock and waits for the priority lock; a submitter holds that and waits for the
      other. */
  predicate Crossed(s: State) {
    s.worker.ClearPrio? && s.prioLock.Some?
  }

  ghost predicate NoOneElseCanMove(s: State) {
    forall id | id in s.submits :: var p := s.submits[id].point; p.Start? || p.WantCancel? || p.Returned?
  }

  /** Apart from the two locks taken in opposite order while the worker clears its cells, the
      protocol never gets stuck before all calls have returned and the queue is empty. */
  lemma StuckExactly(s: State)
    requires Reachable(s)
    ensures Stuck(s) <==> AtRest(s) || (Crossed(s) && NoOneElseCanMove(s))
    ensures AtRest(s) ==> s.queue == []
  {
    ReachableInvariant(s);
    LocksSuffice(s);
    if Stuck(s) {
      StuckWorker(s);
      forall id | id in s.submits
        ensures var p := s.submits[id].point; p.Returned? || (Crossed(s) && (p.Start? || p.WantCancel?))
      {
        StuckCall(s, id);
      }
    } else {
      var a: Action :| !a.Call? && !a.CancelCurrent? && Next(s, a).Some?;
      MovesOnlyOtherwise(s, a);
    }
  }

  /** The priority lock is only ever waited for across the worker's clearing phase. */
  lemma LocksSuffice(s: State)
    requires Invariant(s)
    ensures s.worker.SetCancel? || s.worker.ClearCancel? ==> !s.cancelLocked
    ensures s.worker.SetPrio? || s.worker.Parked? ==> s.prioLock.None?
    ensures AtRest(s) ==> s.queue == []
    ensures s.prioLock.Some? && s.cancelLocked ==> Crossed(s)
  {
    hide Places, Before, QueueOrdered, NoOvertaking, Conserved, OnePerCall;
    if s.prioLock.Some? {
      assert Outranks(s, s.submits[s.prioLock.value]);
    }
  }

  lemma StuckWorker(s: State)
    requires Invariant(s) && Stuck(s)
    ensures s.worker.Parked? || Crossed(s)
  {
    LocksSuffice(s);
    hide Invariant, Stuck;
    assert Next(s, WorkerStep(false)).None? by { StuckAction(s, WorkerStep(false)); }
  }

  lemma StuckAction(s: State, a: Action)
    requires Stuck(s) && !a.Call? && !a.CancelCurrent?
    ensures Next(s, a).None?
  {
  }

  lemma StuckCall(s: State, id: nat)
    requires Invariant(s) && Stuck(s) && id in s.submits
    ensures var p := s.submits[id].point; p.Returned? || (Crossed(s) && (p.Start? || p.WantCancel?))
  {
    LocksSuffice(s);
    StuckWorker(s);
    if s.submits[id].point.WantCancel? {
      assert s.prioLock == Some(id);
    }
    StuckAction(s, ComparePriority(id));
    StuckAction(s, SendCancel(id));
    StuckAction(s, InsertTask(id));
    StuckAction(s, NotifyOne(id));
    StuckAction(s, Return(id));
    hide Invariant, Stuck, Enqueued, WorkerNext, HasReceiver;
  }

  lemma MovesOnlyOtherwise(s: State, a: Action)
    requires Invariant(s) && Next(s, a).Some? && !a.Call? && !a.CancelCurrent?
    ensures !AtRest(s) && !(Crossed(s) && NoOneElseCanMove(s))
  {
    assert s.worker.ClearPrio? ==> s.cancelLocked;
    hide Invariant, Enqueued, HasReceiver;
  }

  /** Once the locks are crossed they stay crossed, and no task is ever taken or finished again. */
  lemma CrossedForEver(s: State, a: Action)
    requires Reachable(s) && Crossed(s) && Next(s, a).Some?
    ensures var s' := Next(s, a).value;
            Crossed(s') && s'.worker == s.worker && s'.prioLock == s.prioLock
            && s'.served == s.served && s'.finished == s.finished
  {
    ReachableInvariant(s);
    assert s.cancelLocked;
    hide Invariant, Enqueued, HasReceiver;
  }

  lemma ReachableStep(s: State, a: Action)
    requires Reachable(s) && Next(s, a).Some?
    ensures Reachable(Next(s, a).value)
  {
    hide Next;
    var run: seq<Action> :| After(run, |run|) == Some(s);
    AfterPrefix(run, a, |run|);
    assert After(run + [a], |run + [a]|) == Next(s, a);
  }

  lemma {:induction false} AfterPrefix(run: seq<Action>, a: Action, n: nat)
    requires n <= |run|
    ensures After(run + [a], n) == After(run, n)
  {
    hide Next;
    if n > 0 {
      AfterPrefix(run, a, n - 1);
    }
  }

  // ---------- two runs worth knowing ----------

  /** The first call has returned, and the worker has published its task without yet subscribing. */
  function Published(t: Task): State {
    INITIAL.(submits := map[t.id := Submit(t.priority, Returned)], permit := true, worker := Subscribe(t),
             arrived := [t], served := [Service(t, 1)], cancelCell := Some(t), prioCell := Some(t.priority))
  }

  lemma PublishedReachable(t: Task)
    requires t.arrival == 0
    ensures Reachable(Published(t))
  {
    assert After([], 0) == Some(INITIAL);
    SubmitFirst(INITIAL, t);
    var s := INITIAL.(submits := map[t.id := Submit(t.priority, Returned)], queue := [t], arrived := [t],
                      permit := true);
    PublishFirst(s, t);
    assert [] + [Service(t, 1)] == [Service(t, 1)];
  }

  lemma OnlyCall(s: State, id: nat, priority: int, before: SubmitPoint, after: SubmitPoint)
    requires s.submits == map[id := Submit(priority, before)]
    ensures Moved(s, id, after) == s.(submits := map[id := Submit(priority, after)])
  {
    assert s.submits[id := Submit(priority, after)] == map[id := Submit(priority, after)];
  }

  lemma SubmitFirst(s: State, t: Task)
    requires Reachable(s) && s.submits == map[] && s.queue == [] && s.arrived == [] && t.arrival == 0
    requires s.prioLock.None? && s.prioCell.None? && !s.worker.Parked?
    ensures Reachable(s.(submits := map[t.id := Submit(t.priority, Returned)], queue := [t], arrived := [t],
                         permit := true))
  {
    hide Reachable;
    var s1 := s.(submits := map[t.id := Submit(t.priority, Start)]);
    assert s.submits[t.id := Submit(t.priority, Start)] == s1.submits;
    assert Next(s, Call(t.id, t.priority)) == Some(s1);
    ReachableStep(s, Call(t.id, t.priority));
    var s2 := s.(submits := map[t.id := Submit(t.priority, Insert)]);
    OnlyCall(s1, t.id, t.priority, Start, Insert);
    assert Next(s1, ComparePriority(t.id)) == Some(s2);
    ReachableStep(s1, ComparePriority(t.id));
    FirstInserted(s2, t);
    var s3 := s.(submits := map[t.id := Submit(t.priority, Notify)], queue := [t], arrived := [t]);
    ReachableStep(s2, InsertTask(t.id));
    var s4 := s3.(submits := map[t.id := Submit(t.priority, Leaving)], permit := true);
    OnlyCall(s3, t.id, t.priority, Notify, Leaving);
    assert Next(s3, NotifyOne(t.id)) == Some(s4);
    ReachableStep(s3, NotifyOne(t.id));
    OnlyCall(s4, t.id, t.priority, Leaving, Returned);
    assert Next(s4, Return(t.id)) == Some(s4.(submits := map[t.id := Submit(t.priority, Returned)]));
    ReachableStep(s4, Return(t.id));
  }

  lemma FirstInserted(s: State, t: Task)
    requires s.submits == map[t.id := Submit(t.priority, Insert)] && s.queue == [] && s.arrived == [] && t.arrival == 0
    ensures Next(s, InsertTask(t.id))
            == Some(s.(submits := map[t.id := Submit(t.priority, Notify)], queue := [t], arrived := [t]))
  {
    assert Enqueued([], t) == [] + [t] + [] == [t];
    assert s.arrived + [t] == [t];
    assert s.submits[t.id := Submit(t.priority, Notify)] == map[t.id := Submit(t.priority, Notify)];
  }

  lemma PublishFirst(s: State, t: Task)
    requires Reachable(s) && s.worker.CheckQueue? && s.queue == [t] && !s.cancelLocked && s.prioLock.None?
    ensures Reachable(s.(queue := [], served := s.served + [Service(t, |s.arrived|)], worker := Subscribe(t),
                         cancelCell := Some(t), prioCell := Some(t.priority)))
  {
    hide Reachable;
    var s1 := s.(worker := TakeFirst);
    ReachableStep(s, WorkerStep(false));
    assert [t][1..] == [];
    var s2 := s1.(queue := [], served := s.served + [Service(t, |s.arrived|)], worker := CheckReceiver(t));
    assert Next(s1, WorkerStep(false)) == Some(s2);
    ReachableStep(s1, WorkerStep(false));
    var s3 := s2.(worker := SetCancel(t));
    ReachableStep(s2, WorkerStep(false));
    var s4 := s3.(cancelLocked := true, cancelCell := Some(t), worker := SetPrio(t));
    ReachableStep(s3, WorkerStep(false));
    var s5 := s4.(prioCell := Some(t.priority), cancelLocked := false, worker := Subscribe(t));
    assert Next(s4, WorkerStep(false)) == Some(s5);
    ReachableStep(s4, WorkerStep(false));
  }

  /** A second caller that outranks the published task has compared and wants the cancel lock. */
  lemma SecondCallerCompares(s: State, id: nat, priority: int)
    requires Reachable(s) && id !in s.submits && s.prioLock.None? && s.prioCell.Some? && priority < s.prioCell.value
    ensures Reachable(s.(submits := s.submits[id := Submit(priority, WantCancel(OnSlot(s.worker)))],
                         prioLock := Some(id)))
  {
    hide Reachable;
    var s1 := s.(submits := s.submits[id := Submit(priority, Start)]);
    assert Next(s, Call(id, priority)) == Some(s1);
    ReachableStep(s, Call(id, priority));
    assert s1.submits[id := Submit(priority, WantCancel(OnSlot(s.worker)))]
           == s.submits[id := Submit(priority, WantCancel(OnSlot(s.worker)))];
    ReachableStep(s1, ComparePriority(id));
  }

  /** Any two calls of different priority can reach the crossed state, and nobody can move there. */
  lemma LocksCanCross(t: Task, id: nat, priority: int) returns (s: State)
    requires t.arrival == 0 && id != t.id && priority < t.priority
    ensures Reachable(s) && Crossed(s) && Stuck(s) && s.served != []
    ensures s.submits.Keys == {t.id, id} && s.submits[t.id].priority == t.priority && s.submits[id].priority == priority
  {
    var s0 := Published(t);
    PublishedReachable(t);
    ReachableStep(s0, WorkerStep(false));
    var s1 := s0.(worker := Run(t));
    ReachableStep(s1, WorkerStep(false));
    var s2 := s1.(worker := ClearCancel(t));
    SecondCallerCompares(s2, id, priority);
    var s3 := s2.(submits := s2.submits[id := Submit(priority, WantCancel(Some(t)))], prioLock := Some(id));
    s := s3.(cancelLocked := true, cancelCell := None, worker := ClearPrio(t));
    ReachableStep(s3, WorkerStep(false));
    StuckExactly(s);
  }

  /** The calls made so far belong to this workload of priorities. */
  predicate Within(s: State, load: map<nat, int>) {
    forall id | id in s.submits :: id in load && load[id] == s.submits[id].priority
  }

  ghost predicate CanCross(load: map<nat, int>) {
    exists s :: Reachable(s) && Crossed(s) && Within(s, load)
  }

  lemma CrossedNeedsTwo(s: State)
    requires Reachable(s) && Crossed(s)
    ensures s.worker.task.id in s.submits && s.prioLock.value in s.submits
    ensures s.submits[s.prioLock.value].priority < s.submits[s.worker.task.id].priority
  {
    ReachableInvariant(s);
    assert Outranks(s, s.submits[s.prioLock.value]);
    var t := s.worker.task;
    assert InHand(s.worker, t) && Places(s, t) == Count(s.arrived, t) >= 1;
    assert t in s.arrived;
    var i :| 0 <= i < |s.arrived| && s.arrived[i] == t;
    assert FromCall(s, s.arrived[i]);
  }

  /** The locks can cross under a workload exactly when two of its calls ask for different priorities. */
  lemma LocksCrossExactly(load: map<nat, int>)
    ensures CanCross(load) <==> exists i, j :: i in load && j in load && load[i] != load[j]
  {
    hide Reachable, Crossed, Stuck;
    if CanCross(load) {
      var s :| Reachable(s) && Crossed(s) && Within(s, load);
      CrossedNeedsTwo(s);
    }
    if i, j :| i in load && j in load && load[i] < load[j] {
      var s := LocksCanCross(Task(j, load[j], 0), i, load[i]);
      assert Within(s, load);
    }
  }

  /** A signal can be lost: sent to a task whose call has returned and which the worker has not yet
      subscribed, it leaves the token unset although the task then runs. */
  lemma SignalCanMiss() returns (s: State)
    ensures Reachable(s) && Next(s, SendCancel(1)).Some? && s.worker.Subscribe?
    ensures s.worker.task.id !in Next(s, SendCancel(1)).value.flagged
  {
    var t := Task(0, 5, 0);
    var s0 := Published(t);
    PublishedReachable(t);
    SecondCallerCompares(s0, 1, 1);
    s := s0.(submits := s0.submits[1 := Submit(1, WantCancel(Some(t)))], prioLock := Some(1));
  }

  // ---------- the shared object ----------

  /** The shared cells. `model` is the state of the whole protocol they belong to, which every
      method moves by one action, so `Valid` keeps it a reachable one. */
  class Slot {
    var queue: seq<Task>
    var inserted: nat
    var permit: bool
    var currentCancel: Option<Task>
    var currentPriority: Option<int>
    ghost var model: State

    ghost predicate Valid()
      reads this
    {
      && queue == model.queue && inserted == |model.arrived| && permit == model.permit
      && currentCancel == model.cancelCell && currentPriority == model.prioCell
      && Reachable(model)
    }

    constructor ()
      ensures Valid() && model == INITIAL
    {
      queue, inserted, permit, currentCancel, currentPriority := [], 0, false, None, None;
      model := INITIAL;
      assert After([], 0) == Some(INITIAL);
    }

    method ComparePriority(ghost id: nat, priority: int) returns (preempts: bool)
      requires Valid() && At(model, id, Start) && model.prioLock.None? && model.submits[id].priority == priority
      modifies this
      ensures Valid() && Some(model) == old(Next(model, Action.ComparePriority(id)))
      ensures preempts <==> model.submits[id].point.WantCancel?
    {
      hide Reachable, Enqueued, WorkerNext, HasReceiver;
      preempts := currentPriority.Some? && priority < currentPriority.value;
      ReachableStep(model, Action.ComparePriority(id));
      model := Next(model, Action.ComparePriority(id)).value;
    }

    method SignalCurrent(ghost id: nat) returns (token: Option<Task>)
      requires Valid() && id in model.submits && model.submits[id].point.WantCancel? && !model.cancelLocked
      modifies this
      ensures Valid() && Some(model) == old(Next(model, SendCancel(id)))
      ensures token.Some? && Some(token.value) == old(model.submits[id].point.compared)
      ensures old(model.submits[id].priority) < token.value.priority
    {
      token := currentCancel;
      ReachableStep(model, SendCancel(id));
      ghost var next := Next(model, SendCancel(id)).value;
      SignalsReachTheirTarget(next, |model.signals|);
      hide Reachable, Enqueued, WorkerNext, HasReceiver;
      model := next;
    }

    method Enqueue(id: nat, priority: int)
      requires Valid() && At(model, id, Insert) && model.submits[id].priority == priority
      modifies this
      ensures Valid() && Some(model) == old(Next(model, InsertTask(id)))
      ensures multiset(queue) == old(multiset(queue)) + multiset{Task(id, priority, old(inserted))}
      ensures forall i, j | 0 <= i < j < |queue| :: Before(queue[i], queue[j])
    {
      var task := Task(id, priority, inserted);
      ghost var next := Next(model, InsertTask(id)).value;
      ReachableStep(model, InsertTask(id));
      QueueIsFair(next);
      EnqueuedContents(queue, task);
      hide Reachable, WorkerNext, HasReceiver, Before;
      var pos := 0;
      while pos < |queue| && queue[pos].priority <= priority
        invariant pos <= |queue|
        invariant PlaceFor(queue, priority, pos) == PlaceFor(queue, priority, 0)
      {
        pos := pos + 1;
      }
      queue := queue[..pos] + [task] + queue[pos..];
      inserted := inserted + 1;
      model := next;
    }

    method NotifyOne(ghost id: nat, parked: bool) returns (wakes: bool)
      requires Valid() && At(model, id, Notify) && (parked <==> model.worker.Parked?)
      modifies this
      ensures Valid() && Some(model) == old(Next(model, Action.NotifyOne(id)))
      ensures wakes <==> parked
      ensures !wakes ==> permit
    {
      hide Reachable, Enqueued, WorkerNext, HasReceiver;
      ReachableStep(model, Action.NotifyOne(id));
      wakes := parked;
      if !parked {
        permit := true;
      }
      model := Next(model, Action.NotifyOne(id)).value;
    }

    method TakeNext() returns (task: Option<Task>)
      requires Valid() && model.worker.TakeFirst?
      modifies this
      ensures Valid() && Some(model) == old(Next(model, WorkerStep(false)))
      ensures task.None? <==> old(queue) == []
      ensures task.Some? ==> old(queue) == [task.value] + queue && forall t | t in queue :: Before(task.value, t)
    {
      QueueIsFair(model);
      hide Reachable, Enqueued, HasReceiver, Before;
      ReachableStep(model, WorkerStep(false));
      model := Next(model, WorkerStep(false)).value;
      if queue == [] {
        task := None;
      } else {
        task := Some(queue[0]);
        assert forall t | t in queue[1..] :: exists k | 1 <= k < |queue| :: queue[k] == t;
        queue := queue[1..];
      }
    }

    method PublishCancel(task: Task)
      requires Valid() && model.worker == Worker.SetCancel(task)
      modifies this
      ensures Valid() && Some(model) == old(Next(model, WorkerStep(false)))
      ensures currentPriority == None
    {
      ReachableInvariant(model);
      hide Reachable, Invariant, Enqueued, HasReceiver;
      ReachableStep(model, WorkerStep(false));
      currentCancel := Some(task);
      model := Next(model, WorkerStep(false)).value;
    }

    method PublishPriority(task: Task)
      requires Valid() && model.worker == SetPrio(task)
      modifies this
      ensures Valid() && Some(model) == old(Next(model, WorkerStep(false)))
      ensures currentCancel == Some(task) && currentPriority == Some(task.priority)
    {
      ReachableInvariant(model);
      LocksSuffice(model);
      hide Reachable, Invariant, Enqueued, HasReceiver;
      ReachableStep(model, WorkerStep(false));
      currentPriority := Some(task.priority);
      model := Next(model, WorkerStep(false)).value;
    }

    method RetractCancel(ghost task: Task)
      requires Valid() && model.worker == Worker.ClearCancel(task)
      modifies this
      ensures Valid() && Some(model) == old(Next(model, WorkerStep(false)))
      ensures currentPriority == Some(task.priority)
    {
      ReachableInvariant(model);
      hide Reachable, Invariant, Enqueued, HasReceiver;
      ReachableStep(model, WorkerStep(false));
      currentCancel := None;
      model := Next(model, WorkerStep(false)).value;
    }

    method RetractPriority(ghost task: Task)
      requires Valid() && model.worker == ClearPrio(task) && model.prioLock.None?
      modifies this
      ensures Valid() && Some(model) == old(Next(model, WorkerStep(false)))
      ensures currentCancel == None && currentPriority == None
    {
      ReachableInvariant(model);
      hide Reachable, Invariant, Enqueued, HasReceiver;
      ReachableStep(model, WorkerStep(false));
      currentPriority := None;
      model := Next(model, WorkerStep(false)).value;
    }
  }
}
