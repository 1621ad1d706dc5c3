/** `Ev::ThreadPool`: worker threads and the main thread share two queues under a
    mutex, a condition variable and a pipe.  A step is what one thread does between
    two points where another thread can be scheduled. */
module ThreadPools {
  type Task = nat

  datatype Worker =
    | Acquiring             // about to lock the mutex and test the work queue
    | Checking              // holds the mutex, at the loop test of get_work
    | Asleep                // inside the condition variable's wait
    | Running(task: Task)   // executing the background stage, no mutex
    | Returning(task: Task) // about to lock the mutex to publish
    | Publishing(task: Task) // holds the mutex, result not queued yet
    | Writing               // holds the mutex, result queued, byte not written
    | Exited

  datatype Main =
    | Idle
    | Pushed | Notified     // inside add
    | GotByte | Popped(task: Task) // inside io_handler
    | Stopping | ShutdownSet | Joining // inside the destructor
    | PoppedEmptyQueue      // undefined behaviour in the original

  datatype State = State(
    work: seq<Task>, results: seq<Task>, bytes: nat,
    mutex: int,             // index of the worker that holds it, or -1
    workers: seq<Worker>, main: Main,
    numTasks: int, watcher: bool, shutdown: bool,
    added: seq<Task>, done: seq<Task>)

  const FREE := -1

  datatype Step =
    | Lock(i: nat) | GetWork(i: nat) | Wake(i: nat) | Finish(i: nat) | PutResult(i: nat) | PutByte(i: nat)
    | Push(task: Task) | Notify(woken: int) | Register
    | ReadByte | PopResult | Deregister
    | StopWatcher | SetShutdown | NotifyAll

  function Launched(threads: nat): seq<Worker> {
    seq(threads, i => Acquiring)
  }

  function Init(threads: nat): State {
    State([], [], 0, FREE, Launched(threads), Idle, 0, false, false, [], [])
  }

  predicate IsWorker(s: State, i: int) {
    0 <= i < |s.workers|
  }

  predicate NoneAsleep(ws: seq<Worker>) {
    forall j :: 0 <= j < |ws| ==> !ws[j].Asleep?
  }

  predicate Enabled(s: State, step: Step) {
    match step
    case Lock(i) => IsWorker(s, i) && s.mutex == FREE && (s.workers[i].Acquiring? || s.workers[i].Returning?)
    case GetWork(i) => IsWorker(s, i) && s.workers[i].Checking?
    case Wake(i) => IsWorker(s, i) && s.workers[i].Asleep?
    case Finish(i) => IsWorker(s, i) && s.workers[i].Running?
    case PutResult(i) => IsWorker(s, i) && s.workers[i].Publishing?
    case PutByte(i) => IsWorker(s, i) && s.workers[i].Writing?
    case Push(t) => s.main.Idle? && s.mutex == FREE && t !in s.added
    case Notify(i) => s.main.Pushed? && (if IsWorker(s, i) then s.workers[i].Asleep? else NoneAsleep(s.workers))
    case Register => s.main.Notified?
    case ReadByte => s.main.Idle? && s.watcher && s.bytes > 0
    case PopResult => s.main.GotByte? && s.mutex == FREE
    case Deregister => s.main.Popped?
    case StopWatcher => s.main.Idle?
    case SetShutdown => s.main.Stopping? && s.mutex == FREE
    case NotifyAll => s.main.ShutdownSet?
  }

  function SetWorker(s: State, i: nat, w: Worker): State
    requires i < |s.workers|
  {
    s.(workers := s.workers[i := w])
  }

  function Do(s: State, step: Step): State
    requires Enabled(s, step)
  {
    match step
    case Lock(i) =>
      SetWorker(s, i, if s.workers[i].Acquiring? then Checking else Publishing(s.workers[i].task)).(mutex := i)
    case GetWork(i) =>
      if s.shutdown then SetWorker(s, i, Exited).(mutex := FREE)
      else if s.work == [] then SetWorker(s, i, Asleep).(mutex := FREE)
      else SetWorker(s, i, Running(s.work[0])).(work := s.work[1..], mutex := FREE)
    case Wake(i) => SetWorker(s, i, Acquiring)
    case Finish(i) => SetWorker(s, i, Returning(s.workers[i].task))
    case PutResult(i) => SetWorker(s, i, Writing).(results := s.results + [s.workers[i].task])
    case PutByte(i) => SetWorker(s, i, Checking).(bytes := s.bytes + 1)
    case Push(t) => s.(work := s.work + [t], added := s.added + [t], main := Pushed)
    case Notify(i) => (if IsWorker(s, i) then SetWorker(s, i, Acquiring) else s).(main := Notified)
    case Register => s.(numTasks := s.numTasks + 1, watcher := true, main := Idle)
    case ReadByte => s.(bytes := s.bytes - 1, main := GotByte)
    case PopResult =>
      if s.results == [] then s.(main := PoppedEmptyQueue)
      else s.(results := s.results[1..], main := Popped(s.results[0]))
    case Deregister =>
      s.(numTasks := s.numTasks - 1, watcher := s.watcher && s.numTasks != 1,
         done := s.done + [s.main.task], main := Idle)
    case StopWatcher => s.(watcher := false, main := Stopping)
    case SetShutdown => s.(shutdown := true, main := ShutdownSet)
    case NotifyAll => s.(workers := WakeAll(s.workers), main := Joining)
  }

  function WakeAll(ws: seq<Worker>): (ws': seq<Worker>)
    ensures |ws'| == |ws|
    ensures forall j :: 0 <= j < |ws| ==> ws'[j] == if ws[j].Asleep? then Acquiring else ws[j]
  {
    seq(|ws|, j requires 0 <= j < |ws| => if ws[j].Asleep? then Acquiring else ws[j])
  }

  // ------------------------------------------------------- counting the workers

  function Flag(b: bool): nat {
    if b then 1 else 0
  }

  function Count(q: seq<Task>, t: Task): nat {
    multiset(q)[t]
  }

  lemma CountSnoc(q: seq<Task>, x: Task, t: Task)
    ensures Count(q + [x], t) == Count(q, t) + Flag(x == t)
  {
  }

  lemma CountIsMembership(q: seq<Task>, t: Task)
    ensures Count(q, t) > 0 <==> t in q
  {
  }

  lemma CountHead(q: seq<Task>, t: Task)
    requires q != []
    ensures Count(q, t) == Flag(q[0] == t) + Count(q[1..], t)
  {
    assert q == [q[0]] + q[1..];
  }

  predicate HoldsTask(w: Worker, t: Task) {
    (w.Running? || w.Returning? || w.Publishing?) && w.task == t
  }

  /** How many workers hold the task. */
  function Held(ws: seq<Worker>, t: Task): nat {
    if ws == [] then 0 else Flag(HoldsTask(ws[0], t)) + Held(ws[1..], t)
  }

  predicate IsBusy(w: Worker) {
    w.Running? || w.Returning? || w.Publishing?
  }

  function Busy(ws: seq<Worker>): nat {
    if ws == [] then 0 else Flag(IsBusy(ws[0])) + Busy(ws[1..])
  }

  /** Workers on their way to the queue test. */
  predicate IsReady(w: Worker) {
    w.Acquiring? || w.Checking?
  }

  function Ready(ws: seq<Worker>): nat {
    if ws == [] then 0 else Flag(IsReady(ws[0])) + Ready(ws[1..])
  }

  lemma {:induction false} UpdateCounts(ws: seq<Worker>, i: nat, w: Worker, t: Task)
    requires i < |ws|
    ensures Held(ws[i := w], t) == Held(ws, t) - Flag(HoldsTask(ws[i], t)) + Flag(HoldsTask(w, t))
    ensures Busy(ws[i := w]) == Busy(ws) - Flag(IsBusy(ws[i])) + Flag(IsBusy(w))
    ensures Ready(ws[i := w]) == Ready(ws) - Flag(IsReady(ws[i])) + Flag(IsReady(w))
  {
    if i == 0 {
      assert ws[i := w][1..] == ws[1..];
    } else {
      assert ws[i := w][1..] == ws[1..][i - 1 := w];
      UpdateCounts(ws[1..], i - 1, w, t);
    }
  }

  lemma {:induction false} WakeAllCounts(ws: seq<Worker>, t: Task)
    ensures Held(WakeAll(ws), t) == Held(ws, t) && Busy(WakeAll(ws)) == Busy(ws)
  {
    if ws != [] {
      assert WakeAll(ws)[1..] == WakeAll(ws[1..]);
      WakeAllCounts(ws[1..], t);
    }
  }

  lemma {:induction false} StartCounts(n: nat, t: Task)
    ensures Held(Launched(n), t) == 0 && Busy(Launched(n)) == 0
  {
    if n > 0 {
      assert Launched(n)[1..] == Launched(n - 1);
      StartCounts(n - 1, t);
    }
  }

  // -------------------------------------------------------------- the invariant

  predicate Holds(w: Worker) {
    w.Checking? || w.Publishing? || w.Writing?
  }

  predicate MutexInv(s: State) {
    && -1 <= s.mutex < |s.workers|
    && forall i :: 0 <= i < |s.workers| ==> (Holds(s.workers[i]) <==> s.mutex == i)
  }

  predicate MidPublish(s: State) {
    0 <= s.mutex < |s.workers| && s.workers[s.mutex].Writing?
  }

  /** Queued results are matched by bytes in the pipe, up to the byte the main
      thread has just read and the one a publishing worker is about to write. */
  predicate PipeInv(s: State) {
    |s.results| == s.bytes + Flag(s.main.GotByte?) + Flag(MidPublish(s))
  }

  /** In how many places the unfinished task `t` is. */
  function Places(s: State, t: Task): nat {
    Count(s.work, t) + Held(s.workers, t) + Count(s.results, t) + Flag(s.main == Popped(t))
  }

  /** Every task ever added is in exactly one place, or done exactly once. */
  ghost predicate TaskInv(s: State) {
    forall t :: Count(s.added, t) == Places(s, t) + Count(s.done, t) <= 1
  }

  function Pending(s: State): nat {
    |s.work| + Busy(s.workers) + |s.results| + Flag(s.main.Popped?)
  }

  /** `num_tasks` counts the unfinished tasks, and the watcher is live exactly when
      there are some. */
  predicate CountInv(s: State) {
    && s.numTasks >= 0 && s.numTasks + Flag(s.main.Pushed? || s.main.Notified?) == Pending(s)
    && (!(s.main.Stopping? || s.main.ShutdownSet? || s.main.Joining?) ==> (s.watcher <==> s.numTasks > 0))
  }

  /** No lost wakeup: while a worker sleeps, every queued task has its own awake
      worker on its way to the queue, or the notification is still to come. */
  predicate WakeInv(s: State) {
    && (!s.shutdown && !NoneAsleep(s.workers) ==> |s.work| <= Ready(s.workers) + Flag(s.main.Pushed?))
    && (s.shutdown <==> s.main.ShutdownSet? || s.main.Joining?)
    && (s.main.Joining? ==> NoneAsleep(s.workers))
  }

  ghost predicate Inv(s: State) {
    && !s.main.PoppedEmptyQueue?
    && MutexInv(s) && PipeInv(s) && TaskInv(s) && CountInv(s) && WakeInv(s)
  }

  lemma InitInv(threads: nat)
    ensures Inv(Init(threads))
  {
    hide Held, Busy, Ready;
    var s := Init(threads);
    StartCounts(threads, 0);
    assert MutexInv(s) && PipeInv(s) && CountInv(s) && WakeInv(s);
    forall t ensures Count(s.added, t) == Places(s, t) + Count(s.done, t) <= 1 {
      StartCounts(threads, t);
    }
  }

  /** `result_queue.front()` is never called on an empty queue. */
  lemma PopFindsResult(s: State)
    requires MutexInv(s) && PipeInv(s) && Enabled(s, PopResult)
    ensures s.results != []
  {
  }

  lemma StepMutexPipe(s: State, step: Step)
    requires MutexInv(s) && PipeInv(s) && !s.main.PoppedEmptyQueue? && Enabled(s, step)
    ensures var s' := Do(s, step); MutexInv(s') && PipeInv(s') && !s'.main.PoppedEmptyQueue?
  {
    if step.Lock? || step.GetWork? || step.PutResult? || step.PutByte? {
      LockedStep(s, step);
    } else if step.Wake? || step.Finish? || step.Notify? || step.NotifyAll? {
      UnlockedStep(s, step);
    } else {
      MainStep(s, step);
    }
  }

  /** Steps of a worker that takes, holds or gives up the mutex. */
  lemma LockedStep(s: State, step: Step)
    requires MutexInv(s) && PipeInv(s) && !s.main.PoppedEmptyQueue? && Enabled(s, step)
    requires step.Lock? || step.GetWork? || step.PutResult? || step.PutByte?
    ensures var s' := Do(s, step); MutexInv(s') && PipeInv(s') && s'.main == s.main
  {
    hide NoneAsleep;
    var i := step.i;
    assert !step.Lock? ==> s.mutex == i;
    match step
    case Lock(_) => MutexPasses(s, Do(s, step), i);
    case GetWork(_) => MutexPasses(s, Do(s, step), i);
    case PutResult(_) => MutexPasses(s, Do(s, step), i);
    case PutByte(_) => MutexPasses(s, Do(s, step), i);
  }

  /** Only worker `i` moves, and it holds the mutex afterwards or nobody does. */
  lemma MutexPasses(s: State, s': State, i: nat)
    requires MutexInv(s) && i < |s.workers| && (s.mutex == i || s.mutex == FREE)
    requires |s'.workers| == |s.workers| && s'.workers == s.workers[i := s'.workers[i]]
    requires if Holds(s'.workers[i]) then s'.mutex == i else s'.mutex == FREE
    ensures MutexInv(s')
  {
  }

  /** Steps of workers that do not hold the mutex before or after. */
  lemma UnlockedStep(s: State, step: Step)
    requires MutexInv(s) && PipeInv(s) && !s.main.PoppedEmptyQueue? && Enabled(s, step)
    requires step.Wake? || step.Finish? || step.Notify? || step.NotifyAll?
    ensures var s' := Do(s, step); MutexInv(s') && PipeInv(s') && !s'.main.PoppedEmptyQueue?
  {
    hide NoneAsleep;
    var s' := Do(s, step);
    assert forall j :: 0 <= j < |s.workers| ==>
      (Holds(s'.workers[j]) <==> Holds(s.workers[j])) && (s'.workers[j].Writing? <==> s.workers[j].Writing?);
    hide Do, Holds;
  }

  /** Steps of the main thread that move no worker. */
  lemma MainStep(s: State, step: Step)
    requires MutexInv(s) && PipeInv(s) && !s.main.PoppedEmptyQueue? && Enabled(s, step)
    requires step.Push? || step.Register? || step.ReadByte? || step.PopResult? || step.Deregister?
             || step.StopWatcher? || step.SetShutdown?
    ensures var s' := Do(s, step); MutexInv(s') && PipeInv(s') && !s'.main.PoppedEmptyQueue?
  {
    hide NoneAsleep, Holds;
    if step.PopResult? {
      PopFindsResult(s);
    }
  }

  /** The worker a step moves, or -1. */
  function Mover(s: State, step: Step): int {
    match step
    case Lock(i) => i
    case GetWork(i) => i
    case Wake(i) => i
    case Finish(i) => i
    case PutResult(i) => i
    case PutByte(i) => i
    case Notify(i) => if IsWorker(s, i) then i else -1
    case _ => -1
  }

  lemma StepCounts(s: State, step: Step, t: Task)
    requires Enabled(s, step) && !step.NotifyAll?
    ensures var ws := s.workers; var ws' := Do(s, step).workers; var i := Mover(s, step);
            if i == -1 then ws' == ws
            else && IsWorker(s, i) && ws' == ws[i := ws'[i]]
                 && Held(ws', t) == Held(ws, t) - Flag(HoldsTask(ws[i], t)) + Flag(HoldsTask(ws'[i], t))
                 && Busy(ws') == Busy(ws) - Flag(IsBusy(ws[i])) + Flag(IsBusy(ws'[i]))
                 && Ready(ws') == Ready(ws) - Flag(IsReady(ws[i])) + Flag(IsReady(ws'[i]))
  {
    var i := Mover(s, step);
    if i != -1 {
      UpdateCounts(s.workers, i, Do(s, step).workers[i], t);
    }
  }

  /** A step moves a task between places; only `add` brings one in, and only the
      end of `io_handler` takes one out. */
  lemma StepPlaces(s: State, step: Step, t: Task)
    requires Enabled(s, step) && Do(s, step).main != PoppedEmptyQueue
    ensures Places(Do(s, step), t) + Flag(s.main == Popped(t) && step.Deregister?)
         == Places(s, t) + Flag(step == Push(t))
    ensures Pending(Do(s, step)) + Flag(step.Deregister?) == Pending(s) + Flag(step.Push?)
  {
    if step.NotifyAll? {
      WakeAllCounts(s.workers, t);
    } else if Mover(s, step) != -1 {
      WorkerPlaces(s, step, t);
    } else {
      MainPlaces(s, step, t);
    }
  }

  lemma WorkerPlaces(s: State, step: Step, t: Task)
    requires Enabled(s, step) && !step.NotifyAll? && Mover(s, step) != -1
    ensures Places(Do(s, step), t) == Places(s, t) && Pending(Do(s, step)) == Pending(s)
    ensures !step.Deregister? && !step.Push?
  {
    hide Count, Held, Busy, Ready, NoneAsleep;
    StepCounts(s, step, t);
    match step
    case GetWork(i) => if s.work != [] { CountHead(s.work, t); }
    case PutResult(i) => CountSnoc(s.results, s.workers[i].task, t);
    case _ =>
  }

  lemma MainPlaces(s: State, step: Step, t: Task)
    requires Enabled(s, step) && !step.NotifyAll? && Mover(s, step) == -1
    requires Do(s, step).main != PoppedEmptyQueue
    ensures Places(Do(s, step), t) + Flag(s.main == Popped(t) && step.Deregister?)
         == Places(s, t) + Flag(step == Push(t))
    ensures Pending(Do(s, step)) + Flag(step.Deregister?) == Pending(s) + Flag(step.Push?)
  {
    hide Count, Held, Busy, Ready, NoneAsleep;
    match step
    case PopResult => CountHead(s.results, t);
    case Push(x) => CountSnoc(s.work, x, t);
    case _ =>
  }

  lemma StepHistory(s: State, step: Step, t: Task)
    requires Enabled(s, step)
    ensures Count(Do(s, step).added, t) == Count(s.added, t) + Flag(step == Push(t))
    ensures Count(Do(s, step).done, t) == Count(s.done, t) + Flag(s.main == Popped(t) && step.Deregister?)
    ensures step == Push(t) ==> Count(s.added, t) == 0
  {
    if step.Push? {
      CountSnoc(s.added, step.task, t);
    } else if step.Deregister? {
      CountSnoc(s.done, s.main.task, t);
    }
  }

  lemma StepTasks(s: State, step: Step)
    requires TaskInv(s) && Enabled(s, step) && Do(s, step).main != PoppedEmptyQueue
    ensures TaskInv(Do(s, step))
  {
    var s' := Do(s, step);
    forall t ensures Count(s'.added, t) == Places(s', t) + Count(s'.done, t) <= 1 {
      hide Places, Count, Do;
      StepPlaces(s, step, t);
      StepHistory(s, step, t);
    }
  }

  lemma StepCount(s: State, step: Step)
    requires CountInv(s) && Enabled(s, step) && Do(s, step).main != PoppedEmptyQueue
    ensures CountInv(Do(s, step))
  {
    hide Pending, NoneAsleep, WakeAll, SetWorker;
    StepPlaces(s, step, 0);
    PoppedIsPending(s);
    if Mover(s, step) != -1 {
      WorkersDoNotCount(s, step);
    }
  }

  lemma PoppedIsPending(s: State)
    ensures s.main.Popped? ==> Pending(s) > 0
  {
  }

  lemma WorkersDoNotCount(s: State, step: Step)
    requires Enabled(s, step) && Mover(s, step) != -1
    ensures var s' := Do(s, step);
            && s'.numTasks == s.numTasks && s'.watcher == s.watcher && !step.Push? && !step.Deregister?
            && s'.main == if step.Notify? then Notified else s.main
  {
    hide NoneAsleep;
  }

  lemma StepWake(s: State, step: Step)
    requires MutexInv(s) && WakeInv(s) && Enabled(s, step)
    ensures WakeInv(Do(s, step))
  {
    if !step.NotifyAll? {
      StepCounts(s, step, 0);
    }
  }

  /** Every step of every thread keeps the invariant. */
  lemma StepInv(s: State, step: Step)
    requires Inv(s) && Enabled(s, step)
    ensures Inv(Do(s, step))
  {
    StepMutexPipe(s, step);
    StepTasks(s, step);
    StepCount(s, step);
    StepWake(s, step);
  }

  // -------------------------------------------------------------------- runs

  datatype Outcome = Impossible | Reached(state: State)

  /** The state after a schedule, if each of its steps was possible in turn. */
  function After(s: State, schedule: seq<Step>): Outcome
    decreases |schedule|
  {
    if schedule == [] then Reached(s)
    else if Enabled(s, schedule[0]) then After(Do(s, schedule[0]), schedule[1..])
    else Impossible
  }

  predicate Reaches(threads: nat, schedule: seq<Step>, s: State) {
    After(Init(threads), schedule) == Reached(s)
  }

  lemma {:induction false} AfterInv(s: State, schedule: seq<Step>)
    requires Inv(s) && After(s, schedule).Reached?
    ensures Inv(After(s, schedule).state) && |After(s, schedule).state.workers| == |s.workers|
    decreases |schedule|
  {
    hide Inv;
    if schedule != [] {
      StepInv(s, schedule[0]);
      AfterInv(Do(s, schedule[0]), schedule[1..]);
    }
  }

  lemma RunInv(threads: nat, schedule: seq<Step>, s: State)
    requires Reaches(threads, schedule, s)
    ensures Inv(s) && |s.workers| == threads
  {
    hide Inv;
    InitInv(threads);
    AfterInv(Init(threads), schedule);
  }

  // ------------------------------------------------------------------- order

  /** The task a worker comes away with from the queue test. */
  function Took(s: State, step: Step): seq<Task>
    requires Enabled(s, step)
  {
    if step.GetWork? && Do(s, step).workers[step.i].Running? then [Do(s, step).workers[step.i].task] else []
  }

  /** The task whose result a worker queues, and the one the main thread picks up. */
  function Gave(s: State, step: Step): seq<Task>
    requires Enabled(s, step)
  {
    if step.PutResult? then [s.workers[step.i].task] else []
  }

  function Picked(s: State, step: Step): seq<Task>
    requires Enabled(s, step)
  {
    if step.PopResult? && Do(s, step).main.Popped? then [Do(s, step).main.task] else []
  }

  function PushedBy(step: Step): seq<Task> {
    if step.Push? then [step.task] else []
  }

  function InHand(m: Main): seq<Task> {
    if m.Popped? then [m.task] else []
  }

  lemma StepWorkOrder(s: State, step: Step)
    requires Enabled(s, step)
    ensures s.work + PushedBy(step) == Took(s, step) + Do(s, step).work
    ensures Do(s, step).added == s.added + PushedBy(step)
  {
    hide NoneAsleep;
  }

  lemma StepResultOrder(s: State, step: Step)
    requires MutexInv(s) && PipeInv(s) && Enabled(s, step)
    ensures var s' := Do(s, step);
            && s.results + Gave(s, step) == Picked(s, step) + s'.results
            && s.done + InHand(s.main) + Picked(s, step) == s'.done + InHand(s'.main)
  {
    if step.PopResult? {
      PopFindsResult(s);
    }
    hide MutexInv, PipeInv, NoneAsleep;
  }

  /** What happened along a schedule, in order. */
  datatype Trace = Trace(pushed: seq<Task>, took: seq<Task>, gave: seq<Task>, picked: seq<Task>)

  function Then(s: State, step: Step, t: Trace): Trace
    requires Enabled(s, step)
  {
    Trace(PushedBy(step) + t.pushed, Took(s, step) + t.took, Gave(s, step) + t.gave, Picked(s, step) + t.picked)
  }

  function TraceOf(s: State, schedule: seq<Step>): Trace
    requires After(s, schedule).Reached?
    decreases |schedule|
  {
    if schedule == [] then Trace([], [], [], [])
    else Then(s, schedule[0], TraceOf(Do(s, schedule[0]), schedule[1..]))
  }

  lemma {:induction false} AfterOrder(s: State, schedule: seq<Step>)
    requires Inv(s) && After(s, schedule).Reached?
    ensures var s' := After(s, schedule).state; var t := TraceOf(s, schedule);
            && s.work + t.pushed == t.took + s'.work
            && s.results + t.gave == t.picked + s'.results
            && s.done + InHand(s.main) + t.picked == s'.done + InHand(s'.main)
            && s'.added == s.added + t.pushed
    decreases |schedule|
  {
    hide Inv, MutexInv, PipeInv, Do, Enabled, Took, Gave, Picked, PushedBy, InHand;
    if schedule != [] {
      var step := schedule[0];
      var s1 := Do(s, step);
      StepInv(s, step);
      StepWorkOrder(s, step);
      InvHasPipe(s);
      StepResultOrder(s, step);
      AfterOrder(s1, schedule[1..]);
      var s', t1 := After(s1, schedule[1..]).state, TraceOf(s1, schedule[1..]);
      Chain(s.work, PushedBy(step), Took(s, step), s1.work, t1.pushed, t1.took, s'.work);
      Chain(s.results, Gave(s, step), Picked(s, step), s1.results, t1.gave, t1.picked, s'.results);
      assert s.done + InHand(s.main) + (Picked(s, step) + t1.picked) == s1.done + InHand(s1.main) + t1.picked;
      assert s.added + PushedBy(step) + t1.pushed == s.added + (PushedBy(step) + t1.pushed);
    }
  }

  lemma InvHasPipe(s: State)
    requires Inv(s)
    ensures MutexInv(s) && PipeInv(s)
  {
  }

  lemma Chain(q: seq<Task>, a: seq<Task>, b: seq<Task>, q1: seq<Task>, a1: seq<Task>, b1: seq<Task>, q2: seq<Task>)
    requires q + a == b + q1 && q1 + a1 == b1 + q2
    ensures q + (a + a1) == (b + b1) + q2
  {
    assert q + (a + a1) == (q + a) + a1 == b + (q1 + a1);
  }

  /** Over every interleaving: work is taken up in the order in which it was added, and
      the main-thread stages run in the order in which the results were queued. */
  lemma WorkIsFifo(threads: nat, schedule: seq<Step>, s: State)
    requires Reaches(threads, schedule, s)
    ensures var t := TraceOf(Init(threads), schedule);
            && t.pushed == t.took + s.work && s.added == t.pushed
            && t.gave == t.picked + s.results
            && t.picked == s.done + InHand(s.main)
  {
    InitInv(threads);
    AfterOrder(Init(threads), schedule);
    var t := TraceOf(Init(threads), schedule);
    assert [] + t.pushed == t.pushed && [] + t.gave == t.gave;
  }

  lemma {:induction false} ReadyWorkerExists(ws: seq<Worker>) returns (i: nat)
    requires Ready(ws) > 0
    ensures i < |ws| && IsReady(ws[i])
  {
    if IsReady(ws[0]) {
      i := 0;
    } else {
      var j := ReadyWorkerExists(ws[1..]);
      i := j + 1;
    }
  }

  /** Over every interleaving before shutdown: queued work never waits while every
      worker sleeps and no notification is pending; if any worker sleeps, another
      is already on its way to the queue. */
  lemma QueuedWorkHasAwakeWorker(threads: nat, schedule: seq<Step>, s: State)
    requires threads > 0 && Reaches(threads, schedule, s) && !s.shutdown
    requires s.work != [] && !s.main.Pushed?
    ensures exists i :: 0 <= i < |s.workers| && !s.workers[i].Asleep?
    ensures !NoneAsleep(s.workers) ==> exists i :: 0 <= i < |s.workers| && IsReady(s.workers[i])
  {
    RunInv(threads, schedule, s);
    if NoneAsleep(s.workers) {
      assert !s.workers[0].Asleep?;
    } else {
      var i := ReadyWorkerExists(s.workers);
      assert !s.workers[i].Asleep? && IsReady(s.workers[i]);
    }
  }

  /** Over every interleaving: a task's main-thread stage runs at most once, no
      task is lost, the handler never pops an empty queue, and at rest the watcher
      is live exactly when some added task has not run its main-thread stage. */
  lemma TasksAreConserved(threads: nat, schedule: seq<Step>, s: State, t: Task)
    requires Reaches(threads, schedule, s)
    ensures Count(s.done, t) <= 1
    ensures t in s.added <==> Places(s, t) + Count(s.done, t) == 1
    ensures s.main != PoppedEmptyQueue && (s.main.GotByte? && s.mutex == FREE ==> s.results != [])
    ensures s.main.Idle? && t in s.added && t !in s.done ==> s.watcher
    ensures s.main.Idle? && s.watcher ==> exists u :: u in s.added && u !in s.done
  {
    RunInv(threads, schedule, s);
    CountIsMembership(s.added, t);
    CountIsMembership(s.done, t);
    if s.main.Idle? {
      if t in s.added && t !in s.done {
        PlacedIsPending(s, t);
      }
      if s.watcher {
        var u := PendingIsPlaced(s);
        CountIsMembership(s.added, u);
        CountIsMembership(s.done, u);
      }
    }
  }

  lemma {:induction false} HeldIsBusy(ws: seq<Worker>, t: Task)
    ensures Held(ws, t) <= Busy(ws)
  {
    if ws != [] {
      HeldIsBusy(ws[1..], t);
    }
  }

  lemma {:induction false} BusyHolds(ws: seq<Worker>) returns (t: Task)
    requires Busy(ws) > 0
    ensures Held(ws, t) > 0
  {
    if IsBusy(ws[0]) {
      t := ws[0].task;
    } else {
      t := BusyHolds(ws[1..]);
    }
  }

  lemma PlacedIsPending(s: State, t: Task)
    requires Places(s, t) > 0
    ensures Pending(s) > 0
  {
    HeldIsBusy(s.workers, t);
    CountIsMembership(s.work, t);
    CountIsMembership(s.results, t);
  }

  lemma PendingIsPlaced(s: State) returns (t: Task)
    requires Pending(s) > 0
    ensures Places(s, t) > 0
  {
    if s.work != [] {
      t := s.work[0];
      CountIsMembership(s.work, t);
    } else if s.results != [] {
      t := s.results[0];
      CountIsMembership(s.results, t);
    } else if s.main.Popped? {
      t := s.main.task;
    } else {
      t := BusyHolds(s.workers);
    }
  }

  /** After the destructor's `notify_all` no worker is asleep, and a worker that
      reaches the queue test leaves, so no join waits for a sleeper. */
  lemma JoinWaitsForNoSleeper(threads: nat, schedule: seq<Step>, s: State, i: nat)
    requires Reaches(threads, schedule, s) && s.main.Joining? && i < |s.workers|
    ensures !s.workers[i].Asleep?
    ensures s.workers[i].Checking? ==> Do(s, GetWork(i)).workers[i].Exited?
  {
    RunInv(threads, schedule, s);
  }

  // --------------------------------------------------------------- the class

  /** The object itself: each method is the code one thread runs between two
      scheduling points. */
  class Pool {
    var workQueue: seq<Task>
    var resultQueue: seq<Task>
    var pipe: nat
    var mutex: int
    var workers: seq<Worker>
    var main: Main
    var numTasks: int
    var ioWaiter: bool
    var shutdown: bool
    ghost var added: seq<Task>
    ghost var done: seq<Task>

    ghost function Abs(): State
      reads this
    {
      State(workQueue, resultQueue, pipe, mutex, workers, main, numTasks, ioWaiter, shutdown, added, done)
    }

    /** The original launches 16 threads. */
    constructor (threads: nat)
      ensures Abs() == Init(threads) && Inv(Abs())
    {
      workQueue, resultQueue, pipe, mutex := [], [], 0, FREE;
      workers := Launched(threads);
      main, numTasks, ioWaiter, shutdown := Idle, 0, false, false;
      added, done := [], [];
      new;
      hide Inv;
      InitInv(threads);
    }

    method LockMutex(i: nat)
      requires Inv(Abs()) && Enabled(Abs(), Lock(i))
      modifies this
      ensures Abs() == Do(old(Abs()), Lock(i)) && Inv(Abs())
    {
      StepInv(Abs(), Lock(i));
      hide Inv;
      mutex := i;
      workers := workers[i := if workers[i].Acquiring? then Checking else Publishing(workers[i].task)];
    }

    /** One pass through the loop test of `get_work`, with the unlock after it. */
    method TakeWork(i: nat) returns (work: Worker)
      requires Inv(Abs()) && Enabled(Abs(), GetWork(i))
      modifies this
      ensures Abs() == Do(old(Abs()), GetWork(i)) && Inv(Abs())
      ensures work == workers[i] && (work.Running? ==> [work.task] + workQueue == old(workQueue))
    {
      StepInv(Abs(), GetWork(i));
      hide Inv;
      if workQueue == [] && !shutdown {
        work := Asleep;
      } else if shutdown {
        work := Exited;
      } else {
        work := Running(workQueue[0]);
        workQueue := workQueue[1..];
      }
      workers := workers[i := work];
      mutex := FREE;
    }

    method QueueResult(i: nat)
      requires Inv(Abs()) && Enabled(Abs(), PutResult(i))
      modifies this
      ensures Abs() == Do(old(Abs()), PutResult(i)) && Inv(Abs())
    {
      StepInv(Abs(), PutResult(i));
      hide Inv;
      resultQueue := resultQueue + [workers[i].task];
      workers := workers[i := Writing];
    }

    method WriteByte(i: nat)
      requires Inv(Abs()) && Enabled(Abs(), PutByte(i))
      modifies this
      ensures Abs() == Do(old(Abs()), PutByte(i)) && Inv(Abs())
    {
      StepInv(Abs(), PutByte(i));
      hide Inv;
      pipe := pipe + 1;
      workers := workers[i := Checking];
    }

    method AddUnderLock(work: Task)
      requires Inv(Abs()) && Enabled(Abs(), Push(work))
      modifies this
      ensures Abs() == Do(old(Abs()), Push(work)) && Inv(Abs())
    {
      StepInv(Abs(), Push(work));
      hide Inv;
      workQueue := workQueue + [work];
      added := added + [work];
      main := Pushed;
    }

    /** `cnd.notify_one`: some sleeper wakes, if there is one. */
    method AddNotify(sleeper: int)
      requires Inv(Abs()) && Enabled(Abs(), Notify(sleeper))
      modifies this
      ensures Abs() == Do(old(Abs()), Notify(sleeper)) && Inv(Abs())
    {
      StepInv(Abs(), Notify(sleeper));
      hide Inv;
      if 0 <= sleeper < |workers| {
        workers := workers[sleeper := Acquiring];
      }
      main := Notified;
    }

    method AddRegister()
      requires Inv(Abs()) && Enabled(Abs(), Register)
      modifies this
      ensures Abs() == Do(old(Abs()), Register) && Inv(Abs())
    {
      StepInv(Abs(), Register);
      hide Inv;
      numTasks := numTasks + 1;
      if !ioWaiter {
        ioWaiter := true;
      }
      main := Idle;
    }

    method HandlerRead()
      requires Inv(Abs()) && Enabled(Abs(), ReadByte)
      modifies this
      ensures Abs() == Do(old(Abs()), ReadByte) && Inv(Abs())
    {
      StepInv(Abs(), ReadByte);
      hide Inv;
      pipe := pipe - 1;
      main := GotByte;
    }

    method HandlerPop() returns (result: Task)
      requires Inv(Abs()) && Enabled(Abs(), PopResult)
      modifies this
      ensures Abs() == Do(old(Abs()), PopResult) && Inv(Abs())
      ensures [result] + resultQueue == old(resultQueue)
    {
      StepInv(Abs(), PopResult);
      PopFindsResult(Abs());
      hide Inv;
      result := resultQueue[0];
      resultQueue := resultQueue[1..];
      main := Popped(result);
    }

    method HandlerFinish()
      requires Inv(Abs()) && Enabled(Abs(), Deregister)
      modifies this
      ensures Abs() == Do(old(Abs()), Deregister) && Inv(Abs())
    {
      StepInv(Abs(), Deregister);
      hide Inv;
      numTasks := numTasks - 1;
      if numTasks == 0 {
        ioWaiter := false;
      }
      done := done + [main.task];
      main := Idle;
    }
  }
}
