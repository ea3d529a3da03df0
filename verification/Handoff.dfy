/** The pair of one-slot locks through which the main thread and one worker thread hand over tasks and
    results, every semaphore operation and every access to a slot a step of its own. */
module Handoff {
  import opened Options

  /** The order in which a worker gives its two locks back: the working threads that of the tasks first, the
      recovery threads that of the results first. */
  datatype Order = TaskFirst | ResultFirst

  /** A lock with one slot: the three semaphores. */
  datatype Lock = Lock(empty: nat, full: nat, mutex: nat)

  /** `mpc` and `wpc` are where the main thread and the worker stand.  `posted`, `done` and `read` record the
      tasks written to the slot, the tasks executed with their results, and the results read. */
  datatype State<T, U> = State(task: Lock, result: Lock, mpc: nat, wpc: nat, taskSlot: Option<T>, resultSlot: Option<U>,
                               posted: seq<T>, done: seq<(T, U)>, read: seq<U>)

  function Init<T, U>(): State<T, U> {
    State(Lock(1, 0, 1), Lock(1, 0, 1), 0, 0, None, None, [], [], [])
  }

  /** The wait the main thread is at, if any, would not block. */
  predicate MainCan<T, U>(s: State<T, U>) {
    match s.mpc
    case 0 => s.task.empty > 0
    case 1 => s.task.mutex > 0
    case 5 => s.result.full > 0
    case 6 => s.result.mutex > 0
    case 7 => s.resultSlot.Some?
    case _ => s.mpc <= 9
  }

  /** The main thread: take the lock of the tasks as producer, write `t`, give it back; take the lock of the
      results as consumer, read, give it back. */
  function Main<T, U>(s: State<T, U>, t: T): State<T, U>
    requires MainCan(s)
  {
    match s.mpc
    case 0 => s.(task := s.task.(empty := s.task.empty - 1), mpc := 1)
    case 1 => s.(task := s.task.(mutex := s.task.mutex - 1), mpc := 2)
    case 2 => s.(taskSlot := Some(t), posted := s.posted + [t], mpc := 3)
    case 3 => s.(task := s.task.(mutex := s.task.mutex + 1), mpc := 4)
    case 4 => s.(task := s.task.(full := s.task.full + 1), mpc := 5)
    case 5 => s.(result := s.result.(full := s.result.full - 1), mpc := 6)
    case 6 => s.(result := s.result.(mutex := s.result.mutex - 1), mpc := 7)
    case 7 => s.(read := s.read + [s.resultSlot.value], mpc := 8)
    case 8 => s.(result := s.result.(mutex := s.result.mutex + 1), mpc := 9)
    case _ => s.(result := s.result.(empty := s.result.empty + 1), mpc := 0)
  }

  predicate WorkerCan<T, U>(s: State<T, U>) {
    match s.wpc
    case 0 => s.task.full > 0
    case 1 => s.task.mutex > 0
    case 2 => s.result.empty > 0
    case 3 => s.result.mutex > 0
    case 4 => s.taskSlot.Some?
    case _ => s.wpc <= 8
  }

  function GiveTaskMutex<T, U>(s: State<T, U>): State<T, U> { s.(task := s.task.(mutex := s.task.mutex + 1)) }
  function GiveTaskEmpty<T, U>(s: State<T, U>): State<T, U> { s.(task := s.task.(empty := s.task.empty + 1)) }
  function GiveResultMutex<T, U>(s: State<T, U>): State<T, U> { s.(result := s.result.(mutex := s.result.mutex + 1)) }
  function GiveResultFull<T, U>(s: State<T, U>): State<T, U> { s.(result := s.result.(full := s.result.full + 1)) }

  /** The worker: take the lock of the tasks as consumer and that of the results as producer, execute what
      is in the slot with result `u`, and give both back. */
  function Worker<T, U>(s: State<T, U>, order: Order, u: U): State<T, U>
    requires WorkerCan(s)
  {
    match s.wpc
    case 0 => s.(task := s.task.(full := s.task.full - 1), wpc := 1)
    case 1 => s.(task := s.task.(mutex := s.task.mutex - 1), wpc := 2)
    case 2 => s.(result := s.result.(empty := s.result.empty - 1), wpc := 3)
    case 3 => s.(result := s.result.(mutex := s.result.mutex - 1), wpc := 4)
    case 4 => s.(resultSlot := Some(u), done := s.done + [(s.taskSlot.value, u)], wpc := 5)
    case 5 => (if order.TaskFirst? then GiveTaskMutex(s) else GiveResultMutex(s)).(wpc := 6)
    case 6 => (if order.TaskFirst? then GiveTaskEmpty(s) else GiveResultFull(s)).(wpc := 7)
    case 7 => (if order.TaskFirst? then GiveResultMutex(s) else GiveTaskMutex(s)).(wpc := 8)
    case _ => (if order.TaskFirst? then GiveResultFull(s) else GiveTaskEmpty(s)).(wpc := 0)
  }

  // ---- runs ----

  /** Who moves, and with what. */
  datatype Move<T, U> = ByMain(t: T) | ByWorker(u: U)

  predicate Can<T, U>(s: State<T, U>, m: Move<T, U>) {
    if m.ByMain? then MainCan(s) else WorkerCan(s)
  }

  function Step<T, U>(s: State<T, U>, order: Order, m: Move<T, U>): State<T, U>
    requires Can(s, m)
  {
    match m
    case ByMain(t) => Main(s, t)
    case ByWorker(u) => Worker(s, order, u)
  }

  predicate CanRun<T, U>(s: State<T, U>, order: Order, run: seq<Move<T, U>>)
    decreases |run|
  {
    run == [] || (Can(s, run[0]) && CanRun(Step(s, order, run[0]), order, run[1..]))
  }

  function Run<T, U>(s: State<T, U>, order: Order, run: seq<Move<T, U>>): State<T, U>
    requires CanRun(s, order, run)
    decreases |run|
  {
    if run == [] then s else Run(Step(s, order, run[0]), order, run[1..])
  }

  // ---- the invariant ----

  function One(b: bool): nat {
    if b then 1 else 0
  }

  /** The last points at which the worker still has the permit and the mutex of the tasks, and the permit and
      the mutex of the results. */
  function LastTask(order: Order): nat { if order.TaskFirst? then 6 else 8 }
  function LastTaskMutex(order: Order): nat { if order.TaskFirst? then 5 else 7 }
  function LastResult(order: Order): nat { if order.TaskFirst? then 8 else 6 }
  function LastResultMutex(order: Order): nat { if order.TaskFirst? then 7 else 5 }

  /** Each permit and each mutex is in exactly one place. */
  ghost predicate Permits<T, U>(s: State<T, U>, order: Order) {
    && s.mpc <= 9 && s.wpc <= 8
    && s.task.empty + s.task.full + One(1 <= s.mpc <= 4) + One(1 <= s.wpc <= LastTask(order)) == 1
    && s.task.mutex + One(2 <= s.mpc <= 3) + One(2 <= s.wpc <= LastTaskMutex(order)) == 1
    && s.result.empty + s.result.full + One(6 <= s.mpc <= 9) + One(3 <= s.wpc <= LastResult(order)) == 1
    && s.result.mutex + One(7 <= s.mpc <= 8) + One(4 <= s.wpc <= LastResultMutex(order)) == 1
  }

  /** Whether a task is written and not executed yet. */
  function Waiting<T, U>(s: State<T, U>): nat {
    s.task.full + One(3 <= s.mpc <= 4) + One(1 <= s.wpc <= 4)
  }

  /** Whether a result is there and not read yet. */
  function Ready<T, U>(s: State<T, U>, order: Order): nat {
    s.result.full + One(6 <= s.mpc <= 7) + One(5 <= s.wpc <= LastResult(order))
  }

  ghost predicate Counts<T, U>(s: State<T, U>, order: Order) {
    && |s.posted| == |s.done| + Waiting(s)
    && |s.done| == |s.read| + Ready(s, order)
    && |s.posted| == |s.read| + One(3 <= s.mpc <= 7)
  }

  /** Tasks are executed in the order written, each once; results are read in the order of the tasks. */
  ghost predicate Ordered<T, U>(s: State<T, U>) {
    && |s.read| <= |s.done| <= |s.posted|
    && (forall k {:trigger s.done[k]} :: 0 <= k < |s.done| ==> s.done[k].0 == s.posted[k])
    && (forall k {:trigger s.read[k]} :: 0 <= k < |s.read| ==> s.read[k] == s.done[k].1)
  }

  ghost predicate Slots<T, U>(s: State<T, U>, order: Order) {
    && (Waiting(s) == 1 ==> |s.posted| > 0 && s.taskSlot == Some(s.posted[|s.posted| - 1]))
    && (Ready(s, order) == 1 ==> |s.done| > 0 && s.resultSlot == Some(s.done[|s.done| - 1].1))
  }

  ghost predicate Inv<T, U>(s: State<T, U>, order: Order) {
    Permits(s, order) && Counts(s, order) && Ordered(s) && Slots(s, order)
  }

  lemma MainKeeps<T, U>(s: State<T, U>, order: Order, t: T)
    requires Inv(s, order) && MainCan(s)
    ensures Inv(Main(s, t), order)
  {
    MainKeepsPermits(s, order, t);
    MainKeepsCounts(s, order, t);
    MainKeepsOrder(s, order, t);
    MainKeepsSlots(s, order, t);
  }

  lemma MainKeepsCounts<T, U>(s: State<T, U>, order: Order, t: T)
    requires Permits(s, order) && Counts(s, order) && MainCan(s)
    ensures Counts(Main(s, t), order)
  {
  }

  lemma MainKeepsOrder<T, U>(s: State<T, U>, order: Order, t: T)
    requires Inv(s, order) && MainCan(s)
    ensures Ordered(Main(s, t))
  {
  }

  lemma MainKeepsSlots<T, U>(s: State<T, U>, order: Order, t: T)
    requires Permits(s, order) && Counts(s, order) && Slots(s, order) && MainCan(s)
    ensures Slots(Main(s, t), order)
  {
  }

  lemma MainKeepsPermits<T, U>(s: State<T, U>, order: Order, t: T)
    requires Permits(s, order) && MainCan(s)
    ensures Permits(Main(s, t), order)
  {
  }

  lemma WorkerKeeps<T, U>(s: State<T, U>, order: Order, u: U)
    requires Inv(s, order) && WorkerCan(s)
    ensures Inv(Worker(s, order, u), order)
  {
    WorkerKeepsPermits(s, order, u);
    WorkerKeepsCounts(s, order, u);
    WorkerKeepsOrder(s, order, u);
    WorkerKeepsSlots(s, order, u);
  }

  lemma WorkerKeepsCounts<T, U>(s: State<T, U>, order: Order, u: U)
    requires Permits(s, order) && Counts(s, order) && WorkerCan(s)
    ensures Counts(Worker(s, order, u), order)
  {
  }

  lemma WorkerKeepsOrder<T, U>(s: State<T, U>, order: Order, u: U)
    requires Inv(s, order) && WorkerCan(s)
    ensures Ordered(Worker(s, order, u))
  {
  }

  lemma WorkerKeepsSlots<T, U>(s: State<T, U>, order: Order, u: U)
    requires Permits(s, order) && Counts(s, order) && Slots(s, order) && WorkerCan(s)
    ensures Slots(Worker(s, order, u), order)
  {
  }

  lemma WorkerKeepsPermits<T, U>(s: State<T, U>, order: Order, u: U)
    requires Permits(s, order) && WorkerCan(s)
    ensures Permits(Worker(s, order, u), order)
  {
  }

  lemma {:induction false} RunKeeps<T, U>(s: State<T, U>, order: Order, run: seq<Move<T, U>>)
    requires Inv(s, order) && CanRun(s, order, run)
    ensures Inv(Run(s, order, run), order)
    decreases |run|
  {
    if run != [] {
      match run[0] {
        case ByMain(t) => MainKeeps(s, order, t);
        case ByWorker(u) => WorkerKeeps(s, order, u);
      }
      RunKeeps(Step(s, order, run[0]), order, run[1..]);
    }
  }

  // ---- what the pair of locks guarantees ----

  /** The main thread, about to read, finds the result of what it posted last. */
  ghost predicate ReadsLast<T, U>(s: State<T, U>) {
    && |s.done| == |s.posted| > 0
    && s.done[|s.done| - 1].0 == s.posted[|s.posted| - 1] && s.resultSlot == Some(s.done[|s.done| - 1].1)
  }

  /** The two threads are never at a slot together; tasks are executed in order, each once, and at most one
      is waiting; the k-th result read is that of the k-th posting; and a read is always of the result of what
      was posted last. */
  ghost predicate InStep<T, U>(s: State<T, U>) {
    && !(s.mpc == 2 && s.wpc == 4) && !(s.mpc == 7 && s.wpc == 4)
    && Ordered(s) && |s.posted| <= |s.read| + 1
    && (s.mpc == 7 ==> ReadsLast(s))
  }

  lemma InvMeans<T, U>(s: State<T, U>, order: Order)
    requires Inv(s, order)
    ensures InStep(s) && (MainCan(s) || WorkerCan(s))
  {
    if s.mpc == 7 {
      assert Ready(s, order) == 1 && Waiting(s) == 0;
    }
  }

  lemma InitInv<T, U>(order: Order)
    ensures Inv(Init<T, U>(), order)
  {
  }

  /** In every interleaving the threads are in step, and some thread can go on: no run ends in a deadlock. */
  lemma {:induction false} Lockstep<T, U>(order: Order, run: seq<Move<T, U>>)
    requires CanRun(Init<T, U>(), order, run)
    ensures var s := Run(Init<T, U>(), order, run); InStep(s) && (MainCan(s) || WorkerCan(s))
  {
    InitInv<T, U>(order);
    RunKeeps(Init<T, U>(), order, run);
    InvMeans(Run(Init<T, U>(), order, run), order);
  }
}
