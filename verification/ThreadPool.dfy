/** Slots and counters of the owned thread pool (common/run_threads.py), kept between coroutines
    that may be cancelled and the threads that complete their work. */
module ThreadPools {
  import opened Texts
  import opened Sums

  /** Free slots of the semaphore, and the two counters under the state lock. */
  datatype Pool = Pool(slots: int, active: int, lingering: int) {
    function Take(): Pool { this.(slots := slots - 1) }
    function GiveBack(): Pool { this.(slots := slots + 1) }
    function CountIn(): Pool { this.(active := active + 1) }

    function Abandon(done: bool): Pool {
      if done then this else this.(lingering := lingering + 1)
    }

    function CountOut(wasLingering: bool): Pool {
      Pool(slots, active - 1, if wasLingering then lingering - 1 else lingering)
    }
  }

  /** The shared state that `_run_owned` and its `release_slot` change. */
  class OwnedThreadPool {
    const maxWorkers: nat
    var slots: int
    var active: int
    var lingering: int

    ghost function State(): Pool
      reads this
    {
      Pool(slots, active, lingering)
    }

    constructor (maxWorkers: nat)
      requires maxWorkers >= 1
      ensures this.maxWorkers == maxWorkers && State() == Pool(maxWorkers, 0, 0)
    {
      this.maxWorkers, slots, active, lingering := maxWorkers, maxWorkers, 0, 0;
    }

    /** `acquire` where it does not have to wait. */
    method Acquire() returns (acquired: bool)
      modifies this`slots
      ensures acquired <==> old(slots) > 0
      ensures State() == if acquired then old(State()).Take() else old(State())
    {
      acquired := slots > 0;
      if acquired {
        slots := slots - 1;
      }
    }

    /** A submission that raises gives its slot straight back. */
    method Submitted(raised: bool)
      modifies this`slots, this`active
      ensures State() == if raised then old(State()).GiveBack() else old(State()).CountIn()
    {
      if raised {
        slots := slots + 1;
      } else {
        active := active + 1;
      }
    }

    /** The cancelled coroutine, holding the lock, with what it read from `future.done()`. */
    method Cancelled(done: bool) returns (nowLingering: bool)
      modifies this`lingering
      ensures nowLingering == !done && State() == old(State()).Abandon(done)
    {
      nowLingering := false;
      if !done {
        nowLingering := true;
        lingering := lingering + 1;
      }
    }

    method ReleaseSlot(wasLingering: bool)
      modifies this`active, this`lingering
      ensures State() == old(State()).CountOut(wasLingering)
    {
      active := active - 1;
      if wasLingering {
        lingering := lingering - 1;
      }
    }

    /** The loop runs the scheduled release. */
    method RunRelease()
      modifies this`slots
      ensures State() == old(State()).GiveBack()
    {
      slots := slots + 1;
    }
  }

  // ---- Interleavings -----------------------------------------------------------------

  /** How far one call of `_run_owned` has come. After `CalledBack` its callback has left the
      lock; the release is then scheduled, or lost when the loop is closed. */
  datatype Stage = Acquired | Failed | Pending | Counted | Registered | CalledBack | Scheduled | Lost | Freed

  /** `done` is the future's own state, set by its thread or by a shutdown that cancels queued
      work; `abandoned` is the coroutine's `lingering` variable. `freed` counts the releases. */
  datatype Task = Task(stage: Stage, done: bool, left: bool, abandoned: bool, freed: nat)

  /** A cancelled coroutine inside the lock, and what it read. */
  datatype Holder = Holder(task: nat, sawDone: bool)

  datatype System = System(max: nat, pool: Pool, tasks: seq<Task>, lock: Option<Holder>, closed: bool)

  datatype Step =
    | Acquire
    | Submit(i: nat, raises: bool)
    | Count(i: nat)
    | Register(i: nat)
    | Finish(i: nat)
    | Callback(i: nat)
    | Schedule(i: nat)
    | Release(i: nat)
    | Return(i: nat)
    | CancelCheck(i: nat)
    | CancelMark
    | CloseLoop

  /** Each step is what one side does between two points where the other can act. The lock keeps
      the counting, the callback and the cancellation apart, but not the thread's completion. */
  ghost predicate Enabled(s: System, step: Step) {
    match step
    case Acquire => s.pool.slots > 0 && !s.closed
    case Submit(i, _) => i < |s.tasks| && s.tasks[i].stage == Acquired
    case Count(i) => i < |s.tasks| && s.tasks[i].stage == Pending && s.lock.None?
    case Register(i) => i < |s.tasks| && s.tasks[i].stage == Counted
    case Finish(i) =>
      i < |s.tasks| && s.tasks[i].stage != Acquired && s.tasks[i].stage != Failed && !s.tasks[i].done
    case Callback(i) => i < |s.tasks| && s.tasks[i].stage == Registered && s.tasks[i].done && s.lock.None?
    case Schedule(i) => i < |s.tasks| && s.tasks[i].stage == CalledBack
    case Release(i) => i < |s.tasks| && s.tasks[i].stage == Scheduled && !s.closed
    case Return(i) => i < |s.tasks| && Awaiting(s.tasks[i]) && s.tasks[i].done
    case CancelCheck(i) => i < |s.tasks| && Awaiting(s.tasks[i]) && s.lock.None?
    case CancelMark => s.lock.Some? && s.lock.value.task < |s.tasks|
    case CloseLoop => true
  }

  ghost predicate CallbackRan(stage: Stage) {
    stage.CalledBack? || stage.Scheduled? || stage.Lost? || stage.Freed?
  }

  /** The coroutine is at its `await`. */
  ghost predicate Awaiting(t: Task) {
    !t.left && (t.stage.Registered? || CallbackRan(t.stage))
  }

  ghost function Moved(s: System, i: nat, t: Task, pool: Pool): System
    requires i < |s.tasks|
  {
    s.(tasks := s.tasks[i := t], pool := pool)
  }

  ghost function Next(s: System, step: Step): System
    requires Enabled(s, step)
  {
    match step
    case Acquire => s.(tasks := s.tasks + [Task(Acquired, false, false, false, 0)], pool := s.pool.Take())
    case Submit(i, raises) =>
      if raises then Moved(s, i, s.tasks[i].(stage := Failed, freed := s.tasks[i].freed + 1), s.pool.GiveBack())
      else Moved(s, i, s.tasks[i].(stage := Pending), s.pool)
    case Count(i) => Moved(s, i, s.tasks[i].(stage := Counted), s.pool.CountIn())
    case Register(i) => Moved(s, i, s.tasks[i].(stage := Registered), s.pool)
    case Finish(i) => Moved(s, i, s.tasks[i].(done := true), s.pool)
    case Callback(i) =>
      Moved(s, i, s.tasks[i].(stage := CalledBack), s.pool.CountOut(s.tasks[i].abandoned))
    case Schedule(i) => Moved(s, i, s.tasks[i].(stage := if s.closed then Lost else Scheduled), s.pool)
    case Release(i) =>
      Moved(s, i, s.tasks[i].(stage := Freed, freed := s.tasks[i].freed + 1), s.pool.GiveBack())
    case Return(i) => Moved(s, i, s.tasks[i].(left := true), s.pool)
    case CancelCheck(i) =>
      Moved(s, i, s.tasks[i].(left := true), s.pool).(lock := Some(Holder(i, s.tasks[i].done)))
    case CancelMark =>
      var Holder(i, sawDone) := s.lock.value;
      Moved(s, i, s.tasks[i].(abandoned := s.tasks[i].abandoned || !sawDone), s.pool.Abandon(sawDone)).(lock := None)
    case CloseLoop => s.(closed := true)
  }

  // ---- The books ---------------------------------------------------------------------

  ghost function HoldsSlot(t: Task): int {
    if t.stage == Failed || t.stage == Freed then 0 else 1
  }

  ghost function IsActive(t: Task): int {
    if t.stage == Counted || t.stage == Registered then 1 else 0
  }

  /** Cancelled before its work was done, and its callback has not run. */
  ghost function IsLingering(t: Task): int {
    if t.abandoned && !CallbackRan(t.stage) then 1 else 0
  }

  ghost predicate TaskOk(t: Task) {
    && t.freed == (if t.stage == Failed || t.stage == Freed then 1 else 0)
    && (CallbackRan(t.stage) ==> t.done)
    && (t.stage.Acquired? || t.stage.Failed? ==> !t.done)
    && (t.left ==> t.stage.Registered? || CallbackRan(t.stage))
    && (t.abandoned ==> t.left)
  }

  /** Whoever read `not done` under the lock still finds the callback waiting for it. */
  ghost predicate LockOk(tasks: seq<Task>, lock: Option<Holder>) {
    lock.Some? ==>
      && lock.value.task < |tasks|
      && tasks[lock.value.task].left
      && !tasks[lock.value.task].abandoned
      && (!lock.value.sawDone ==> tasks[lock.value.task].stage == Registered)
  }

  ghost predicate CountsOk(max: nat, pool: Pool, tasks: seq<Task>) {
    && pool.slots == max - SumOf(HoldsSlot, tasks)
    && pool.active == SumOf(IsActive, tasks)
    && pool.lingering == SumOf(IsLingering, tasks)
    && pool.slots >= 0
  }

  ghost predicate LossOk(t: Task, closed: bool) {
    t.stage == Lost ==> closed
  }

  ghost predicate Inv(s: System) {
    && (forall i :: 0 <= i < |s.tasks| ==> TaskOk(s.tasks[i]) && LossOk(s.tasks[i], s.closed))
    && LockOk(s.tasks, s.lock)
    && CountsOk(s.max, s.pool, s.tasks)
  }

  lemma CountsFollow(max: nat, pool: Pool, tasks: seq<Task>, i: nat, t: Task, pool': Pool)
    requires CountsOk(max, pool, tasks) && i < |tasks|
    requires pool'.slots - pool.slots == HoldsSlot(tasks[i]) - HoldsSlot(t)
    requires pool'.slots >= 0
    requires pool'.active - pool.active == IsActive(t) - IsActive(tasks[i])
    requires pool'.lingering - pool.lingering == IsLingering(t) - IsLingering(tasks[i])
    ensures CountsOk(max, pool', tasks[i := t])
  {
    SumUpdate(HoldsSlot, tasks, i, t);
    SumUpdate(IsActive, tasks, i, t);
    SumUpdate(IsLingering, tasks, i, t);
  }

  /** Which of the pool's tasks a step moves, if any. */
  ghost function Mover(s: System, step: Step): Option<nat>
    requires Enabled(s, step)
  {
    match step
    case Acquire => None
    case CloseLoop => None
    case CancelMark => Some(s.lock.value.task)
    case _ => Some(step.i)
  }

  lemma MoverAlone(s: System, step: Step)
    requires Enabled(s, step) && Mover(s, step).Some?
    ensures var i, next := Mover(s, step).value, Next(s, step);
            i < |s.tasks| == |next.tasks| && next.tasks == s.tasks[i := next.tasks[i]] && next.max == s.max
  {
  }

  lemma MoverOk(s: System, step: Step)
    requires Enabled(s, step) && Mover(s, step).Some? && LockOk(s.tasks, s.lock)
    requires TaskOk(s.tasks[Mover(s, step).value]) && LossOk(s.tasks[Mover(s, step).value], s.closed)
    ensures TaskOk(Next(s, step).tasks[Mover(s, step).value])
    ensures LossOk(Next(s, step).tasks[Mover(s, step).value], Next(s, step).closed)
    ensures s.closed ==> Next(s, step).closed
    ensures LockOk(Next(s, step).tasks, Next(s, step).lock)
  {
  }

  lemma MoverCounts(s: System, step: Step)
    requires Enabled(s, step) && Mover(s, step).Some? && LockOk(s.tasks, s.lock)
    requires TaskOk(s.tasks[Mover(s, step).value])
    ensures var i, next := Mover(s, step).value, Next(s, step);
            var was, now := s.tasks[i], next.tasks[i];
            && next.pool.slots - s.pool.slots == HoldsSlot(was) - HoldsSlot(now) >= 0
            && next.pool.active - s.pool.active == IsActive(now) - IsActive(was)
            && next.pool.lingering - s.pool.lingering == IsLingering(now) - IsLingering(was)
  {
  }

  lemma NextKeepsInv(s: System, step: Step)
    requires Inv(s) && Enabled(s, step)
    ensures Inv(Next(s, step))
  {
    if Mover(s, step).Some? {
      var i, next := Mover(s, step).value, Next(s, step);
      MoverAlone(s, step);
      MoverOk(s, step);
      MoverCounts(s, step);
      CountsFollow(s.max, s.pool, s.tasks, i, next.tasks[i], next.pool);
    } else if step.Acquire? {
      var t := Task(Acquired, false, false, false, 0);
      SumSnoc(HoldsSlot, s.tasks, t);
      SumSnoc(IsActive, s.tasks, t);
      SumSnoc(IsLingering, s.tasks, t);
    }
  }

  ghost predicate ValidRun(s: System, steps: seq<Step>)
    decreases |steps|
  {
    steps == [] || (Enabled(s, steps[0]) && ValidRun(Next(s, steps[0]), steps[1..]))
  }

  ghost function RunAll(s: System, steps: seq<Step>): System
    requires ValidRun(s, steps)
    decreases |steps|
  {
    if steps == [] then s else RunAll(Next(s, steps[0]), steps[1..])
  }

  ghost function Initial(max: nat): System {
    System(max, Pool(max, 0, 0), [], None, false)
  }

  lemma {:induction false} RunKeepsInv(s: System, steps: seq<Step>)
    requires Inv(s) && ValidRun(s, steps)
    ensures Inv(RunAll(s, steps)) && RunAll(s, steps).max == s.max
    decreases |steps|
  {
    if steps != [] {
      NextKeepsInv(s, steps[0]);
      RunKeepsInv(Next(s, steps[0]), steps[1..]);
    }
  }

  /** In every interleaving: `0 <= lingering <= active <= max_workers`, lingering is the number of
      abandoned tasks whose callback has not run, and every slot not free is held by one task. */
  lemma CountersAreExact(max: nat, steps: seq<Step>)
    requires ValidRun(Initial(max), steps)
    ensures var t := RunAll(Initial(max), steps);
            && 0 <= t.pool.lingering <= t.pool.active <= max
            && t.pool.lingering == SumOf(IsLingering, t.tasks)
            && t.pool.active == SumOf(IsActive, t.tasks)
            && t.pool.slots == max - SumOf(HoldsSlot, t.tasks) >= 0
  {
    RunKeepsInv(Initial(max), steps);
    var tasks := RunAll(Initial(max), steps).tasks;
    forall i | 0 <= i < |tasks|
      ensures IsLingering(tasks[i]) <= IsActive(tasks[i]) <= HoldsSlot(tasks[i])
    {
      assert TaskOk(tasks[i]);
    }
    SumBound(IsLingering, IsActive, tasks);
    SumBound(IsActive, HoldsSlot, tasks);
    LingeringIsCount(tasks);
  }

  lemma {:induction false} LingeringIsCount(tasks: seq<Task>)
    ensures SumOf(IsLingering, tasks) >= 0
  {
    if tasks != [] {
      LingeringIsCount(tasks[1..]);
    }
  }

  /** A slot is given back at most once, and only after the work is done or could not be
      submitted; the one way not to give it back is a closed loop. */
  lemma SlotsReturnOnce(max: nat, steps: seq<Step>, i: nat)
    requires ValidRun(Initial(max), steps) && i < |RunAll(Initial(max), steps).tasks|
    ensures var t := RunAll(Initial(max), steps).tasks[i];
            && t.freed <= 1
            && (t.freed == 1 <==> t.stage == Failed || t.stage == Freed)
            && (t.freed == 1 ==> t.done || t.stage == Failed)
  {
    RunKeepsInv(Initial(max), steps);
  }

  /** How many steps of its own a task is away from giving its slot back. */
  ghost function Distance(t: Task): nat {
    (match t.stage
     case Acquired => 6
     case Pending => 5
     case Counted => 4
     case Registered => 3
     case CalledBack => 2
     case Scheduled => 1
     case _ => 0) + if t.done then 0 else 1
  }

  /** While the loop is open and nobody is inside the lock, a task that holds its slot can take a
      step of its own towards giving it back, whether its coroutine was cancelled or not. */
  lemma SlotCanComeBack(max: nat, steps: seq<Step>, i: nat) returns (step: Step)
    requires ValidRun(Initial(max), steps)
    requires var t := RunAll(Initial(max), steps); !t.closed && t.lock.None? && i < |t.tasks| && t.tasks[i].freed == 0
    ensures var t := RunAll(Initial(max), steps);
            Enabled(t, step) && Distance(Next(t, step).tasks[i]) < Distance(t.tasks[i])
  {
    RunKeepsInv(Initial(max), steps);
    var t := RunAll(Initial(max), steps);
    var task := t.tasks[i];
    assert TaskOk(task) && LossOk(task, t.closed);
    step := match task.stage
      case Acquired => Submit(i, false)
      case Pending => Count(i)
      case Counted => Register(i)
      case Registered => if task.done then Callback(i) else Finish(i)
      case CalledBack => Schedule(i)
      case _ => Release(i);
  }

  ghost predicate Settled(s: System) {
    forall i :: 0 <= i < |s.tasks| ==> s.tasks[i].freed == 1
  }

  lemma {:induction false} NothingHeld(tasks: seq<Task>)
    requires forall i :: 0 <= i < |tasks| ==> TaskOk(tasks[i]) && tasks[i].freed == 1
    ensures SumOf(HoldsSlot, tasks) == 0 && SumOf(IsActive, tasks) == 0 && SumOf(IsLingering, tasks) == 0
  {
    if tasks != [] {
      assert TaskOk(tasks[0]) && tasks[0].freed == 1;
      NothingHeld(tasks[1..]);
    }
  }

  /** Once every task has come to its end, the pool is as it was at the start. */
  lemma EverythingComesBack(max: nat, steps: seq<Step>)
    requires ValidRun(Initial(max), steps) && Settled(RunAll(Initial(max), steps))
    ensures RunAll(Initial(max), steps).pool == Pool(max, 0, 0)
  {
    RunKeepsInv(Initial(max), steps);
    NothingHeld(RunAll(Initial(max), steps).tasks);
  }

  /** While a task is not done its slot stays taken, cancelled or not. */
  lemma CancellationKeepsTheSlot(max: nat, steps: seq<Step>, i: nat)
    requires ValidRun(Initial(max), steps) && i < |RunAll(Initial(max), steps).tasks|
    requires var t := RunAll(Initial(max), steps).tasks[i]; !t.done && t.stage != Failed
    ensures var t := RunAll(Initial(max), steps).tasks[i];
            t.freed == 0 && HoldsSlot(t) == 1 && (t.stage == Registered && t.abandoned ==> IsLingering(t) == 1)
  {
    RunKeepsInv(Initial(max), steps);
  }
}
