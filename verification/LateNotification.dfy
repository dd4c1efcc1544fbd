/**
  When a broadcast future returns `Pending` without a registered waker: a notification requested by an
  earlier poll is sent after the parent registered its waker again. The parent is woken by it, so that
  nothing is lost. The exact condition comes first, then a run from a new future.
*/
module LateNotification {
  import opened Options
  import opened Broadcast
  import opened BroadcastMachine
  import opened BroadcastRuns
  import TaskSet

  // ----- The exact condition -----

  predicate OnlyWakes(steps: seq<Step>) {
    forall i :: 0 <= i < |steps| ==> steps[i].Wake?
  }

  /** The parent registers its waker, other threads take `steps`, and the parent returns `Pending` without the waker. */
  ghost predicate LosesWaker<R>(s: State<R>, steps: seq<Step>, replies: (nat, nat) -> ChildPoll<R>) {
    && Enabled(s, Register) && OnlyWakes(steps) && IsRun(Apply(s, Register, replies), steps, replies)
    && var u := After(Apply(s, Register, replies), steps, replies);
       ReturnsPending(u, Take, replies) && !Apply(u, Take, replies).registered
  }

  /** A task is scheduled, or the waker is registered and no notification is about to be sent. */
  predicate KeepsWaker<R>(s: State<R>) {
    s.tasks.head.index != TaskSet.EMPTY || (s.registered && s.tasks.pending == 0)
  }

  lemma {:induction false} WakesKeepWaker<R>(s: State<R>, steps: seq<Step>, replies: (nat, nat) -> ChildPoll<R>)
    requires KeepsWaker(s) && OnlyWakes(steps) && IsRun(s, steps, replies)
    ensures KeepsWaker(After(s, steps, replies))
    decreases |steps|
  {
    if steps != [] {
      assert KeepsWaker(ApplyWake(s, steps[0].step));
      WakesKeepWaker(Apply(s, steps[0], replies), steps[1..], replies);
    }
  }

  /** The pending notification is sent between the registration and the return. */
  lemma {:induction false} NotifyLoses<R>(s: State<R>, replies: (nat, nat) -> ChildPoll<R>)
    requires Inv(s) && s.pc.Registering? && s.tasks.pending > 0 && s.tasks.head.index == TaskSet.EMPTY
    ensures LosesWaker(s, [Wake(TaskSet.Notify)], replies)
  {
    var u := Apply(s, Register, replies);
    var steps := [Wake(TaskSet.Notify)];
    assert steps[1..] == [];
    assert IsRun(Apply(u, steps[0], replies), [], replies);
  }

  /**
    A parent that registers its waker can go on to return `Pending` without it, depending on the other
    threads alone, if and only if it registers while an earlier notification is still to be sent and
    no task is scheduled.
  */
  lemma {:induction false} LosesWakerExactly<R(!new)>(s: State<R>, replies: (nat, nat) -> ChildPoll<R>)
    requires Reachable(s, replies) && s.pc.Registering?
    ensures (exists steps :: LosesWaker(s, steps, replies)) <==>
      s.tasks.pending > 0 && s.tasks.head.index == TaskSet.EMPTY
  {
    if s.tasks.pending > 0 && s.tasks.head.index == TaskSet.EMPTY {
      ReachableIsOk(s, replies);
      NotifyLoses(s, replies);
    } else {
      forall steps ensures !LosesWaker(s, steps, replies) {
        if LosesWaker(s, steps, replies) {
          WakesKeepWaker(Apply(s, Register, replies), steps, replies);
          OnlyTakeParks(After(Apply(s, Register, replies), steps, replies), Take, replies);
        }
      }
    }
  }

  // ----- A run from a new future -----

  lemma {:induction false} RunAppend<R>(s: State<R>, steps: seq<Step>, step: Step, replies: (nat, nat) -> ChildPoll<R>)
    requires IsRun(s, steps, replies) && Enabled(After(s, steps, replies), step)
    ensures IsRun(s, steps + [step], replies)
    ensures After(s, steps + [step], replies) == Apply(After(s, steps, replies), step, replies)
    decreases |steps|
  {
    if steps == [] {
      assert [] + [step] == [step] && [step][1..] == [];
      assert IsRun(Apply(s, step, replies), [], replies);
    } else {
      RunAppend(Apply(s, steps[0], replies), steps[1..], step, replies);
      assert (steps + [step])[1..] == steps[1..] + [step];
    }
  }

  /** A future that is never ready. */
  function Never(t: nat, k: nat): ChildPoll<nat> {
    ChildPending
  }

  /** A broadcast to two senders: a single future is awaited without a task set. */
  function Start(): State<nat> {
    New(TaskSet.New(2), false)
  }

  ghost predicate IsPath(steps: seq<Step>, s: State<nat>) {
    IsRun(Start(), steps, Never) && s == After(Start(), steps, Never)
  }

  ghost predicate Reached(s: State<nat>) {
    exists steps :: IsPath(steps, s)
  }

  lemma {:induction false} ReachedStep(s: State<nat>, step: Step) returns (u: State<nat>)
    requires Reached(s) && Enabled(s, step)
    ensures u == Apply(s, step, Never) && Reached(u)
  {
    u := Apply(s, step, Never);
    var steps :| IsPath(steps, s);
    RunAppend(Start(), steps, step, Never);
    assert IsPath(steps + [step], u);
  }

  lemma {:induction false} ReachedIsReachable(s: State<nat>)
    requires Reached(s)
    ensures Reachable(s, Never)
  {
    var steps :| IsPath(steps, s);
    TaskSet.NewIsOk(2);
    assert IsHistory(TaskSet.New(2), false, steps, s, Never);
  }

  /** A state with two futures, neither of which replied. */
  predicate Is(s: State<nat>, pc: Pc, tasks: TaskSet.State, registered: bool, woken: bool) {
    && s.pc == pc && s.tasks == tasks && s.registered == registered && s.woken == woken
    && tasks.count == |s.join.outputs| == |s.join.polls| == 2
    && s.join.outputs[0].None? && s.join.outputs[1].None? && !s.join.failed
  }

  lemma {:induction false} BothMissing(outputs: seq<Option<nat>>)
    requires |outputs| == 2 && outputs[0].None? && outputs[1].None?
    ensures Missing(outputs) == 2
  {
    AllMissing(outputs);
  }

  // ----- Steps -----

  lemma {:induction false} FirstCall(s: State<nat>, tasks: TaskSet.State) returns (u: State<nat>)
    requires Reached(s) && Is(s, Unpolled, tasks, false, false) && tasks.head == TaskSet.Head(TaskSet.EMPTY, 0)
    ensures Reached(u) && Is(u, First(0), tasks, false, false)
  {
    u := ReachedStep(s, Call);
    u := ReachedStep(u, LoadHead);
  }

  lemma {:induction false} FirstPass(s: State<nat>, tasks: TaskSet.State) returns (u: State<nat>)
    requires Reached(s) && Is(s, First(0), tasks, false, false)
    ensures Reached(u) && Is(u, Checking, tasks, false, false)
  {
    u := ReachedStep(s, PollFirst);
    assert Is(u, First(1), tasks, false, false);
    u := ReachedStep(u, PollFirst);
    BothMissing(u.join.outputs);
    u := ReachedStep(u, EndFirst);
  }

  lemma {:induction false} RegisterWaker(s: State<nat>, tasks: TaskSet.State, registered: bool, woken: bool)
    returns (u: State<nat>)
    requires Reached(s) && Is(s, Checking, tasks, registered, woken) && tasks.head.index == TaskSet.EMPTY
    ensures Reached(u) && Is(u, Taking, tasks, true, woken)
  {
    u := ReachedStep(s, Check);
    u := ReachedStep(u, Register);
  }

  lemma {:induction false} WakeTask(s: State<nat>, tasks: TaskSet.State, w: TaskSet.Step) returns (u: State<nat>)
    requires Reached(s) && Is(s, Parked, tasks, true, false)
    requires TaskSet.Enabled(tasks, w) && TaskSet.IsWake(w) && !w.Notify?
    ensures Reached(u) && Is(u, Parked, TaskSet.ApplyWake(tasks, w), true, false)
  {
    u := ReachedStep(s, Wake(w));
  }

  lemma {:induction false} NextCall(s: State<nat>, tasks: TaskSet.State) returns (u: State<nat>)
    requires Reached(s) && Is(s, Parked, tasks, true, false) && tasks.head.index != TaskSet.EMPTY
    ensures Reached(u) && Is(u, Taking, tasks, true, false)
  {
    u := ReachedStep(s, Call);
    u := ReachedStep(u, Check);
  }

  lemma {:induction false} TakeTasks(s: State<nat>, tasks: TaskSet.State) returns (u: State<nat>)
    requires Reached(s) && Is(s, Taking, tasks, true, false) && TaskSet.Shaped(tasks)
    ensures Reached(u)
    ensures Is(u, if tasks.head.index == TaskSet.EMPTY then Parked else Iterating(|tasks.iters|),
               TaskSet.ApplyOwner(tasks, TaskSet.Take(1)), true, false)
  {
    u := ReachedStep(s, Take);
  }

  lemma {:induction false} PollTask(s: State<nat>, tasks: TaskSet.State) returns (u: State<nat>)
    requires Reached(s) && Is(s, Iterating(0), tasks, true, false) && TaskSet.Enabled(tasks, TaskSet.Next(0))
    requires tasks.iters[0] == 0
    ensures Reached(u) && Is(u, Iterating(0), TaskSet.ApplyOwner(tasks, TaskSet.Next(0)), true, false)
  {
    u := ReachedStep(s, Yield);
    assert u.pc == Polling(0, 0);
    u := ReachedStep(u, PollYielded);
  }

  lemma {:induction false} EndTasks(s: State<nat>, tasks: TaskSet.State) returns (u: State<nat>)
    requires Reached(s) && Is(s, Iterating(0), tasks, true, false)
    requires |tasks.iters| > 0 && tasks.iters[0] == TaskSet.EMPTY
    ensures Reached(u) && Is(u, Checking, tasks, true, false)
  {
    BothMissing(s.join.outputs);
    u := ReachedStep(s, EndBatch);
  }

  // ----- The run -----

  /** The parent waits for a task, and both sleep. */
  predicate IsWaitedFor(tasks: TaskSet.State) {
    && TaskSet.Shaped(tasks) && tasks.next == [TaskSet.SLEEPING, TaskSet.SLEEPING]
    && tasks.iters == [] && tasks.lists == [[]]
    && tasks.head == TaskSet.Head(TaskSet.EMPTY, 1) && tasks.head in tasks.heads && tasks.pending == 0
  }

  /** The first task was scheduled, and the notification is not sent yet. */
  predicate IsScheduled(tasks: TaskSet.State) {
    && TaskSet.Shaped(tasks) && tasks.next == [TaskSet.EMPTY, TaskSet.SLEEPING] && tasks.iters == []
    && tasks.head == TaskSet.Head(0, 0) && tasks.pending == 1
  }

  /** The first task was yielded. */
  predicate IsYielded(tasks: TaskSet.State) {
    && TaskSet.Shaped(tasks) && |tasks.iters| == 1 && tasks.iters[0] == TaskSet.EMPTY
    && tasks.head.index == TaskSet.EMPTY && tasks.pending == 1
  }

  lemma {:induction false} StartIs(tasks: TaskSet.State)
    requires tasks == TaskSet.New(2)
    ensures Reached(Start()) && Is(Start(), Unpolled, tasks, false, false)
    ensures TaskSet.Shaped(tasks) && tasks.head == TaskSet.Head(TaskSet.EMPTY, 0)
  {
    assert IsPath([], Start());
  }

  lemma {:induction false} TakeWaits(tasks: TaskSet.State)
    requires tasks == TaskSet.New(2)
    ensures TaskSet.Shaped(tasks) && IsWaitedFor(TaskSet.ApplyOwner(tasks, TaskSet.Take(1)))
  {
  }

  lemma {:induction false} StartToWait(tasks: TaskSet.State) returns (s: State<nat>)
    requires tasks == TaskSet.New(2)
    ensures Reached(s) && Is(s, Parked, s.tasks, true, false) && IsWaitedFor(s.tasks)
  {
    StartIs(tasks);
    TakeWaits(tasks);
    s := Start();
    s := FirstCall(s, tasks);
    s := FirstPass(s, tasks);
    s := RegisterWaker(s, tasks, false, false);
    s := TakeTasks(s, tasks);
  }

  lemma {:induction false} ScheduleTask(s: State<nat>) returns (u: State<nat>)
    requires Reached(s) && Is(s, Parked, s.tasks, true, false) && IsWaitedFor(s.tasks)
    ensures Reached(u) && Is(u, Parked, u.tasks, true, false) && IsScheduled(u.tasks)
  {
    var linked := TaskSet.ApplyWake(s.tasks, TaskSet.Begin(0, s.tasks.head));
    u := WakeTask(s, s.tasks, TaskSet.Begin(0, s.tasks.head));
    u := WakeTask(u, linked, TaskSet.Push(0));
  }

  lemma {:induction false} ServeTask(s: State<nat>) returns (u: State<nat>)
    requires Reached(s) && Is(s, Parked, s.tasks, true, false) && IsScheduled(s.tasks)
    ensures Reached(u) && Is(u, Checking, u.tasks, true, false) && IsYielded(u.tasks)
  {
    var taken := TaskSet.ApplyOwner(s.tasks, TaskSet.Take(1));
    u := NextCall(s, s.tasks);
    u := TakeTasks(u, s.tasks);
    u := PollTask(u, taken);
    u := EndTasks(u, u.tasks);
  }

  lemma {:induction false} NotifyLate(s: State<nat>) returns (u: State<nat>)
    requires Reached(s) && Is(s, Taking, s.tasks, true, false) && IsYielded(s.tasks)
    ensures Reached(u) && Is(u, Taking, u.tasks, false, true)
    ensures TaskSet.Shaped(u.tasks) && u.tasks.head.index == TaskSet.EMPTY
  {
    u := ReachedStep(s, Wake(TaskSet.Notify));
  }

  lemma {:induction false} TakeParks(s: State<nat>)
    requires Is(s, Taking, s.tasks, false, true) && TaskSet.Shaped(s.tasks) && s.tasks.head.index == TaskSet.EMPTY
    ensures ReturnsPending(s, Take, Never) && !Apply(s, Take, Never).registered && Apply(s, Take, Never).woken
  {
  }

  /** The notification comes after the registration: the parent waits with no waker registered, but it was woken. */
  lemma {:induction false} PendingWithoutWaker() returns (s: State<nat>, step: Step)
    ensures Reachable(s, Never) && ReturnsPending(s, step, Never)
    ensures s.tasks.count == 2 && !Apply(s, step, Never).registered && Apply(s, step, Never).woken
  {
    s := StartToWait(TaskSet.New(2));
    s := ScheduleTask(s);
    s := ServeTask(s);
    s := RegisterWaker(s, s.tasks, true, false);
    s := NotifyLate(s);
    TakeParks(s);
    ReachedIsReachable(s);
    step := Take;
  }
}
