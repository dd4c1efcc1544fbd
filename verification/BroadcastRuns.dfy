/**
  What holds over every run of a broadcast future and its task set: `Pending` is returned only with
  the parent armed for the next wake of a task, and no wake of a pending future is lost.
*/
module BroadcastRuns {
  import opened Options
  import opened Broadcast
  import opened BroadcastMachine
  import TaskSet
  import TaskSetRuns

  // ----- The invariant -----

  /** The iterator in use. */
  function Current(pc: Pc): Option<nat> {
    match pc
    case Dropping(g, _, _) => Some(g)
    case Iterating(g) => Some(g)
    case Polling(g, _) => Some(g)
    case _ => None
  }

  ghost predicate TasksOk<R>(s: State<R>) {
    TaskSet.Inv(s.tasks) && |s.join.outputs| == |s.join.polls| == s.tasks.count <= |s.tasks.next|
  }

  predicate PcOk<R>(s: State<R>)
    requires TaskSet.Shaped(s.tasks)
  {
    && (Current(s.pc).Some? ==> Current(s.pc).value < |s.tasks.iters|)
    && (s.pc.Polling? ==> s.pc.t < s.tasks.count)
    && (s.pc.First? ==> s.pc.i <= s.tasks.count)
    && (s.pc.Dropping? && s.pc.removed.Some? ==>
          s.pc.removed.value < |s.tasks.next| && s.tasks.pos[s.pc.removed.value].Dropping?)
  }

  /** Only the iterator in use has tasks left. */
  predicate IteratorOk<R>(s: State<R>, g: nat)
    requires TaskSet.Shaped(s.tasks)
  {
    g < |s.tasks.iters| && Current(s.pc) != Some(g) ==> s.tasks.lists[g] == []
  }

  /** Only the parent drops a task. */
  predicate DropOk<R>(s: State<R>, t: nat)
    requires TaskSet.Shaped(s.tasks)
  {
    t < |s.tasks.next| && s.tasks.pos[t].Dropping? ==> s.pc.Dropping? && s.pc.removed == Some(t)
  }

  /** The parent can be woken when it finds no task, and is woken if a task is scheduled afterwards. */
  predicate WakerOk<R>(s: State<R>) {
    && (s.pc.Taking? ==> s.tasks.head.index != TaskSet.EMPTY || s.registered || s.woken)
    && (s.pc.Parked? ==> s.tasks.armed == 1 && (s.registered || s.woken))
    && (s.pc.Parked? && s.tasks.head.index != TaskSet.EMPTY ==> s.tasks.pending > 0 || s.woken)
  }

  /** The parent is about to poll future `t`, or will not poll any future again. */
  predicate WillPoll(pc: Pc, t: nat) {
    match pc
    case Unpolled => true
    case Loading => true
    case Discarding => true
    case Dropping(_, _, _) => true
    case First(i) => i <= t
    case Polling(_, u) => u == t
    case Finished(_) => true
    case _ => false
  }

  predicate NeedsPoll<R>(s: State<R>, t: nat) {
    t in s.owed && t < |s.join.outputs| && s.join.outputs[t].None?
  }

  /** A pending future whose task was woken since it was last polled is scheduled, or about to be polled. */
  predicate OwedOk<R>(s: State<R>, t: nat) {
    NeedsPoll(s, t) && t < |s.tasks.next| ==> s.tasks.next[t] != TaskSet.SLEEPING || WillPoll(s.pc, t)
  }

  ghost predicate Inv<R>(s: State<R>) {
    && TasksOk(s) && PcOk(s) && WakerOk(s)
    && (forall g :: 0 <= g < |s.tasks.iters| ==> IteratorOk(s, g))
    && (forall t :: 0 <= t < |s.tasks.next| ==> DropOk(s, t) && OwedOk(s, t))
  }

  // ----- Steps of the other threads -----

  lemma {:induction false} WakeKeepsWaker<R>(s: State<R>, w: TaskSet.Step)
    requires Enabled(s, Wake(w)) && TaskSet.HeadOk(s.tasks) && WakerOk(s)
    requires s.tasks.head.index == TaskSet.EMPTY ==> s.tasks.lists[|s.tasks.iters|] == []
    ensures WakerOk(ApplyWake(s, w))
  {
  }

  lemma {:induction false} WakeKeepsTask<R>(s: State<R>, w: TaskSet.Step, t: nat)
    requires Enabled(s, Wake(w)) && t < |s.tasks.next| && DropOk(s, t) && OwedOk(s, t)
    requires TaskSet.TaskOk(s.tasks, t) && (w.Begin? ==> TaskSet.HeadsOk(s.tasks, w.h))
    ensures TaskSet.Shaped(ApplyWake(s, w).tasks) && DropOk(ApplyWake(s, w), t) && OwedOk(ApplyWake(s, w), t)
  {
  }

  lemma {:induction false} WakeKeepsPlaces<R>(s: State<R>, w: TaskSet.Step, g: nat)
    requires Enabled(s, Wake(w)) && PcOk(s) && IteratorOk(s, g)
    requires w.Begin? ==> TaskSet.TaskOk(s.tasks, w.t)
    ensures TaskSet.Shaped(ApplyWake(s, w).tasks) && PcOk(ApplyWake(s, w)) && IteratorOk(ApplyWake(s, w), g)
  {
  }

  lemma {:induction false} WakeKeepsInv<R>(s: State<R>, w: TaskSet.Step)
    requires Inv(s) && Enabled(s, Wake(w))
    ensures Inv(ApplyWake(s, w))
  {
    var u := ApplyWake(s, w);
    TaskSet.WakeKeepsInv(s.tasks, w);
    TaskSetRuns.TopTells(s.tasks, |s.tasks.iters|);
    WakeKeepsWaker(s, w);
    WakeKeepsPlaces(s, w, |s.tasks.iters|);
    forall g | 0 <= g < |u.tasks.iters| ensures IteratorOk(u, g) {
      WakeKeepsPlaces(s, w, g);
    }
    forall t | 0 <= t < |u.tasks.next| ensures DropOk(u, t) && OwedOk(u, t) {
      WakeKeepsTask(s, w, t);
    }
  }

  // ----- Steps of the parent -----

  /** The steps that leave the task set as it is. */
  lemma {:induction false} KeepsInv<R>(s: State<R>, u: State<R>)
    requires Inv(s) && u.tasks == s.tasks && |u.join.outputs| == |u.join.polls| == s.tasks.count
    requires PcOk(u) && WakerOk(u)
    requires Current(s.pc) == Current(u.pc) || Current(s.pc).None? || Exhausted(s, Current(s.pc).value)
    requires s.pc.Dropping? ==> s.pc.removed.None?
    requires forall t :: NeedsPoll(u, t) ==> NeedsPoll(s, t) && (WillPoll(s.pc, t) ==> WillPoll(u.pc, t))
    ensures Inv(u)
  {
    forall g | 0 <= g < |u.tasks.iters| ensures IteratorOk(u, g) {
      assert IteratorOk(s, g);
      TaskSetRuns.TopTells(s.tasks, g);
    }
    forall t | 0 <= t < |u.tasks.next| ensures DropOk(u, t) && OwedOk(u, t) {
      assert DropOk(s, t) && OwedOk(s, t);
    }
  }

  predicate IsLocal(step: Step) {
    !step.Wake? && !step.Discard? && !step.DropNext? && !step.DropSleep? && !step.Take? && !step.Yield?
  }

  lemma {:induction false} PollKeepsInv<R>(s: State<R>, step: Step, replies: (nat, nat) -> ChildPoll<R>)
    requires Inv(s) && Enabled(s, step) && (step.PollFirst? || step.PollYielded?)
    ensures Inv(Apply(s, step, replies))
  {
    var u := Apply(s, step, replies);
    KeepsInv(s, u);
  }

  lemma {:induction false} LocalKeepsInv<R>(s: State<R>, step: Step, replies: (nat, nat) -> ChildPoll<R>)
    requires Inv(s) && Enabled(s, step) && IsLocal(step) && !step.PollFirst? && !step.PollYielded?
    ensures Inv(Apply(s, step, replies))
  {
    var u := Apply(s, step, replies);
    KeepsInv(s, u);
  }

  lemma {:induction false} TakeKeepsInv<R>(s: State<R>, n: nat, some: Pc, none: Pc)
    requires Inv(s) && TaskSet.Enabled(s.tasks, TaskSet.Take(n)) && Current(s.pc).None?
    requires (n == 0 && s.pc.Discarding? && some == Dropping(|s.tasks.iters|, None, false) && none == First(0))
          || (n == 1 && s.pc.Taking? && some == Iterating(|s.tasks.iters|) && none == Parked)
    ensures Inv(ApplyTake(s, n, some, none))
  {
    var u := ApplyTake(s, n, some, none);
    TaskSet.OwnerKeepsInv(s.tasks, TaskSet.Take(n));
    forall g | 0 <= g < |u.tasks.iters| ensures IteratorOk(u, g) {
      if g < |s.tasks.iters| {
        assert IteratorOk(s, g);
      }
    }
    forall t | 0 <= t < |u.tasks.next| ensures DropOk(u, t) && OwedOk(u, t) {
      assert DropOk(s, t) && OwedOk(s, t);
    }
  }

  /** An iterator that has a task left yields the task at the top of its list. */
  lemma {:induction false} TopIsListed(tasks: TaskSet.State, g: nat)
    requires TaskSet.Inv(tasks) && g < |tasks.iters| && tasks.iters[g] != TaskSet.EMPTY
    ensures tasks.iters[g] < |tasks.next| && tasks.pos[tasks.iters[g]].Listed?
  {
    TaskSetRuns.TopTells(tasks, g);
    assert TaskSet.ListOk(tasks, g, |tasks.lists[g]| - 1);
  }

  lemma {:induction false} DropNextKeepsInv<R>(s: State<R>, replies: (nat, nat) -> ChildPoll<R>)
    requires Inv(s) && Enabled(s, DropNext)
    ensures Inv(Apply(s, DropNext, replies))
  {
    var u := Apply(s, DropNext, replies);
    TaskSet.OwnerKeepsInv(s.tasks, TaskSet.DropNext(s.pc.g));
    forall g | 0 <= g < |u.tasks.iters| ensures IteratorOk(u, g) {
      assert IteratorOk(s, g);
    }
    forall t | 0 <= t < |u.tasks.next| ensures DropOk(u, t) && OwedOk(u, t) {
      assert DropOk(s, t) && OwedOk(s, t);
    }
  }

  lemma {:induction false} DropSleepKeepsInv<R>(s: State<R>, replies: (nat, nat) -> ChildPoll<R>)
    requires Inv(s) && Enabled(s, DropSleep)
    ensures Inv(Apply(s, DropSleep, replies))
  {
    var u := Apply(s, DropSleep, replies);
    TaskSet.OwnerKeepsInv(s.tasks, TaskSet.DropSleep(s.pc.removed.value));
    forall g | 0 <= g < |u.tasks.iters| ensures IteratorOk(u, g) {
      assert IteratorOk(s, g);
    }
    forall t | 0 <= t < |u.tasks.next| ensures DropOk(u, t) && OwedOk(u, t) {
      assert DropOk(s, t) && OwedOk(s, t);
    }
  }

  /** What a yield changes, but for what the iterator yielded so far. */
  ghost predicate IsYield<R>(s: State<R>, u: State<R>)
    requires Enabled(s, Yield)
  {
    var t := s.tasks.iters[s.pc.g];
    && u.tasks == TaskSet.ApplyOwner(s.tasks, TaskSet.Next(s.pc.g)) && u.join == s.join && u.owed == s.owed
    && u.pc == (if t < s.tasks.count && s.join.outputs[t].None? then Polling(s.pc.g, t) else s.pc)
  }

  lemma {:induction false} YieldKeepsPlaces<R>(s: State<R>, u: State<R>, g: nat)
    requires Enabled(s, Yield) && IsYield(s, u) && PcOk(s) && IteratorOk(s, g)
    ensures TaskSet.Shaped(u.tasks) && PcOk(u) && IteratorOk(u, g)
  {
  }

  lemma {:induction false} YieldKeepsTask<R>(s: State<R>, u: State<R>, t: nat)
    requires Enabled(s, Yield) && IsYield(s, u) && t < |s.tasks.next| && DropOk(s, t) && OwedOk(s, t)
    ensures TaskSet.Shaped(u.tasks) && DropOk(u, t) && OwedOk(u, t)
  {
  }

  lemma {:induction false} YieldKeepsInv<R>(s: State<R>)
    requires Inv(s) && Enabled(s, Yield)
    ensures Inv(ApplyYield(s))
  {
    var u := ApplyYield(s);
    assert IsYield(s, u) && WakerOk(u);
    TaskSet.OwnerKeepsInv(s.tasks, TaskSet.Next(s.pc.g));
    YieldKeepsPlaces(s, u, s.pc.g);
    forall g | 0 <= g < |u.tasks.iters| ensures IteratorOk(u, g) {
      YieldKeepsPlaces(s, u, g);
    }
    forall t | 0 <= t < |u.tasks.next| ensures DropOk(u, t) && OwedOk(u, t) {
      YieldKeepsTask(s, u, t);
    }
  }

  lemma {:induction false} StepKeepsInv<R>(s: State<R>, step: Step, replies: (nat, nat) -> ChildPoll<R>)
    requires Inv(s) && Enabled(s, step)
    ensures Inv(Apply(s, step, replies))
  {
    match step
    case Wake(w) => WakeKeepsInv(s, w);
    case Discard => TakeKeepsInv(s, 0, Dropping(|s.tasks.iters|, None, false), First(0));
    case Take => TakeKeepsInv(s, 1, Iterating(|s.tasks.iters|), Parked);
    case DropNext => DropNextKeepsInv(s, replies);
    case DropSleep => DropSleepKeepsInv(s, replies);
    case Yield => YieldKeepsInv(s);
    case PollFirst => PollKeepsInv(s, step, replies);
    case PollYielded => PollKeepsInv(s, step, replies);
    case _ => LocalKeepsInv(s, step, replies);
  }

  lemma {:induction false} RunKeepsInv<R>(s: State<R>, steps: seq<Step>, replies: (nat, nat) -> ChildPoll<R>)
    requires Inv(s) && IsRun(s, steps, replies)
    ensures Inv(After(s, steps, replies))
    decreases |steps|
  {
    if steps != [] {
      StepKeepsInv(s, steps[0], replies);
      RunKeepsInv(Apply(s, steps[0], replies), steps[1..], replies);
    }
  }

  /** A task set on which no iterator is in use: what a broadcast future starts with. */
  ghost predicate IsQuiet(tasks: TaskSet.State) {
    && TaskSet.Inv(tasks) && tasks.count <= |tasks.next|
    && (forall g :: 0 <= g < |tasks.iters| ==> tasks.lists[g] == [])
    && (forall t :: 0 <= t < |tasks.next| ==> !tasks.pos[t].Dropping?)
  }

  /** States of a future on any task set that earlier broadcasts may have left. */
  ghost predicate Reachable<R(!new)>(s: State<R>, replies: (nat, nat) -> ChildPoll<R>) {
    exists tasks: TaskSet.State, registered: bool, steps: seq<Step> :: IsHistory(tasks, registered, steps, s, replies)
  }

  ghost predicate IsHistory<R>(tasks: TaskSet.State, registered: bool, steps: seq<Step>, s: State<R>,
                               replies: (nat, nat) -> ChildPoll<R>)
  {
    && IsQuiet(tasks) && IsRun(New(tasks, registered), steps, replies)
    && s == After(New(tasks, registered), steps, replies)
  }

  lemma {:induction false} ReachableIsOk<R(!new)>(s: State<R>, replies: (nat, nat) -> ChildPoll<R>)
    requires Reachable(s, replies)
    ensures Inv(s)
  {
    var tasks: TaskSet.State, registered: bool, steps: seq<Step> :| IsHistory(tasks, registered, steps, s, replies);
    var start := New<R>(tasks, registered);
    forall t | 0 <= t < |tasks.next| ensures DropOk(start, t) && OwedOk(start, t) {
    }
    RunKeepsInv(start, steps, replies);
  }

  // ----- Theorems -----

  /** An iterator in use has a next task that exists, or is exhausted. */
  lemma {:induction false} IteratorMoves<R>(s: State<R>, g: nat)
    requires TaskSet.Inv(s.tasks) && g < |s.tasks.iters|
    ensures Exhausted(s, g) ||
      (TaskSet.Enabled(s.tasks, TaskSet.Next(g)) && TaskSet.Enabled(s.tasks, TaskSet.DropNext(g)))
  {
    if !Exhausted(s, g) {
      TopIsListed(s.tasks, g);
    }
  }

  /** The parent never gets stuck during a poll: its next step exists, and all its indices are in range. */
  lemma {:induction false} ParentIsNeverStuck<R(!new)>(s: State<R>, replies: (nat, nat) -> ChildPoll<R>)
    returns (step: Step)
    requires Reachable(s, replies) && !s.pc.Finished?
    ensures !step.Wake? && Enabled(s, step)
  {
    ReachableIsOk(s, replies);
    if Current(s.pc).Some? {
      IteratorMoves(s, Current(s.pc).value);
    }
    step := NextStep(s);
  }

  /** The step that the parent makes next. */
  function NextStep<R>(s: State<R>): Step {
    match s.pc
    case Unpolled => Call
    case Parked => Call
    case Loading => LoadHead
    case Discarding => Discard
    case Dropping(g, removed, _) => if removed.Some? then DropSleep else if Exhausted(s, g) then EndDrop else DropNext
    case First(i) => if i < s.tasks.count then PollFirst else EndFirst
    case Checking => Check
    case Registering => Register
    case Taking => Take
    case Iterating(g) => if Exhausted(s, g) then EndBatch else Yield
    case Polling(_, _) => PollYielded
    case Finished(_) => Call
  }

  /** The step by which a poll returns `Pending`. */
  predicate ReturnsPending<R>(s: State<R>, step: Step, replies: (nat, nat) -> ChildPoll<R>) {
    Enabled(s, step) && !s.pc.Parked? && Apply(s, step, replies).pc.Parked?
  }

  lemma {:induction false} OnlyTakeParks<R>(s: State<R>, step: Step, replies: (nat, nat) -> ChildPoll<R>)
    requires ReturnsPending(s, step, replies)
    ensures step.Take? && s.pc.Taking? && s.tasks.head.index == TaskSet.EMPTY
    ensures Apply(s, step, replies) == s.(tasks := TaskSet.ApplyOwner(s.tasks, TaskSet.Take(1)), pc := Parked)
  {
  }

  /**
    `Pending` is returned only with the countdown armed for one task, and with the waker registered
    unless the parent was woken meanwhile.
  */
  lemma {:induction false} PendingIsRegisteredAndArmed<R(!new)>(s: State<R>, step: Step,
                                                                replies: (nat, nat) -> ChildPoll<R>)
    requires Reachable(s, replies) && ReturnsPending(s, step, replies)
    ensures var u := Apply(s, step, replies);
      && u.tasks.head == TaskSet.Head(TaskSet.EMPTY, 1) && u.tasks.armed == 1
      && (u.registered || u.woken)
  {
    ReachableIsOk(s, replies);
    OnlyTakeParks(s, step, replies);
  }

  lemma {:induction false} ParkedTask<R>(s: State<R>, t: nat)
    requires Inv(s) && s.pc.Parked? && NeedsPoll(s, t)
    ensures t < |s.tasks.pos| == |s.tasks.next| && |s.tasks.lists| == |s.tasks.iters| + 1
    ensures s.tasks.pos[t].Inserting? || (s.tasks.pos[t].Listed? && s.tasks.pos[t].g == |s.tasks.iters|
                                          && t in s.tasks.lists[|s.tasks.iters|])
  {
    assert OwedOk(s, t) && DropOk(s, t) && TaskSet.TaskOk(s.tasks, t);
    forall g | 0 <= g < |s.tasks.iters| ensures |s.tasks.lists[g]| == 0 {
      assert IteratorOk(s, g);
    }
  }

  lemma {:induction false} PendingHasServed<R>(s: State<R>, step: Step, replies: (nat, nat) -> ChildPoll<R>, t: nat)
    requires Inv(s) && ReturnsPending(s, step, replies) && NeedsPoll(Apply(s, step, replies), t)
    ensures t < |Apply(s, step, replies).tasks.pos| && Apply(s, step, replies).tasks.pos[t].Inserting?
  {
    OnlyTakeParks(s, step, replies);
    StepKeepsInv(s, step, replies);
    TaskSetRuns.TopTells(s.tasks, |s.tasks.iters|);
    ParkedTask(Apply(s, step, replies), t);
  }

  /**
    At that instant, a pending future whose task was woken since it was last polled is one whose task
    a thread is still inserting.
  */
  lemma {:induction false} PendingHasServedAllWakes<R(!new)>(s: State<R>, step: Step,
                                                             replies: (nat, nat) -> ChildPoll<R>, t: nat)
    requires Reachable(s, replies) && ReturnsPending(s, step, replies) && NeedsPoll(Apply(s, step, replies), t)
    ensures t < |Apply(s, step, replies).tasks.pos| && Apply(s, step, replies).tasks.pos[t].Inserting?
  {
    ReachableIsOk(s, replies);
    PendingHasServed(s, step, replies, t);
  }

  /**
    No lost wake: while the parent waits, the task of a pending future that was woken since the future
    was last polled is being inserted by a thread, or it is scheduled and then a notification is about
    to be sent or the parent was woken.
  */
  lemma {:induction false} WokenTaskWakesParent<R(!new)>(s: State<R>, replies: (nat, nat) -> ChildPoll<R>, t: nat)
    requires Reachable(s, replies) && s.pc.Parked? && NeedsPoll(s, t)
    ensures TaskSet.Shaped(s.tasks) && t < |s.tasks.pos|
    ensures s.tasks.pos[t].Inserting? ||
            (&& t in s.tasks.lists[|s.tasks.iters|] && s.tasks.head.index != TaskSet.EMPTY
             && (s.woken || s.tasks.pending > 0))
  {
    ReachableIsOk(s, replies);
    ParkedTask(s, t);
    TaskSetRuns.TopTells(s.tasks, |s.tasks.iters|);
  }

  /** While the parent waits, any notification wakes it. */
  lemma {:induction false} NotificationWakes<R(!new)>(s: State<R>, replies: (nat, nat) -> ChildPoll<R>)
    requires Reachable(s, replies) && s.pc.Parked? && Enabled(s, Wake(TaskSet.Notify))
    ensures Apply(s, Wake(TaskSet.Notify), replies).woken
  {
    ReachableIsOk(s, replies);
  }

  /**
    Between two polls, and when the future is done or dropped, the task set is one that the next
    broadcast future can start with, after it was resized.
  */
  lemma {:induction false} LeavesTasksQuiet<R(!new)>(s: State<R>, replies: (nat, nat) -> ChildPoll<R>, len: nat)
    requires Reachable(s, replies) && (s.pc.Unpolled? || s.pc.Parked? || s.pc.Finished?) && len <= TaskSet.EMPTY
    ensures TaskSet.Enabled(s.tasks, TaskSet.Resize(len))
    ensures IsQuiet(s.tasks) && IsQuiet(TaskSet.Apply(s.tasks, TaskSet.Resize(len)))
  {
    ReachableIsOk(s, replies);
    forall g | 0 <= g < |s.tasks.iters| ensures s.tasks.lists[g] == [] {
      assert IteratorOk(s, g);
    }
    forall t | 0 <= t < |s.tasks.next| ensures !s.tasks.pos[t].Dropping? {
      assert DropOk(s, t);
    }
    TaskSet.OwnerKeepsInv(s.tasks, TaskSet.Resize(len));
  }
}
