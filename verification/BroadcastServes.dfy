/**
  That the polls of a broadcast future do what the wakes call for: each batch holds exactly the active tasks
  that were scheduled, each woken future is polled before the parent waits again, and a poll of the parent
  that goes on alone returns.
*/
module BroadcastServes {
  import opened Options
  import opened Broadcast
  import opened BroadcastMachine
  import opened BroadcastRuns
  import TaskSet
  import TaskSetRuns

  // ----- Batches -----

  /** The tasks below `n`, in order. */
  function Active(ts: seq<nat>, n: nat): seq<nat> {
    if |ts| == 0 then [] else (if ts[0] < n then [ts[0]] else []) + Active(ts[1..], n)
  }

  /** The task that the parent is about to poll. */
  function Pending(pc: Pc): seq<nat> {
    if pc.Polling? then [pc.t] else []
  }

  predicate IsInBatch(pc: Pc) {
    pc.Iterating? || pc.Polling?
  }

  /** The active tasks of a list, from the last scheduled one. */
  function Rest(list: seq<nat>, n: nat): seq<nat> {
    Active(TaskSetRuns.Reversed(list), n)
  }

  /** What an iterator yielded, and what it has still to yield, are the active tasks it was given. */
  predicate BatchIs(current: seq<nat>, pc: Pc, list: seq<nat>, taken: seq<nat>, n: nat) {
    current + Pending(pc) + Rest(list, n) == Rest(taken, n)
  }

  predicate BatchOk<R>(s: State<R>)
    requires TaskSet.Shaped(s.tasks)
  {
    IsInBatch(s.pc) && s.pc.g < |s.tasks.iters| ==>
      BatchIs(s.current, s.pc, s.tasks.lists[s.pc.g], s.tasks.taken[s.pc.g], s.tasks.count)
  }

  /** Outside a batch nothing was yielded, unless the batch failed. */
  predicate FreshOk<R>(s: State<R>) {
    !IsInBatch(s.pc) && !(s.pc.Dropping? && s.pc.failing) && !s.pc.Finished? ==> s.current == []
  }

  lemma {:induction false} RestOf(list: seq<nat>, n: nat)
    requires |list| > 0
    ensures var t := list[|list| - 1]; Rest(list, n) == (if t < n then [t] else []) + Rest(TaskSet.Init(list), n)
  {
    var r := TaskSetRuns.Reversed(list);
    assert r[0] == list[|list| - 1] && r[1..] == TaskSetRuns.Reversed(TaskSet.Init(list));
  }

  /** One more task was yielded: it is inactive, or has replied, or is to be polled. */
  lemma {:induction false} NextIs(current: seq<nat>, pc: Pc, list: seq<nat>, taken: seq<nat>, n: nat, g: nat, t: nat)
    requires BatchIs(current, pc, list, taken, n) && pc.Iterating? && |list| > 0 && t == list[|list| - 1]
    ensures t >= n ==> BatchIs(current, pc, TaskSet.Init(list), taken, n)
    ensures t < n ==> BatchIs(current + [t], pc, TaskSet.Init(list), taken, n)
    ensures t < n ==> BatchIs(current, Polling(g, t), TaskSet.Init(list), taken, n)
  {
    var rest := Rest(TaskSet.Init(list), n);
    RestOf(list, n);
    assert current + [] + ([t] + rest) == current + [t] + rest == current + [t] + [] + rest;
    assert current + [] + ([] + rest) == current + [] + rest;
  }

  /** What a yield does to the iterator and to what was yielded. */
  lemma {:induction false} YieldFields<R>(s: State<R>, g: nat)
    requires Inv(s) && Enabled(s, Yield) && g == s.pc.g
    ensures var t, u := s.tasks.iters[g], ApplyYield(s);
      && TaskSet.Shaped(u.tasks) && |s.tasks.lists[g]| > 0 && t == s.tasks.lists[g][|s.tasks.lists[g]| - 1]
      && u.tasks.lists[g] == TaskSet.Init(s.tasks.lists[g]) && u.tasks.taken == s.tasks.taken
      && u.tasks.count == s.tasks.count && |u.tasks.iters| == |s.tasks.iters|
      && (if t < s.tasks.count && s.join.outputs[t].None? then u.pc == Polling(g, t) && u.current == s.current
          else u.pc == s.pc && u.current == if t < s.tasks.count then s.current + [t] else s.current)
  {
    assert TaskSet.IterOk(s.tasks, g);
  }

  lemma {:induction false} YieldKeepsBatch<R>(s: State<R>)
    requires Inv(s) && Enabled(s, Yield) && BatchOk(s)
    ensures TaskSet.Shaped(ApplyYield(s).tasks) && BatchOk(ApplyYield(s))
  {
    var g := s.pc.g;
    YieldFields(s, g);
    NextIs(s.current, s.pc, s.tasks.lists[g], s.tasks.taken[g], s.tasks.count, g, s.tasks.iters[g]);
  }

  lemma {:induction false} WakeKeepsBatch<R>(s: State<R>, w: TaskSet.Step)
    requires Inv(s) && Enabled(s, Wake(w)) && BatchOk(s)
    ensures TaskSet.Shaped(ApplyWake(s, w).tasks) && BatchOk(ApplyWake(s, w))
  {
    if IsInBatch(s.pc) {
      TaskSetRuns.OthersKeepList(s.tasks, w, s.pc.g);
    }
  }

  lemma {:induction false} TakeKeepsBatch<R>(s: State<R>, replies: (nat, nat) -> ChildPoll<R>)
    requires Inv(s) && Enabled(s, Take) && s.current == []
    ensures TaskSet.Shaped(Apply(s, Take, replies).tasks) && BatchOk(Apply(s, Take, replies))
  {
    var u := Apply(s, Take, replies);
    if u.pc.Iterating? {
      assert u.tasks.lists[u.pc.g] == s.tasks.lists[TaskSet.Last(s.tasks)] == u.tasks.taken[u.pc.g];
      var all := Rest(u.tasks.lists[u.pc.g], u.tasks.count);
      assert [] + [] + all == all;
    }
  }

  lemma {:induction false} PollKeepsBatch<R>(s: State<R>, replies: (nat, nat) -> ChildPoll<R>)
    requires Inv(s) && Enabled(s, PollYielded) && BatchOk(s)
    ensures TaskSet.Shaped(Apply(s, PollYielded, replies).tasks) && BatchOk(Apply(s, PollYielded, replies))
  {
    assert s.current + [s.pc.t] + [] == s.current + [s.pc.t];
  }

  lemma {:induction false} StepKeepsFresh<R>(s: State<R>, step: Step, replies: (nat, nat) -> ChildPoll<R>)
    requires Enabled(s, step) && FreshOk(s)
    ensures FreshOk(Apply(s, step, replies))
  {
  }

  lemma {:induction false} StepKeepsBatch<R>(s: State<R>, step: Step, replies: (nat, nat) -> ChildPoll<R>)
    requires Inv(s) && Enabled(s, step) && BatchOk(s) && FreshOk(s)
    ensures TaskSet.Shaped(Apply(s, step, replies).tasks) && BatchOk(Apply(s, step, replies))
  {
    if step.Wake? {
      WakeKeepsBatch(s, step.step);
    } else if step.Yield? {
      YieldKeepsBatch(s);
    } else if step.Take? {
      TakeKeepsBatch(s, replies);
    } else if step.PollYielded? {
      PollKeepsBatch(s, replies);
    } else {
      StepKeepsInv(s, step, replies);
      assert !IsInBatch(Apply(s, step, replies).pc);
    }
  }

  // ----- Polls -----

  /** Once a future has failed, the parent polls no other. */
  predicate FailedOk<R>(s: State<R>) {
    s.join.failed ==> s.pc.Finished? || (s.pc.Dropping? && s.pc.failing)
  }

  /** The futures that were polled at least once, at the latest by the first pass. */
  function PolledTo(pc: Pc, n: nat): nat {
    match pc
    case First(i) => i
    case Unpolled => 0
    case Loading => 0
    case Discarding => 0
    case Dropping(_, _, failing) => 0
    case Finished(ok) => if ok then n else 0
    case _ => n
  }

  predicate PolledOk<R>(s: State<R>, t: nat) {
    t < |s.join.outputs| == |s.join.polls| ==>
      (s.join.outputs[t].Some? || t < PolledTo(s.pc, s.tasks.count) ==> s.join.polls[t] > 0)
  }

  /** A poll of future `t`, which has not replied: it is polled once more, and its output is the reply to that poll. */
  lemma {:induction false} PollReceives<R>(s: State<R>, step: Step, t: nat, replies: (nat, nat) -> ChildPoll<R>)
    requires Enabled(s, step) && !s.join.failed
    requires (step.PollFirst? && t == s.pc.i) || (step.PollYielded? && t == s.pc.t)
    requires s.join.outputs[t].None?
    ensures var u, k := Apply(s, step, replies), s.join.polls[t];
      && u.join.polls == s.join.polls[t := k + 1]
      && (forall r :: replies(t, k) == ChildOk(r) ==> u.join.outputs == s.join.outputs[t := Some(r)])
      && (!replies(t, k).ChildOk? ==> u.join.outputs == s.join.outputs)
      && (u.join.failed <==> replies(t, k).ChildErr?)
  {
  }

  predicate IsPoll(step: Step) {
    step.PollFirst? || step.PollYielded?
  }

  /** The future that a step polls. */
  function Target<R>(s: State<R>, step: Step): nat
    requires Enabled(s, step) && IsPoll(step)
  {
    if step.PollFirst? then s.pc.i else s.pc.t
  }

  lemma {:induction false} WakeKeepsJoin<R>(s: State<R>, w: TaskSet.Step)
    requires Enabled(s, Wake(w))
    ensures var u := ApplyWake(s, w);
      u.join == s.join && u.pc == s.pc && u.tasks.count == s.tasks.count && s.owed <= u.owed
  {
  }

  /** Nothing but its polls changes what is known of a future. */
  lemma {:induction false} OthersKeepJoin<R>(s: State<R>, step: Step, replies: (nat, nat) -> ChildPoll<R>)
    requires Enabled(s, step) && !IsPoll(step) && !step.Wake?
    ensures var u := Apply(s, step, replies); u.join == s.join && u.tasks.count == s.tasks.count && u.owed == s.owed
  {
  }

  lemma {:induction false} PollKeepsOthers<R>(s: State<R>, step: Step, t: nat, replies: (nat, nat) -> ChildPoll<R>)
    requires Enabled(s, step) && IsPoll(step) && t < s.tasks.count && t != Target(s, step)
    ensures var u := Apply(s, step, replies);
      && |u.join.outputs| == |u.join.polls| == s.tasks.count == u.tasks.count
      && u.join.polls[t] == s.join.polls[t] && u.join.outputs[t] == s.join.outputs[t] && (t in s.owed ==> t in u.owed)
  {
  }

  lemma {:induction false} PollIsCounted<R>(s: State<R>, step: Step, t: nat, replies: (nat, nat) -> ChildPoll<R>)
    requires Enabled(s, step) && IsPoll(step) && t == Target(s, step)
    ensures var u := Apply(s, step, replies);
      && t < |u.join.outputs| == |u.join.polls| == s.tasks.count == u.tasks.count
      && (if s.join.failed || s.join.outputs[t].Some? then u.join == s.join
          else u.join.polls[t] == s.join.polls[t] + 1)
  {
  }

  /** The counts of polls never go down, and a future that is not polled keeps its place. */
  lemma {:induction false} OnlyPollsCount<R>(s: State<R>, step: Step, t: nat, replies: (nat, nat) -> ChildPoll<R>)
    requires Enabled(s, step) && FailedOk(s) && t < s.tasks.count
    ensures var u := Apply(s, step, replies);
      && |u.join.outputs| == |u.join.polls| == s.tasks.count == u.tasks.count
      && u.join.polls[t] >= s.join.polls[t]
      && (u.join.polls[t] == s.join.polls[t] ==>
            u.join.outputs[t] == s.join.outputs[t] && (NeedsPoll(s, t) ==> NeedsPoll(u, t)))
  {
    if step.Wake? {
      WakeKeepsJoin(s, step.step);
    } else if !IsPoll(step) {
      OthersKeepJoin(s, step, replies);
    } else if t == Target(s, step) {
      PollIsCounted(s, step, t, replies);
    } else {
      PollKeepsOthers(s, step, t, replies);
    }
  }

  lemma {:induction false} PollKeepsPolled<R>(s: State<R>, step: Step, t: nat, replies: (nat, nat) -> ChildPoll<R>)
    requires Enabled(s, step) && IsPoll(step) && FailedOk(s) && PolledOk(s, t)
    ensures PolledOk(Apply(s, step, replies), t)
  {
    if t < s.tasks.count {
      OnlyPollsCount(s, step, t, replies);
      if t == Target(s, step) {
        PollIsCounted(s, step, t, replies);
      }
    }
  }

  lemma {:induction false} StepKeepsPolled<R>(s: State<R>, step: Step, t: nat, replies: (nat, nat) -> ChildPoll<R>)
    requires Enabled(s, step) && FailedOk(s) && PolledOk(s, t)
    ensures PolledOk(Apply(s, step, replies), t)
  {
    if step.Wake? {
      WakeKeepsJoin(s, step.step);
    } else if IsPoll(step) {
      PollKeepsPolled(s, step, t, replies);
    } else {
      OthersKeepJoin(s, step, replies);
    }
  }

  lemma {:induction false} StepKeepsFailed<R>(s: State<R>, step: Step, replies: (nat, nat) -> ChildPoll<R>)
    requires Enabled(s, step) && FailedOk(s)
    ensures FailedOk(Apply(s, step, replies))
  {
    if step.Wake? {
      WakeKeepsJoin(s, step.step);
    } else if !IsPoll(step) {
      OthersKeepJoin(s, step, replies);
    }
  }

  ghost predicate Served<R>(s: State<R>) {
    && Inv(s) && BatchOk(s) && FreshOk(s) && FailedOk(s)
    && forall t :: 0 <= t < |s.join.outputs| ==> PolledOk(s, t)
  }

  lemma {:induction false} StepKeepsServed<R>(s: State<R>, step: Step, replies: (nat, nat) -> ChildPoll<R>)
    requires Served(s) && Enabled(s, step)
    ensures Served(Apply(s, step, replies))
  {
    StepKeepsInv(s, step, replies);
    StepKeepsBatch(s, step, replies);
    StepKeepsFresh(s, step, replies);
    StepKeepsFailed(s, step, replies);
    forall t | 0 <= t < |Apply(s, step, replies).join.outputs| ensures PolledOk(Apply(s, step, replies), t) {
      StepKeepsPolled(s, step, t, replies);
    }
  }

  lemma {:induction false} RunKeepsServed<R>(s: State<R>, steps: seq<Step>, replies: (nat, nat) -> ChildPoll<R>)
    requires Served(s) && IsRun(s, steps, replies)
    ensures Served(After(s, steps, replies))
    decreases |steps|
  {
    if steps != [] {
      StepKeepsServed(s, steps[0], replies);
      RunKeepsServed(Apply(s, steps[0], replies), steps[1..], replies);
    }
  }

  lemma {:induction false} ReachableIsServed<R(!new)>(s: State<R>, replies: (nat, nat) -> ChildPoll<R>)
    requires Reachable(s, replies)
    ensures Served(s)
  {
    var tasks: TaskSet.State, registered: bool, steps: seq<Step> :| IsHistory(tasks, registered, steps, s, replies);
    var start := New<R>(tasks, registered);
    assert IsRun(start, [], replies) && After(start, [], replies) == start;
    assert IsHistory(tasks, registered, [], start, replies);
    ReachableIsOk(start, replies);
    RunKeepsServed(start, steps, replies);
  }

  // ----- Theorems -----

  /** A batch that ends was polled as the active tasks that were scheduled when it was taken, each once. */
  lemma {:induction false} BatchIsExact<R(!new)>(s: State<R>, replies: (nat, nat) -> ChildPoll<R>)
    requires Reachable(s, replies) && Enabled(s, EndBatch)
    ensures s.pc.g < |s.tasks.taken|
    ensures s.current == Active(TaskSetRuns.Reversed(s.tasks.taken[s.pc.g]), s.tasks.count)
    ensures Apply(s, EndBatch, replies).batches == s.batches + [s.current]
  {
    ReachableIsServed(s, replies);
    TaskSetRuns.TopTells(s.tasks, s.pc.g);
    assert s.current + [] + [] == s.current;
  }

  /** While the parent waits, every future that has not replied was polled. */
  lemma {:induction false} ParkedPolledAll<R(!new)>(s: State<R>, replies: (nat, nat) -> ChildPoll<R>, t: nat)
    requires Reachable(s, replies) && s.pc.Parked? && t < s.tasks.count
    ensures |s.join.polls| == s.tasks.count && s.join.polls[t] > 0
  {
    ReachableIsServed(s, replies);
    assert PolledOk(s, t);
  }

  lemma {:induction false} PollsGrow<R>(s: State<R>, steps: seq<Step>, t: nat, replies: (nat, nat) -> ChildPoll<R>)
    requires FailedOk(s) && IsRun(s, steps, replies) && t < |s.join.polls| == s.tasks.count
    ensures var u := After(s, steps, replies); |u.join.polls| == |s.join.polls| && u.join.polls[t] >= s.join.polls[t]
    decreases |steps|
  {
    if steps != [] {
      OnlyPollsCount(s, steps[0], t, replies);
      StepKeepsFailed(s, steps[0], replies);
      PollsGrow(Apply(s, steps[0], replies), steps[1..], t, replies);
    }
  }

  lemma {:induction false} OwedUntilPolled<R>(s: State<R>, steps: seq<Step>, t: nat,
                                              replies: (nat, nat) -> ChildPoll<R>)
    requires FailedOk(s) && IsRun(s, steps, replies) && t < |s.join.polls| == s.tasks.count && NeedsPoll(s, t)
    ensures var u := After(s, steps, replies);
      && t < |u.join.polls| == |s.join.polls| && u.join.polls[t] >= s.join.polls[t]
      && (u.join.polls[t] == s.join.polls[t] ==> NeedsPoll(u, t))
    decreases |steps|
  {
    if steps != [] {
      var u := Apply(s, steps[0], replies);
      OnlyPollsCount(s, steps[0], t, replies);
      StepKeepsFailed(s, steps[0], replies);
      if u.join.polls[t] == s.join.polls[t] {
        OwedUntilPolled(u, steps[1..], t, replies);
      } else {
        PollsGrow(u, steps[1..], t, replies);
      }
    }
  }

  lemma {:induction false} Cons<R>(s: State<R>, step: Step, rest: seq<Step>, replies: (nat, nat) -> ChildPoll<R>)
    requires Enabled(s, step) && IsRun(Apply(s, step, replies), rest, replies)
    ensures IsRun(s, [step] + rest, replies)
    ensures After(s, [step] + rest, replies) == After(Apply(s, step, replies), rest, replies)
  {
    assert ([step] + rest)[1..] == rest;
  }

  /** Any thread may wake a task at any time, which does to the task set what the task set says. */
  lemma {:induction false} WakesAtAnyTime<R>(s: State<R>, w: TaskSet.Step)
    requires Inv(s) && TaskSet.IsWake(w) && TaskSet.Enabled(s.tasks, w)
    ensures Enabled(s, Wake(w)) && ApplyWake(s, w).tasks == TaskSet.Apply(s.tasks, w)
    ensures ApplyWake(s, w).join == s.join && ApplyWake(s, w).pc == s.pc
    ensures w.Begin? || w.Confirm? ==> w.t in ApplyWake(s, w).owed
  {
  }

  /** The parent registers its waker only if it finds no task scheduled. */
  lemma {:induction false} ChecksBeforeRegistering<R>(s: State<R>, replies: (nat, nat) -> ChildPoll<R>)
    requires Inv(s) && Enabled(s, Check)
    ensures var u := Apply(s, Check, replies);
      if s.tasks.lists[|s.tasks.iters|] == [] then u == s.(pc := Registering) else u == s.(pc := Taking)
  {
    TaskSetRuns.TopTells(s.tasks, |s.tasks.iters|);
  }

  /**
    The wake sink: the waker is registered by `Register` and unregistered by a notification, and the parent is
    woken by a notification that finds it registered, until it is polled.
  */
  lemma {:induction false} SinkExactly<R>(s: State<R>, step: Step, replies: (nat, nat) -> ChildPoll<R>)
    requires Enabled(s, step)
    ensures var u := Apply(s, step, replies);
      && (u.registered <==> step.Register? || (s.registered && step != Wake(TaskSet.Notify)))
      && (u.woken <==> (s.woken && !step.Call?) || (s.registered && step == Wake(TaskSet.Notify)))
  {
  }

  /**
    Every wake is served: when the parent returns `Pending` after a thread woke the task of a pending future, or
    found it scheduled already, the future has been polled since, or its task is still being inserted.
  */
  lemma {:induction false} WakeIsServed<R(!new)>(s: State<R>, w: TaskSet.Step, steps: seq<Step>, step: Step,
                                                 replies: (nat, nat) -> ChildPoll<R>)
    requires Reachable(s, replies) && Enabled(s, Wake(w)) && (w.Begin? || w.Confirm?)
    requires w.t < s.tasks.count && s.join.outputs[w.t].None? && IsRun(ApplyWake(s, w), steps, replies)
    requires ReturnsPending(After(ApplyWake(s, w), steps, replies), step, replies)
    ensures var u := Apply(After(ApplyWake(s, w), steps, replies), step, replies);
      && w.t < |u.join.polls| && w.t < |u.tasks.pos|
      && (u.join.polls[w.t] > s.join.polls[w.t] || u.tasks.pos[w.t].Inserting?)
  {
    var r, t := ApplyWake(s, w), w.t;
    ReachableIsServed(s, replies);
    WakesAtAnyTime(s, w);
    WakeKeepsJoin(s, w);
    StepKeepsServed(s, Wake(w), replies);
    var v := After(r, steps, replies);
    OwedUntilPolled(r, steps, t, replies);
    RunKeepsServed(r, steps, replies);
    OnlyTakeParks(v, step, replies);
    if v.join.polls[t] == s.join.polls[t] {
      PendingHasServed(v, step, replies, t);
    }
  }

  // ----- A poll that goes on alone -----

  function Stage(pc: Pc): nat {
    match pc
    case Loading => 5
    case Discarding => 4
    case Dropping(_, _, failing) => if failing then 0 else 3
    case First(_) => 2
    case _ => 1
  }

  /** Whether another batch is to come, and whether one is being polled. */
  function Batches<R>(s: State<R>): nat {
    (if s.tasks.head.index != TaskSet.EMPTY then 2 else 0) + (if IsInBatch(s.pc) then 1 else 0)
  }

  function Size<R>(s: State<R>, g: nat): nat {
    if g < |s.tasks.lists| then 2 * |s.tasks.lists[g]| else 0
  }

  function Left<R>(s: State<R>): nat {
    match s.pc
    case Dropping(g, removed, _) => Size(s, g) + (if removed.Some? then 1 else 0)
    case First(i) => if i <= s.tasks.count then s.tasks.count - i else 0
    case Checking => 2
    case Registering => 1
    case Iterating(g) => Size(s, g)
    case Polling(g, _) => Size(s, g) + 1
    case _ => 0
  }

  predicate IsPolled(pc: Pc) {
    !pc.Unpolled? && !pc.Parked? && !pc.Finished?
  }

  predicate Descends<R>(s: State<R>, u: State<R>) {
    || Stage(u.pc) < Stage(s.pc)
    || (Stage(u.pc) == Stage(s.pc) && Batches(u) < Batches(s))
    || (Stage(u.pc) == Stage(s.pc) && Batches(u) == Batches(s) && Left(u) < Left(s))
  }

  lemma {:induction false} DropDescends<R>(s: State<R>, replies: (nat, nat) -> ChildPoll<R>)
    requires Inv(s) && s.pc.Dropping?
    ensures Enabled(s, NextStep(s)) && !NextStep(s).Wake?
    ensures var u := Apply(s, NextStep(s), replies); IsPolled(u.pc) ==> Descends(s, u)
  {
    IteratorMoves(s, s.pc.g);
    TaskSetRuns.TopTells(s.tasks, s.pc.g);
  }

  lemma {:induction false} BatchDescends<R>(s: State<R>, replies: (nat, nat) -> ChildPoll<R>)
    requires Inv(s) && s.pc.Iterating?
    ensures Enabled(s, NextStep(s)) && !NextStep(s).Wake?
    ensures var u := Apply(s, NextStep(s), replies); IsPolled(u.pc) ==> Descends(s, u)
  {
    IteratorMoves(s, s.pc.g);
    TaskSetRuns.TopTells(s.tasks, s.pc.g);
    if !Exhausted(s, s.pc.g) {
      YieldFields(s, s.pc.g);
    }
  }

  lemma {:induction false} PollDescends<R>(s: State<R>, replies: (nat, nat) -> ChildPoll<R>)
    requires Inv(s) && (s.pc.Polling? || s.pc.First?)
    ensures Enabled(s, NextStep(s)) && !NextStep(s).Wake?
    ensures var u := Apply(s, NextStep(s), replies); IsPolled(u.pc) ==> Descends(s, u)
  {
  }

  lemma {:induction false} LoopDescends<R>(s: State<R>, replies: (nat, nat) -> ChildPoll<R>)
    requires Inv(s) && IsPolled(s.pc) && Current(s.pc).None? && !s.pc.First?
    ensures Enabled(s, NextStep(s)) && !NextStep(s).Wake?
    ensures var u := Apply(s, NextStep(s), replies); IsPolled(u.pc) ==> Descends(s, u)
  {
  }

  lemma {:induction false} OwnStepDescends<R>(s: State<R>, replies: (nat, nat) -> ChildPoll<R>)
    requires Inv(s) && IsPolled(s.pc)
    ensures Enabled(s, NextStep(s)) && !NextStep(s).Wake?
    ensures var u := Apply(s, NextStep(s), replies); IsPolled(u.pc) ==> Descends(s, u)
  {
    match s.pc
    case Dropping(_, _, _) => DropDescends(s, replies);
    case Iterating(_) => BatchDescends(s, replies);
    case Polling(_, _) => PollDescends(s, replies);
    case First(_) => PollDescends(s, replies);
    case _ => LoopDescends(s, replies);
  }

  lemma {:induction false} OwnStep<R>(s: State<R>, replies: (nat, nat) -> ChildPoll<R>)
    returns (step: Step, u: State<R>)
    requires Inv(s) && IsPolled(s.pc)
    ensures Enabled(s, step) && u == Apply(s, step, replies) && !step.Wake? && !step.Call?
    ensures Inv(u) && (IsPolled(u.pc) ==> Descends(s, u)) && (u.pc.Parked? || u.pc.Finished? || IsPolled(u.pc))
  {
    step := NextStep(s);
    OwnStepDescends(s, replies);
    StepKeepsInv(s, step, replies);
    u := Apply(s, step, replies);
  }

  /** A poll of the parent that no other thread disturbs comes to an end, from wherever it is. */
  lemma {:induction false} ReturnsAlone<R>(s: State<R>, replies: (nat, nat) -> ChildPoll<R>)
    returns (steps: seq<Step>)
    requires Inv(s) && IsPolled(s.pc)
    ensures IsRun(s, steps, replies) && (forall i :: 0 <= i < |steps| ==> !steps[i].Wake? && !steps[i].Call?)
    ensures var u := After(s, steps, replies); u.pc.Parked? || u.pc.Finished?
    decreases Stage(s.pc), Batches(s), Left(s)
  {
    var step, u := OwnStep(s, replies);
    var rest := [];
    if IsPolled(u.pc) {
      rest := ReturnsAlone(u, replies);
    }
    Cons(s, step, rest, replies);
    steps := [step] + rest;
  }

  // ----- The first poll discards what earlier broadcasts left -----

  predicate IsClear(tasks: TaskSet.State) {
    tasks.head == TaskSet.Head(TaskSet.EMPTY, 0)
  }

  lemma {:induction false} DropKeepsClear<R>(s: State<R>, replies: (nat, nat) -> ChildPoll<R>)
    requires Inv(s) && s.pc.Dropping? && !s.pc.failing && IsClear(s.tasks)
    ensures Enabled(s, NextStep(s))
    ensures var u := Apply(s, NextStep(s), replies);
      && Inv(u) && IsClear(u.tasks) && u.join == s.join
      && (u.pc == First(0) || (u.pc.Dropping? && !u.pc.failing && Left(u) < Left(s)))
  {
    IteratorMoves(s, s.pc.g);
    TaskSetRuns.TopTells(s.tasks, s.pc.g);
    StepKeepsInv(s, NextStep(s), replies);
  }

  lemma {:induction false} DropsAlone<R>(s: State<R>, replies: (nat, nat) -> ChildPoll<R>) returns (steps: seq<Step>)
    requires Inv(s) && s.pc.Dropping? && !s.pc.failing && IsClear(s.tasks)
    ensures IsRun(s, steps, replies)
    ensures var u := After(s, steps, replies); u.pc == First(0) && IsClear(u.tasks) && u.join == s.join
    decreases Left(s)
  {
    DropKeepsClear(s, replies);
    var u := Apply(s, NextStep(s), replies);
    var rest := [];
    if u.pc.Dropping? {
      rest := DropsAlone(u, replies);
    }
    Cons(s, NextStep(s), rest, replies);
    steps := [NextStep(s)] + rest;
  }

  lemma {:induction false} TakesToDiscard<R>(s: State<R>, replies: (nat, nat) -> ChildPoll<R>)
    requires Inv(s) && s.pc.Discarding?
    ensures Enabled(s, Discard)
    ensures var u := Apply(s, Discard, replies);
      && Inv(u) && IsClear(u.tasks) && u.join == s.join && (u.pc == First(0) || (u.pc.Dropping? && !u.pc.failing))
  {
    StepKeepsInv(s, Discard, replies);
  }

  /** Before the futures are polled for the first time, no task is scheduled and no notification is requested. */
  lemma {:induction false} DiscardsAlone<R>(s: State<R>, replies: (nat, nat) -> ChildPoll<R>)
    returns (steps: seq<Step>)
    requires Inv(s) && s.pc.Loading?
    ensures IsRun(s, steps, replies)
    ensures var u := After(s, steps, replies); u.pc == First(0) && IsClear(u.tasks) && u.join == s.join
  {
    var t := Apply(s, LoadHead, replies);
    StepKeepsInv(s, LoadHead, replies);
    var rest := [];
    if t.pc.Discarding? {
      TakesToDiscard(t, replies);
      var u := Apply(t, Discard, replies);
      if u.pc.Dropping? {
        rest := DropsAlone(u, replies);
      }
      Cons(t, Discard, rest, replies);
      rest := [Discard] + rest;
    }
    Cons(s, LoadHead, rest, replies);
    steps := [LoadHead] + rest;
  }
}
