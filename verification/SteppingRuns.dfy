/** Steps and runs of steps: what is executed, when, and in which order. */
module SteppingRuns {
  import opened Options
  import opened Agenda
  import opened Stepping

  // ----- One step -----

  function Actions(due: seq<Event>): seq<Action> {
    if |due| == 0 then [] else Actions(due[..|due| - 1]) + [due[|due| - 1].action]
  }

  function Flatten(groups: seq<Group>): seq<Action> {
    if |groups| == 0 then [] else Flatten(groups[..|groups| - 1]) + groups[|groups| - 1].actions
  }

  /** The groups hold the due actions, each once and in the order of the queue. */
  lemma {:induction false} GroupsHoldAll(due: seq<Event>)
    ensures Flatten(Groups(due)) == Actions(due)
  {
    if |due| > 0 {
      var n := |due| - 1;
      GroupsHoldAll(due[..n]);
      var g, h := Groups(due[..n]), Groups(due);
      if |g| == |h| {
        assert h[..|g| - 1] == g[..|g| - 1];
      } else {
        assert h[..|g|] == g;
      }
    }
  }

  predicate DistinctOrigins(groups: seq<Group>) {
    forall i, j :: 0 <= i < j < |groups| ==> groups[i].origin < groups[j].origin
  }

  lemma {:induction false} NextGroup(g: seq<Group>, e: Event)
    requires DistinctOrigins(g) && |g| > 0 && g[|g| - 1].origin < e.origin
    ensures DistinctOrigins(g + [Group(e.origin, [e.action])])
  {
    forall i | 0 <= i < |g| ensures g[i].origin < e.origin {
      assert i < |g| - 1 ==> g[i].origin < g[|g| - 1].origin;
    }
  }

  /** There is one group for each origin, since the queue is ordered by origin. */
  lemma {:induction false} GroupsHaveDistinctOrigins(due: seq<Event>, t: int)
    requires Sorted(due) && forall i :: 0 <= i < |due| ==> due[i].time == t
    ensures DistinctOrigins(Groups(due))
  {
    var n := |due| - 1;
    if n > 0 {
      GroupsHaveDistinctOrigins(due[..n], t);
      var g := Groups(due[..n]);
      LastGroup(due[..n]);
      assert Before(due[n - 1], due[n]) && due[..n][n - 1] == due[n - 1];
      if g[|g| - 1].origin < due[n].origin {
        NextGroup(g, due[n]);
      }
    }
  }

  /** A step is at the least time of a live event, and executes the live events of that time. */
  lemma {:induction false} DueIsExactlyTheLeastTime(q: seq<Event>, e: Event)
    requires Sorted(q) && |q| > 0
    ensures var t := q[0].time;
      e in q ==> t <= e.time && (e in q[..DueCount(q, t)] <==> e.time == t)
  {
    var t := q[0].time;
    var d := DueCount(q, t);
    if e in q {
      var i :| 0 <= i < |q| && q[i] == e;
      assert i > 0 ==> Before(q[0], q[i]);
      if i < d {
        assert q[..d][i] == e;
      } else {
        assert i == d || Before(q[d], q[i]);
        assert d == 0 || Before(q[0], q[d]);
      }
    }
  }

  // ----- Requests and cancellations made during a step -----

  /** The event of the `i`-th request. */
  function EventOf(p: Pending, now: int, requests: seq<Request>, i: nat): Event
    requires i < |requests|
  {
    Event(requests[i].time, requests[i].origin, Submit(p, now, requests[..i]).nextEpoch, requests[i].action)
  }

  lemma {:induction false} RequestIsScheduled(p: Pending, now: int, requests: seq<Request>, i: nat, n: nat)
    requires i < n <= |requests|
    requires now < requests[i].time && !(requests[i].checked && requests[i].action.period == Some(0))
    ensures EventOf(p, now, requests, i) in Submit(p, now, requests[..n]).queue
    decreases n
  {
    var e := EventOf(p, now, requests, i);
    assert requests[..n][..n - 1] == requests[..n - 1];
    var q, r := Submit(p, now, requests[..n - 1]), requests[n - 1];
    if i < n - 1 {
      RequestIsScheduled(p, now, requests, i, n - 1);
    }
    InsertMembers(q.queue, Event(r.time, r.origin, q.nextEpoch, r.action), e);
  }

  lemma {:induction false} SubmitEpochsGrow(p: Pending, now: int, requests: seq<Request>, i: nat, j: nat)
    requires i <= j <= |requests|
    ensures Submit(p, now, requests[..i]).nextEpoch <= Submit(p, now, requests[..j]).nextEpoch
    decreases j
  {
    if i < j {
      SubmitEpochsGrow(p, now, requests, i, j - 1);
      assert requests[..j][..j - 1] == requests[..j - 1];
    }
  }

  /** Requests for the same time and origin are queued in the order in which they were made. */
  lemma {:induction false} RequestsKeepOrder(p: Pending, now: int, requests: seq<Request>, i: nat, j: nat)
    requires i < j < |requests| && now < requests[i].time
    requires requests[i].time == requests[j].time && requests[i].origin == requests[j].origin
    requires forall k :: k == i || k == j ==> !(requests[k].checked && requests[k].action.period == Some(0))
    ensures var a, b, q := EventOf(p, now, requests, i), EventOf(p, now, requests, j), Submit(p, now, requests).queue;
      a in q && b in q && Before(a, b)
  {
    assert requests[..|requests|] == requests;
    RequestIsScheduled(p, now, requests, i, |requests|);
    RequestIsScheduled(p, now, requests, j, |requests|);
    SubmitEpochsGrow(p, now, requests, i + 1, j);
    assert requests[..i + 1][..i] == requests[..i];
  }

  /** An action cancelled during a step is not in the queue after it. */
  lemma {:induction false} CancellationTakesEffect<M>(w: World<M>, exec: Executor<M>, key: nat, e: Event)
    requires |w.live| > 0
    requires var t := w.live[0].time; key in exec(w.model, t, Groups(w.live[..DueCount(w.live, t)])).cancels
    ensures e in Execute(w, exec).0.live ==> e.action.key != Some(key)
  {
    var t := w.live[0].time;
    var d := DueCount(w.live, t);
    var p := Rescheduled(Pending(w.live[d..], w.nextEpoch), w.live[..d]);
    var effect := exec(w.model, t, Groups(w.live[..d]));
    LiveMembers(Submit(p, t, effect.requests).queue, w.cancelled + effect.cancels, e);
  }

  // ----- Runs -----

  datatype Result = Done | Fails(reason: Error)

  /** The world after a run, what was executed at each time, and the result. */
  datatype Run<M> = Run(world: World<M>, trace: seq<(int, seq<Group>)>, result: Result)

  lemma {:induction false} NoEventUntil<M>(w: World<M>, t: int)
    requires Consistent(w) && (|w.live| == 0 || t < w.live[0].time)
    ensures Consistent(w.(time := t))
  {
    forall i | 0 <= i < |w.live| ensures t < w.live[i].time {
      assert i == 0 || Before(w.live[0], w.live[i]);
    }
  }

  /** `step_until`, for a target time that is not in the past. */
  ghost function StepUntil<M(!new)>(w: World<M>, target: int, exec: Executor<M>): Run<M>
    requires Consistent(w) && IsPositive(exec) && w.time <= target
    decreases target - w.time
  {
    StepKeepsConsistent(w, Some(target), exec);
    var (v, o) := StepToNext(w, Some(target), exec);
    match o
    case Refused(reason) => Run(v, [], Fails(reason))
    case NoEvent => Run(v.(time := target), [], Done)
    case Stepped(t, groups, error) =>
      if error.Some? then Run(v, [(t, groups)], Fails(Execution(error.value)))
      else if t == target then Run(v, [(t, groups)], Done)
      else
        var rest := StepUntil(v, target, exec);
        rest.(trace := [(t, groups)] + rest.trace)
  }

  /** A successful run ends at the target time with nothing left to do before; the steps are at most `target - now`. */
  lemma {:induction false} RunReachesTarget<M(!new)>(w: World<M>, target: int, exec: Executor<M>)
    requires Consistent(w) && IsPositive(exec) && w.time <= target
    ensures var r := StepUntil(w, target, exec);
      && Consistent(r.world) && |r.trace| <= target - w.time
      && (r.result.Done? ==> r.world.time == target && !r.world.terminated)
      && w.time <= r.world.time <= target
    decreases target - w.time
  {
    StepKeepsConsistent(w, Some(target), exec);
    var (v, o) := StepToNext(w, Some(target), exec);
    if o.NoEvent? {
      NoEventUntil(w, target);
    } else if o.Stepped? && o.error.None? && o.time != target {
      RunReachesTarget(v, target, exec);
    }
  }

  /** A step from `x` to `y`, and what it adds to the trace. */
  ghost predicate IsStep<M>(x: World<M>, y: World<M>, entry: (int, seq<Group>), exec: Executor<M>) {
    && Consistent(x) && |x.live| > 0 && y == Execute(x, exec).0
    && entry == (Execute(x, exec).1.time, Execute(x, exec).1.groups)
  }

  /** The worlds that a trace goes through: entry `j` is the step from world `j` to the next. */
  ghost predicate IsChain<M>(worlds: seq<World<M>>, trace: seq<(int, seq<Group>)>, exec: Executor<M>) {
    |worlds| == |trace| + 1 && forall j :: 0 <= j < |trace| ==> IsStep(worlds[j], worlds[j + 1], trace[j], exec)
  }

  /** The world before each step of a run, and the one after the last step. */
  ghost function Worlds<M(!new)>(w: World<M>, target: int, exec: Executor<M>): seq<World<M>>
    requires Consistent(w) && IsPositive(exec) && w.time <= target
    decreases target - w.time
  {
    StepKeepsConsistent(w, Some(target), exec);
    var (v, o) := StepToNext(w, Some(target), exec);
    if !o.Stepped? then [w]
    else if o.error.Some? || o.time == target then [w, v]
    else [w] + Worlds(v, target, exec)
  }

  lemma {:induction false} ChainCons<M>(w: World<M>, entry: (int, seq<Group>), worlds: seq<World<M>>,
                                        trace: seq<(int, seq<Group>)>, exec: Executor<M>)
    requires IsChain(worlds, trace, exec) && IsStep(w, worlds[0], entry, exec)
    ensures IsChain([w] + worlds, [entry] + trace, exec)
  {
    var ws, tr := [w] + worlds, [entry] + trace;
    forall j | 0 <= j < |tr| ensures IsStep(ws[j], ws[j + 1], tr[j], exec) {
      if j > 0 {
        assert ws[j] == worlds[j - 1] && ws[j + 1] == worlds[j] && tr[j] == trace[j - 1];
      }
    }
  }

  /** The steps of a run, the first from the given world, the last to the events and cancellations of the result. */
  lemma {:induction false} RunIsChain<M(!new)>(w: World<M>, target: int, exec: Executor<M>)
    requires Consistent(w) && IsPositive(exec) && w.time <= target
    ensures var r, ws := StepUntil(w, target, exec), Worlds(w, target, exec);
      && IsChain(ws, r.trace, exec) && ws[0] == w
      && ws[|r.trace|].live == r.world.live && ws[|r.trace|].cancelled == r.world.cancelled
    decreases target - w.time
  {
    StepKeepsConsistent(w, Some(target), exec);
    var (v, o) := StepToNext(w, Some(target), exec);
    if o.Stepped? {
      if o.error.Some? || o.time == target {
        ChainCons(w, (o.time, o.groups), [v], [], exec);
        assert [w] + [v] == [w, v] && [(o.time, o.groups)] + [] == [(o.time, o.groups)];
      } else {
        RunIsChain(v, target, exec);
        ChainCons(w, (o.time, o.groups), Worlds(v, target, exec), StepUntil(v, target, exec).trace, exec);
      }
    }
  }

  predicate Increasing(trace: seq<(int, seq<Group>)>, after: int, target: int) {
    && (forall i :: 0 <= i < |trace| ==> after < trace[i].0 <= target)
    && (forall i, j :: 0 <= i < j < |trace| ==> trace[i].0 < trace[j].0)
  }

  lemma {:induction false} IncreasingCons(t: int, groups: seq<Group>, rest: seq<(int, seq<Group>)>, after: int,
                                          target: int)
    requires after < t <= target && Increasing(rest, t, target)
    ensures Increasing([(t, groups)] + rest, after, target)
  {
  }

  /** Steps happen at increasing times, after the start and not after the target. */
  lemma {:induction false} TraceIsIncreasing<M(!new)>(w: World<M>, target: int, exec: Executor<M>)
    requires Consistent(w) && IsPositive(exec) && w.time <= target
    ensures Increasing(StepUntil(w, target, exec).trace, w.time, target)
    decreases target - w.time
  {
    StepKeepsConsistent(w, Some(target), exec);
    var (v, o) := StepToNext(w, Some(target), exec);
    if o.Stepped? && o.error.None? && o.time != target {
      TraceIsIncreasing(v, target, exec);
      IncreasingCons(o.time, o.groups, StepUntil(v, target, exec).trace, w.time, target);
    }
  }

  /** The bound and the current time matter to a step only if no event is within the bound. */
  lemma {:induction false} StepIgnoresTime<M>(w: World<M>, t: int, bound: Option<int>, exec: Executor<M>)
    requires !w.terminated && !w.halted && |w.live| > 0 && InTime(w.live[0].time, bound)
    ensures StepToNext(w.(time := t), bound, exec) == StepToNext(w, None, exec) == StepToNext(w, bound, exec)
  {
  }

  /** The first part of a run that fails is the whole run. */
  lemma {:induction false} FailureEndsRun<M(!new)>(w: World<M>, first: int, second: int, exec: Executor<M>)
    requires Consistent(w) && IsPositive(exec) && w.time <= first <= second
    ensures StepUntil(w, first, exec).result.Fails? ==> StepUntil(w, second, exec) == StepUntil(w, first, exec)
    decreases first - w.time
  {
    StepKeepsConsistent(w, Some(first), exec);
    var (v, o) := StepToNext(w, Some(first), exec);
    if o.Stepped? {
      StepIgnoresTime(w, w.time, Some(first), exec);
      StepIgnoresTime(w, w.time, Some(second), exec);
      if o.error.None? && o.time != first {
        FailureEndsRun(v, first, second, exec);
      }
    }
  }

  /** Once a target was reached with no event left, waiting there changes nothing. */
  lemma {:induction false} ResumesFrom<M(!new)>(w: World<M>, first: int, second: int, exec: Executor<M>)
    requires Consistent(w) && IsPositive(exec) && w.time <= first <= second && !w.terminated && !w.halted
    requires |w.live| == 0 || first < w.live[0].time
    ensures Consistent(w.(time := first)) && StepUntil(w.(time := first), second, exec) == StepUntil(w, second, exec)
  {
    NoEventUntil(w, first);
    var z := w.(time := first);
    if |w.live| > 0 && w.live[0].time <= second {
      StepIgnoresTime(w, first, Some(second), exec);
      assert StepToNext(z, Some(second), exec) == StepToNext(w, Some(second), exec);
    } else {
      assert StepToNext(w, Some(second), exec) == (w, NoEvent) && StepToNext(z, Some(second), exec) == (z, NoEvent);
    }
  }

  /** The run to `second` is the run to `first` followed by the run from there. */
  ghost predicate Composes<M(!new)>(w: World<M>, first: int, second: int, exec: Executor<M>)
    requires Consistent(w) && IsPositive(exec) && w.time <= first <= second
    requires Consistent(StepUntil(w, first, exec).world) && StepUntil(w, first, exec).world.time <= second
  {
    var r := StepUntil(w, first, exec);
    var s := StepUntil(r.world, second, exec);
    StepUntil(w, second, exec) == Run(s.world, r.trace + s.trace, s.result)
  }

  lemma {:induction false} ComposesAfterStep<M(!new)>(w: World<M>, first: int, second: int, exec: Executor<M>)
    requires Consistent(w) && IsPositive(exec) && w.time < first <= second
    requires var (v, o) := StepToNext(w, Some(first), exec);
      && o.Stepped? && o.error.None? && v.time < first && Consistent(v)
      && Consistent(StepUntil(v, first, exec).world) && StepUntil(v, first, exec).world.time <= second
      && Composes(v, first, second, exec)
    ensures Consistent(StepUntil(w, first, exec).world) && StepUntil(w, first, exec).world.time <= second
    ensures Composes(w, first, second, exec)
  {
    StepKeepsConsistent(w, Some(first), exec);
    var (v, o) := StepToNext(w, Some(first), exec);
    StepIgnoresTime(w, w.time, Some(first), exec);
    StepIgnoresTime(w, w.time, Some(second), exec);
    var q := StepUntil(v, first, exec);
    var s := StepUntil(q.world, second, exec);
    assert StepUntil(w, second, exec).trace == [(o.time, o.groups)] + StepUntil(v, second, exec).trace;
    assert [(o.time, o.groups)] + (q.trace + s.trace) == ([(o.time, o.groups)] + q.trace) + s.trace;
  }

  /**
    Running to `first` and then to `second` executes what running to `second` does, with the same
    final world and result, if and only if the two times differ or the last step did not halt the simulation.
  */
  lemma {:induction false} StepUntilComposes<M(!new)>(w: World<M>, first: int, second: int, exec: Executor<M>)
    requires Consistent(w) && IsPositive(exec) && w.time <= first <= second && StepUntil(w, first, exec).result.Done?
    ensures Consistent(StepUntil(w, first, exec).world) && StepUntil(w, first, exec).world.time == first
    ensures Composes(w, first, second, exec) <==> first < second || !StepUntil(w, first, exec).world.halted
    decreases first - w.time
  {
    RunReachesTarget(w, first, exec);
    StepKeepsConsistent(w, Some(first), exec);
    var (v, o) := StepToNext(w, Some(first), exec);
    var r := StepUntil(w, first, exec);
    if first == second && r.world.halted {
      HaltBreaksComposition(w, first, exec);
    } else if o.NoEvent? {
      ResumesFrom(w, first, second, exec);
      var s := StepUntil(r.world, second, exec);
      assert [] + s.trace == s.trace;
    } else {
      StepIgnoresTime(w, w.time, Some(first), exec);
      StepIgnoresTime(w, w.time, Some(second), exec);
      if o.time == first {
        ReachedExactly(w, first, second, exec);
      } else {
        StepUntilComposes(v, first, second, exec);
        ComposesAfterStep(w, first, second, exec);
      }
    }
  }

  /** The first run ends with a step exactly at its target. */
  lemma {:induction false} ReachedExactly<M(!new)>(w: World<M>, first: int, second: int, exec: Executor<M>)
    requires Consistent(w) && IsPositive(exec) && w.time < first <= second
    requires var o := StepToNext(w, Some(first), exec).1; o.Stepped? && o.error.None? && o.time == first
    ensures Consistent(StepUntil(w, first, exec).world) && StepUntil(w, first, exec).world.time == first
    ensures first < second || !StepUntil(w, first, exec).world.halted ==> Composes(w, first, second, exec)
  {
    StepKeepsConsistent(w, Some(first), exec);
    var (v, o) := StepToNext(w, Some(first), exec);
    StepIgnoresTime(w, w.time, Some(first), exec);
    StepIgnoresTime(w, w.time, Some(second), exec);
    var s := StepUntil(v, second, exec);
    if first == second && !v.halted {
      assert StepToNext(v, Some(second), exec) == (v, NoEvent);
      assert [(o.time, o.groups)] + [] == [(o.time, o.groups)];
    }
  }

  /** Stopping twice at the same time fails if the last step halted the simulation: the second call reports it. */
  lemma {:induction false} HaltBreaksComposition<M(!new)>(w: World<M>, target: int, exec: Executor<M>)
    requires Consistent(w) && IsPositive(exec) && w.time <= target
    requires StepUntil(w, target, exec).result.Done? && StepUntil(w, target, exec).world.halted
    ensures Consistent(StepUntil(w, target, exec).world) && StepUntil(w, target, exec).world.time == target
    ensures !Composes(w, target, target, exec)
    ensures StepUntil(StepUntil(w, target, exec).world, target, exec).result == Fails(Halted)
  {
    RunReachesTarget(w, target, exec);
  }

  // ----- Runs without a target time -----

  /** The steps end, because an error or no event is met, after at most `n` of them. */
  ghost predicate Finishes<M>(w: World<M>, exec: Executor<M>, n: nat)
    decreases n
  {
    var (v, o) := StepToNext(w, None, exec);
    !o.Stepped? || o.error.Some? || (n > 0 && Finishes(v, exec, n - 1))
  }

  /** `step_unbounded`, if it ends. */
  ghost function StepAll<M>(w: World<M>, exec: Executor<M>, n: nat): Run<M>
    requires Finishes(w, exec, n)
    decreases n
  {
    var (v, o) := StepToNext(w, None, exec);
    match o
    case Refused(reason) => Run(v, [], Fails(reason))
    case NoEvent => Run(v, [], Done)
    case Stepped(t, groups, error) =>
      if error.Some? then Run(v, [(t, groups)], Fails(Execution(error.value)))
      else
        var rest := StepAll(v, exec, n - 1);
        rest.(trace := [(t, groups)] + rest.trace)
  }

  /**
    A run without a target does what a run to any later target does; if it succeeds no event is left,
    and only the time of the bounded run is the target.
  */
  lemma {:induction false} UnboundedIsBounded<M(!new)>(w: World<M>, exec: Executor<M>, n: nat, target: int)
    requires Consistent(w) && IsPositive(exec) && Finishes(w, exec, n) && StepAll(w, exec, n).world.time < target
    ensures w.time <= StepAll(w, exec, n).world.time
    ensures StepAll(w, exec, n).result.Done? ==> StepAll(w, exec, n).world.live == []
    ensures var r := StepAll(w, exec, n);
      StepUntil(w, target, exec) == if r.result.Done? then r.(world := r.world.(time := target)) else r
    decreases n
  {
    StepKeepsConsistent(w, None, exec);
    var (v, o) := StepToNext(w, None, exec);
    if o.Stepped? {
      if o.error.None? {
        UnboundedIsBounded(v, exec, n - 1, target);
      }
      StepIgnoresTime(w, w.time, Some(target), exec);
    }
  }

  // ----- Composition fails after a halt -----

  /** An executor whose only effect is to halt the simulation. */
  function HaltAtOnce(m: nat, t: int, groups: seq<Group>): Effect<nat> {
    Effect(m, [], {}, true, None)
  }

  /** It does happen: one event at the target time, whose action halts the simulation. */
  lemma {:induction false} HaltAtTarget()
    ensures var w := World(0, [Event(1, 0, 0, Action(0, None, None))], 1, {}, 0, false, false);
      && Consistent(w) && IsPositive(HaltAtOnce) && Consistent(StepUntil(w, 1, HaltAtOnce).world)
      && StepUntil(w, 1, HaltAtOnce).result.Done? && StepUntil(w, 1, HaltAtOnce).world.time == 1
      && !Composes(w, 1, 1, HaltAtOnce)
  {
    var w := World(0, [Event(1, 0, 0, Action(0, None, None))], 1, {}, 0, false, false);
    assert StepToNext(w, Some(1), HaltAtOnce) == Execute(w, HaltAtOnce);
    assert Execute(w, HaltAtOnce).0.halted && Execute(w, HaltAtOnce).1.time == 1;
    HaltBreaksComposition(w, 1, HaltAtOnce);
  }
}
