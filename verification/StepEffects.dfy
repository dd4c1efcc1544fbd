/**
  What a step does, event by event and in terms of keys, times and requests; and what becomes of an
  event over a run: it stays planned until its time or its cancellation, and is executed once.
*/
module StepEffects {
  import opened Options
  import opened Agenda
  import opened Stepping
  import opened SteppingRuns

  // ----- The queue after a step -----

  /** Only the events that carry a cancelled key are discarded. */
  lemma {:induction false} LiveByKeys(q: seq<Event>, cancelled: set<nat>, e: Event)
    ensures e in Live(q, cancelled) <==> e in q && !(exists k :: k in cancelled && e.action.key == Some(k))
  {
    LiveMembers(q, cancelled, e);
    if IsCancelled(e.action, cancelled) {
      assert e.action.key.value in cancelled && e.action.key == Some(e.action.key.value);
    }
  }

  /** `e` is the event of the `i`-th request, whose time is in the future and whose period is not refused. */
  predicate IsRequested(p: Pending, now: int, requests: seq<Request>, e: Event, i: nat) {
    && i < |requests| && e == EventOf(p, now, requests, i)
    && now < requests[i].time && !(requests[i].checked && requests[i].action.period == Some(0))
  }

  lemma {:induction false} RequestedBefore(p: Pending, now: int, requests: seq<Request>, e: Event, i: nat, n: nat)
    requires i < n <= |requests|
    ensures IsRequested(p, now, requests[..n], e, i) <==> IsRequested(p, now, requests, e, i)
  {
    assert requests[..n][..i] == requests[..i];
  }

  lemma {:induction false} LastRequest(p: Pending, now: int, requests: seq<Request>, e: Event)
    requires |requests| > 0
    ensures var n := |requests| - 1;
      e in Submit(p, now, requests).queue <==>
        e in Submit(p, now, requests[..n]).queue || IsRequested(p, now, requests, e, n)
  {
    var n := |requests| - 1;
    var q, r := Submit(p, now, requests[..n]), requests[n];
    InsertMembers(q.queue, Event(r.time, r.origin, q.nextEpoch, r.action), e);
  }

  /** A request is queued if and only if its time is in the future and no null period is refused. */
  lemma {:induction false} SubmitExactly(p: Pending, now: int, requests: seq<Request>, e: Event)
    ensures e in Submit(p, now, requests).queue <==>
      e in p.queue || exists i: nat :: IsRequested(p, now, requests, e, i)
    decreases |requests|
  {
    if |requests| > 0 {
      var n := |requests| - 1;
      LastRequest(p, now, requests, e);
      SubmitExactly(p, now, requests[..n], e);
      if i: nat :| IsRequested(p, now, requests[..n], e, i) {
        RequestedBefore(p, now, requests, e, i, n);
      }
      if i: nat :| IsRequested(p, now, requests, e, i) && i < n {
        RequestedBefore(p, now, requests, e, i, n);
      }
    }
  }

  /** The event that the `i`-th due event leaves, if it is periodic. */
  function RenewalOf(p: Pending, due: seq<Event>, i: nat): Event
    requires i < |due| && due[i].action.period.Some?
  {
    Event(due[i].time + due[i].action.period.value, due[i].origin, Rescheduled(p, due[..i]).nextEpoch, due[i].action)
  }

  lemma {:induction false} RescheduledExactly(p: Pending, due: seq<Event>, e: Event)
    ensures e in Rescheduled(p, due).queue <==>
      || e in p.queue
      || exists i :: 0 <= i < |due| && due[i].action.period.Some? && e == RenewalOf(p, due, i)
    decreases |due|
  {
    if |due| > 0 {
      var n := |due| - 1;
      var q := Rescheduled(p, due[..n]);
      RescheduledExactly(p, due[..n], e);
      forall i | 0 <= i < n && due[i].action.period.Some? ensures RenewalOf(p, due[..n], i) == RenewalOf(p, due, i) {
        assert due[..n][..i] == due[..i];
      }
      if i :| 0 <= i < n && due[..n][i].action.period.Some? && e == RenewalOf(p, due[..n], i) {
        assert e == RenewalOf(p, due, i);
      }
      if due[n].action.period.Some? {
        assert RenewalOf(p, due, n)
            == Event(due[n].time + due[n].action.period.value, due[n].origin, q.nextEpoch, due[n].action);
        InsertMembers(q.queue, RenewalOf(p, due, n), e);
      }
    }
  }

  /**
    The queue after a step at time `t`: the events of later times, the renewals of the due periodic
    events and the requests for times to come, of which those are left that carry no cancelled key.
  */
  lemma {:induction false} StepLeavesExactly<M>(w: World<M>, exec: Executor<M>, t: int, due: seq<Event>, p: Pending,
                                                effect: Effect<M>, e: Event)
    requires |w.live| > 0 && Sorted(w.live) && t == w.live[0].time && due == w.live[..DueCount(w.live, t)]
    requires p == Pending(w.live[|due|..], w.nextEpoch) && effect == exec(w.model, t, Groups(due))
    ensures e in Execute(w, exec).0.live <==>
      && (|| (e in w.live && e.time != t)
          || (exists i :: 0 <= i < |due| && due[i].action.period.Some? && e == RenewalOf(p, due, i))
          || (exists i: nat :: IsRequested(Rescheduled(p, due), t, effect.requests, e, i)))
      && !(exists k :: (k in w.cancelled || k in effect.cancels) && e.action.key == Some(k))
  {
    var q := Rescheduled(p, due);
    LiveByKeys(Submit(q, t, effect.requests).queue, w.cancelled + effect.cancels, e);
    SubmitExactly(q, t, effect.requests, e);
    RescheduledExactly(p, due, e);
    RestExactly(w.live, t, e);
  }

  lemma {:induction false} RestExactly(q: seq<Event>, t: int, e: Event)
    requires Sorted(q) && |q| > 0 && t == q[0].time
    ensures e in q[DueCount(q, t)..] <==> e in q && e.time != t
  {
    var d := DueCount(q, t);
    if e in q[d..] {
      var i :| d <= i < |q| && q[i] == e;
      assert Before(q[0], q[d]);
      assert i == d || Before(q[d], q[i]);
    }
    if e in q && e.time != t {
      var i :| 0 <= i < |q| && q[i] == e;
      assert q[d..][i - d] == e;
    }
  }

  // ----- One event over a run -----

  ghost predicate HasCancelledKey(e: Event, cancelled: set<nat>) {
    exists k :: k in cancelled && e.action.key == Some(k)
  }

  /** An event that is not due stays if its key is not cancelled. */
  lemma {:induction false} StepKeepsPlanned<M>(x: World<M>, y: World<M>, entry: (int, seq<Group>), exec: Executor<M>,
                                               e: Event)
    requires IsStep(x, y, entry, exec) && e in x.live && entry.0 != e.time && !HasCancelledKey(e, y.cancelled)
    ensures e in y.live
  {
    var t := x.live[0].time;
    var due := x.live[..DueCount(x.live, t)];
    var effect := exec(x.model, t, Groups(due));
    if k :| (k in x.cancelled || k in effect.cancels) && e.action.key == Some(k) {
      assert k in y.cancelled;
    }
    StepLeavesExactly(x, exec, t, due, Pending(x.live[|due|..], x.nextEpoch), effect, e);
  }

  /** A due event is executed, at its place in the queue, and does not stay. */
  lemma {:induction false} StepExecutes<M(!new)>(x: World<M>, y: World<M>, entry: (int, seq<Group>), exec: Executor<M>,
                                                 e: Event) returns (i: nat)
    requires IsStep(x, y, entry, exec) && IsPositive(exec) && e in x.live && entry.0 == e.time
    ensures i < |Flatten(entry.1)| && Flatten(entry.1)[i] == e.action && e !in y.live
    ensures i < |x.live| && x.live[i] == e && |Flatten(entry.1)| == DueCount(x.live, entry.0)
  {
    var t := x.live[0].time;
    var due := x.live[..DueCount(x.live, t)];
    DueIsExactlyTheLeastTime(x.live, e);
    i :| 0 <= i < |due| && due[i] == e;
    GroupsHoldAll(due);
    ActionsAt(due, i);
    StepKeepsConsistent(x.(terminated := false, halted := false), None, exec);
    assert Execute(x.(terminated := false, halted := false), exec).0.live == y.live;
  }

  lemma {:induction false} ActionsAt(due: seq<Event>, i: nat)
    requires i < |due|
    ensures |Actions(due)| == |due| && Actions(due)[i] == due[i].action
    decreases |due|
  {
    if |due| > 1 {
      ActionsAt(due[..|due| - 1], if i < |due| - 1 then i else 0);
    }
  }

  /** An event of the first world stays until its time, unless its key is cancelled. */
  lemma {:induction false} StaysPlanned<M>(worlds: seq<World<M>>, trace: seq<(int, seq<Group>)>, exec: Executor<M>,
                                           e: Event, j: nat)
    requires IsChain(worlds, trace, exec) && e in worlds[0].live && j <= |trace|
    requires forall i :: 0 <= i < j ==> trace[i].0 != e.time
    requires forall i :: 0 < i <= j ==> !HasCancelledKey(e, worlds[i].cancelled)
    ensures e in worlds[j].live
    decreases j
  {
    if j > 0 {
      StaysPlanned(worlds, trace, exec, e, j - 1);
      StepKeepsPlanned(worlds[j - 1], worlds[j], trace[j - 1], exec, e);
    }
  }

  /** After a successful run no event up to the target is left. */
  lemma {:induction false} NothingLeft<M(!new)>(w: World<M>, target: int, exec: Executor<M>, e: Event)
    requires Consistent(w) && IsPositive(exec) && w.time <= target && StepUntil(w, target, exec).result.Done?
    ensures e in StepUntil(w, target, exec).world.live ==> target < e.time
  {
    RunReachesTarget(w, target, exec);
  }

  lemma {:induction false} FirstNotBefore(trace: seq<(int, seq<Group>)>, t: int) returns (j: nat)
    ensures j <= |trace| && (forall n :: 0 <= n < j ==> trace[n].0 < t) && (j < |trace| ==> trace[j].0 >= t)
  {
    j := 0;
    while j < |trace| && trace[j].0 < t
      invariant j <= |trace| && forall n :: 0 <= n < j ==> trace[n].0 < t
    {
      j := j + 1;
    }
  }

  /** The step at the time of the event is in the chain, since later steps leave nothing at that time. */
  lemma {:induction false} StepIsInChain<M>(worlds: seq<World<M>>, trace: seq<(int, seq<Group>)>, exec: Executor<M>,
                                            e: Event, j: nat)
    requires IsChain(worlds, trace, exec) && e in worlds[0].live && e !in worlds[|trace|].live
    requires j <= |trace| && (forall n :: 0 <= n < j ==> trace[n].0 < e.time) && (j < |trace| ==> trace[j].0 >= e.time)
    requires forall n :: 0 < n <= j ==> !HasCancelledKey(e, worlds[n].cancelled)
    ensures j < |trace| && trace[j].0 == e.time && e in worlds[j].live
  {
    StaysPlanned(worlds, trace, exec, e, j);
    if j < |trace| {
      assert IsStep(worlds[j], worlds[j + 1], trace[j], exec);
      DueIsExactlyTheLeastTime(worlds[j].live, e);
    }
  }

  /**
    An event whose key no step cancels before its time is executed exactly once in a successful run to its
    time or later: by the only step at its time, at its place among the due events.
  */
  lemma {:induction false} PlannedIsExecuted<M(!new)>(w: World<M>, target: int, exec: Executor<M>, e: Event)
    returns (j: nat, i: nat)
    requires Consistent(w) && IsPositive(exec) && w.time <= e.time <= target && e in w.live
    requires var r, ws := StepUntil(w, target, exec), Worlds(w, target, exec);
      && r.result.Done? && |ws| == |r.trace| + 1
      && forall n :: 0 < n <= |r.trace| && r.trace[n - 1].0 < e.time ==> !HasCancelledKey(e, ws[n].cancelled)
    ensures var tr, ws := StepUntil(w, target, exec).trace, Worlds(w, target, exec);
      && j < |tr| && j < |ws| && tr[j].0 == e.time && (forall n :: 0 <= n < |tr| && n != j ==> tr[n].0 != e.time)
      && i < |Flatten(tr[j].1)| == DueCount(ws[j].live, e.time) && i < |ws[j].live|
      && Flatten(tr[j].1)[i] == e.action && ws[j].live[i] == e
  {
    var tr, ws := StepUntil(w, target, exec).trace, Worlds(w, target, exec);
    RunIsChain(w, target, exec);
    TraceIsIncreasing(w, target, exec);
    NothingLeft(w, target, exec, e);
    j := FirstNotBefore(tr, e.time);
    StepIsInChain(ws, tr, exec, e, j);
    assert IsStep(ws[j], ws[j + 1], tr[j], exec);
    i := StepExecutes(ws[j], ws[j + 1], tr[j], exec, e);
  }

  // ----- Model, halt and failure -----

  /** Each step hands the model that the step before left to the executor, with the time and the due actions. */
  lemma {:induction false} ModelIsThreaded<M(!new)>(w: World<M>, target: int, exec: Executor<M>, j: nat)
    requires Consistent(w) && IsPositive(exec) && w.time <= target && j < |StepUntil(w, target, exec).trace|
    ensures var tr, ws := StepUntil(w, target, exec).trace, Worlds(w, target, exec);
      && |ws| == |tr| + 1 && ws[0].model == w.model
      && var effect := exec(ws[j].model, tr[j].0, tr[j].1);
         && ws[j + 1].model == effect.model && ws[j + 1].halted == effect.halt
         && ws[j + 1].terminated == effect.error.Some?
  {
    RunIsChain(w, target, exec);
    var tr, ws := StepUntil(w, target, exec).trace, Worlds(w, target, exec);
    assert IsStep(ws[j], ws[j + 1], tr[j], exec);
  }

  /** A halted simulation refuses the next step with `Halted`, and a failed one, or one that was refused, for ever. */
  lemma {:induction false} RefusesAfterEnd<M>(w: World<M>, exec: Executor<M>, bound: Option<int>, next: Option<int>)
    requires |w.live| > 0
    ensures var (v, o) := Execute(w, exec);
      var (u, refusal) := StepToNext(v, bound, exec);
      && o.Stepped?
      && (o.error.Some? ==> u == v && refusal == Refused(Terminated))
      && (o.error.None? && exec(w.model, o.time, o.groups).halt ==>
            refusal == Refused(Halted) && StepToNext(u, next, exec) == (u, Refused(Terminated)))
  {
  }

  /** What the last step of a run, or the world if there was none, gives as the reason of a failure. */
  ghost predicate IsReason<M>(w: World<M>, worlds: seq<World<M>>, trace: seq<(int, seq<Group>)>, exec: Executor<M>,
                              reason: Error)
    requires |worlds| == |trace| + 1
  {
    var n := |trace| - 1;
    if n < 0 then reason == (if w.terminated then Terminated else Halted) && (w.terminated || w.halted)
    else
      var effect := exec(worlds[n].model, trace[n].0, trace[n].1);
      match effect.error
      case Some(code) => reason == Execution(code)
      case None => reason == Halted && effect.halt
  }

  /** A run fails exactly with the error of its last step, or because that step, or an earlier run, halted or failed. */
  lemma {:induction false} FailuresAreReported<M(!new)>(w: World<M>, target: int, exec: Executor<M>)
    requires Consistent(w) && IsPositive(exec) && w.time <= target
    ensures var r, ws := StepUntil(w, target, exec), Worlds(w, target, exec);
      && |ws| == |r.trace| + 1
      && (r.result.Fails? ==> IsReason(w, ws, r.trace, exec, r.result.reason))
      && (w.terminated || w.halted ==> r.result.Fails? && r.trace == [])
    decreases target - w.time
  {
    StepKeepsConsistent(w, Some(target), exec);
    var (v, o) := StepToNext(w, Some(target), exec);
    if o.Stepped? && o.error.None? && o.time != target {
      FailuresAreReported(v, target, exec);
      var r, ws := StepUntil(v, target, exec), Worlds(v, target, exec);
      assert ([w] + ws)[|ws|] == ws[|ws| - 1];
    }
  }
}
