/** Periodic actions: when they are executed over any run. */
module Periodic {
  import opened Options
  import opened Agenda
  import opened Stepping
  import opened SteppingRuns

  /** How many events of a queue perform the action `id`. */
  function Count(q: seq<Event>, id: nat): nat {
    if |q| == 0 then 0 else Count(q[..|q| - 1], id) + (if q[|q| - 1].action.id == id then 1 else 0)
  }

  lemma {:induction false} CountConcat(a: seq<Event>, b: seq<Event>, id: nat)
    ensures Count(a + b, id) == Count(a, id) + Count(b, id)
  {
    if |b| == 0 {
      assert a + b == a;
    } else {
      CountConcat(a, b[..|b| - 1], id);
      assert (a + b)[..|a + b| - 1] == a + b[..|b| - 1];
    }
  }

  lemma {:induction false} CountInsert(q: seq<Event>, e: Event, id: nat)
    requires Sorted(q)
    ensures Count(Insert(q, e), id) == Count(q, id) + (if e.action.id == id then 1 else 0)
  {
    var k := InsertAt(q, e);
    CountConcat(q[..k], q[k..], id);
    CountConcat(q[..k] + [e], q[k..], id);
    assert (q[..k] + [e])[..k] == q[..k];
    assert q == q[..k] + q[k..];
  }

  lemma {:induction false} CountMember(q: seq<Event>, id: nat)
    ensures Count(q, id) > 0 <==> exists e :: e in q && e.action.id == id
  {
    var n := |q| - 1;
    if n >= 0 {
      CountMember(q[..n], id);
      assert q == q[..n] + [q[n]];
      if Count(q[..n], id) > 0 {
        var e :| e in q[..n] && e.action.id == id;
        assert e in q;
      }
      if q[n].action.id == id {
        assert q[n] in q;
      }
    }
  }

  lemma {:induction false} CountLive(q: seq<Event>, cancelled: set<nat>, id: nat)
    requires forall e :: e in q && e.action.id == id ==> !IsCancelled(e.action, cancelled)
    ensures Count(Live(q, cancelled), id) == Count(q, id)
  {
    if |q| > 0 {
      CountLive(q[1..], cancelled, id);
      CountConcat([q[0]], q[1..], id);
      CountConcat([q[0]], Live(q[1..], cancelled), id);
      assert q == [q[0]] + q[1..];
      assert q[0] in q;
      assert [q[0]][..0] == [];
    }
  }

  /** The events of action `action.id` are at time `t`, and perform `action`. */
  ghost predicate OnlyAt(q: seq<Event>, action: Action, t: int) {
    forall e :: e in q && e.action.id == action.id ==> e.time == t && e.action == action
  }

  /** The next execution of `action` is scheduled at `t`, once. */
  ghost predicate NextAt(q: seq<Event>, action: Action, t: int) {
    Count(q, action.id) == 1 && OnlyAt(q, action, t)
  }

  /** How often an action is executed in a step. */
  function Executions(groups: seq<Group>, id: nat): nat {
    CountActions(Flatten(groups), id)
  }

  function CountActions(actions: seq<Action>, id: nat): nat {
    if |actions| == 0 then 0
    else CountActions(actions[..|actions| - 1], id) + (if actions[|actions| - 1].id == id then 1 else 0)
  }

  lemma {:induction false} CountOfActions(due: seq<Event>, id: nat)
    ensures CountActions(Actions(due), id) == Count(due, id)
  {
    if |due| > 0 {
      CountOfActions(due[..|due| - 1], id);
      assert Actions(due)[..|Actions(due)| - 1] == Actions(due[..|due| - 1]);
    }
  }

  lemma {:induction false} SubmitKeepsNext(p: Pending, now: int, requests: seq<Request>, action: Action, t: int)
    requires Planned(p, now) && Unproblematic(requests)
    requires forall i :: 0 <= i < |requests| ==> requests[i].action.id != action.id
    requires NextAt(p.queue, action, t)
    ensures NextAt(Submit(p, now, requests).queue, action, t)
  {
    if |requests| > 0 {
      var n := |requests| - 1;
      SubmitKeepsPlanned(p, now, requests[..n]);
      SubmitKeepsNext(p, now, requests[..n], action, t);
      var q, r := Submit(p, now, requests[..n]), requests[n];
      if Accepted(r, now) {
        var e := Event(r.time, r.origin, q.nextEpoch, r.action);
        CountInsert(q.queue, e, action.id);
        forall x | x in Insert(q.queue, e) && x.action.id == action.id ensures x.time == t && x.action == action {
          InsertMembers(q.queue, e, x);
        }
      }
    }
  }

  /** Inserting a due event again adds one event if it is periodic. */
  lemma {:induction false} RenewedCount(q: Pending, e: Event, action: Action, t: int)
    requires Sorted(q.queue) && OnlyAt(q.queue, action, t) && action.period.Some?
    requires e.action.id == action.id ==> e.action == action && t == e.time + action.period.value
    ensures Count(Renewed(q, e).queue, action.id) ==
      Count(q.queue, action.id) + (if e.action.id == action.id then 1 else 0)
    ensures OnlyAt(Renewed(q, e).queue, action, t)
  {
    if e.action.period.Some? {
      var x := Event(e.time + e.action.period.value, e.origin, q.nextEpoch, e.action);
      CountInsert(q.queue, x, action.id);
      forall y | y in Insert(q.queue, x) && y.action.id == action.id ensures y.time == t && y.action == action {
        InsertMembers(q.queue, x, y);
      }
    }
  }

  /** Rescheduling the due events adds one event for each due event of a periodic action. */
  lemma {:induction false} RescheduledCount(p: Pending, now: int, due: seq<Event>, action: Action, t: int)
    requires Planned(p, now) && PositivePeriods(due) && forall i :: 0 <= i < |due| ==> due[i].time == now
    requires action.period.Some? && OnlyAt(due, action, now) && OnlyAt(p.queue, action, t)
    requires Count(due, action.id) > 0 ==> t == now + action.period.value
    ensures Count(Rescheduled(p, due).queue, action.id) == Count(p.queue, action.id) + Count(due, action.id)
    ensures OnlyAt(Rescheduled(p, due).queue, action, t)
  {
    if |due| > 0 {
      var n := |due| - 1;
      var e := due[n];
      assert due == due[..n] + [e] && e in due;
      ReschedulingKeepsPlanned(p, now, due[..n]);
      RescheduledCount(p, now, due[..n], action, t);
      RenewedCount(Rescheduled(p, due[..n]), e, action, t);
    }
  }

  /** The executor does not reuse the identifier of the action. */
  ghost predicate LeavesAlone<M(!new)>(exec: Executor<M>, id: nat) {
    forall m, t, groups, i {:trigger exec(m, t, groups).requests[i]} ::
      0 <= i < |exec(m, t, groups).requests| ==> exec(m, t, groups).requests[i].action.id != id
  }

  /** The due events are those of the least time. */
  lemma {:induction false} SplitTimes(live: seq<Event>, d: nat)
    requires Sorted(live) && |live| > 0 && d == DueCount(live, live[0].time)
    ensures forall x :: x in live[..d] ==> x in live && x.time == live[0].time
    ensures forall x :: x in live[d..] ==> x in live && live[0].time < x.time
  {
    forall x | x in live[d..] ensures x in live && live[0].time < x.time {
      var i :| 0 <= i < |live[d..]| && live[d..][i] == x;
      assert live[d + i] == x;
      assert i == 0 || Before(live[d], live[d + i]);
      assert d == 0 || Before(live[0], live[d]);
    }
  }

  /** The one event of the action is among the due ones exactly when it is due. */
  lemma {:induction false} SplitNext(live: seq<Event>, d: nat, action: Action, t: int)
    requires Sorted(live) && |live| > 0 && d == DueCount(live, live[0].time) && NextAt(live, action, t)
    ensures live[0].time <= t
    ensures Count(live[..d], action.id) == (if live[0].time == t then 1 else 0)
    ensures Count(live[d..], action.id) == (if live[0].time == t then 0 else 1)
    ensures OnlyAt(live[..d], action, live[0].time) && OnlyAt(live[d..], action, t)
    ensures live[0].time == t ==> forall e :: e in live[d..] ==> e.action.id != action.id
  {
    var due, rest := live[..d], live[d..];
    SplitTimes(live, d);
    assert Count(due, action.id) + Count(rest, action.id) == 1 by {
      assert live == due + rest;
      CountConcat(due, rest, action.id);
    }
    assert OnlyAt(due, action, t) && OnlyAt(rest, action, t);
    if live[0].time == t {
      NotAt(rest, action, t);
    } else {
      NotAt(due, action, t);
      CountMember(rest, action.id);
    }
  }

  lemma {:induction false} NotAt(q: seq<Event>, action: Action, t: int)
    requires OnlyAt(q, action, t) && forall e :: e in q ==> e.time != t
    ensures Count(q, action.id) == 0 && forall e :: e in q ==> e.action.id != action.id
  {
    CountMember(q, action.id);
  }

  lemma {:induction false} RescheduledNext(live: seq<Event>, nextEpoch: nat, before: int, action: Action, t: int,
                                           due: seq<Event>, rest: seq<Event>)
    requires Planned(Pending(live, nextEpoch), before) && |live| > 0 && NextAt(live, action, t) && action.period.Some?
    requires var d := DueCount(live, live[0].time); due == live[..d] && rest == live[d..]
    ensures live[0].time <= t && Count(due, action.id) == (if live[0].time == t then 1 else 0)
    ensures var p := Rescheduled(Pending(rest, nextEpoch), due);
      Planned(p, live[0].time) && NextAt(p.queue, action, if live[0].time == t then t + action.period.value else t)
  {
    var now := live[0].time;
    SplitNext(live, DueCount(live, now), action, t);
    RestIsPlanned(live, nextEpoch, before);
    RescheduledCount(Pending(rest, nextEpoch), now, due, action, if now == t then t + action.period.value else t);
    ReschedulingKeepsPlanned(Pending(rest, nextEpoch), now, due);
  }

  lemma {:induction false} LiveKeepsNext(q: seq<Event>, cancelled: set<nat>, action: Action, t: int)
    requires NextAt(q, action, t) && !IsCancelled(action, cancelled)
    ensures NextAt(Live(q, cancelled), action, t)
  {
    CountLive(q, cancelled, action.id);
    forall e | e in Live(q, cancelled) && e.action.id == action.id ensures e.time == t && e.action == action {
      LiveMembers(q, cancelled, e);
    }
  }

  // ----- An action that is not planned -----

  lemma {:induction false} SubmitKeepsAbsent(p: Pending, now: int, requests: seq<Request>, id: nat)
    requires Planned(p, now) && Unproblematic(requests) && Count(p.queue, id) == 0
    requires forall i :: 0 <= i < |requests| ==> requests[i].action.id != id
    ensures Count(Submit(p, now, requests).queue, id) == 0
  {
    if |requests| > 0 {
      var n := |requests| - 1;
      SubmitKeepsPlanned(p, now, requests[..n]);
      SubmitKeepsAbsent(p, now, requests[..n], id);
      var q, r := Submit(p, now, requests[..n]), requests[n];
      if Accepted(r, now) {
        CountInsert(q.queue, Event(r.time, r.origin, q.nextEpoch, r.action), id);
      }
    }
  }

  lemma {:induction false} RescheduledAbsent(p: Pending, now: int, due: seq<Event>, id: nat)
    requires Planned(p, now) && PositivePeriods(due) && forall i :: 0 <= i < |due| ==> due[i].time == now
    requires Count(p.queue, id) == 0 && Count(due, id) == 0
    ensures Count(Rescheduled(p, due).queue, id) == 0
  {
    if |due| > 0 {
      var n := |due| - 1;
      ReschedulingKeepsPlanned(p, now, due[..n]);
      RescheduledAbsent(p, now, due[..n], id);
      RenewedAbsent(Rescheduled(p, due[..n]), due[n], id);
    }
  }

  lemma {:induction false} RenewedAbsent(q: Pending, e: Event, id: nat)
    requires Sorted(q.queue) && Count(q.queue, id) == 0 && e.action.id != id
    ensures Count(Renewed(q, e).queue, id) == 0
  {
    if e.action.period.Some? {
      CountInsert(q.queue, Event(e.time + e.action.period.value, e.origin, q.nextEpoch, e.action), id);
    }
  }

  /** Nothing of an action is left in a queue in which all its events are cancelled. */
  lemma {:induction false} LiveAbsent(q: seq<Event>, cancelled: set<nat>, id: nat)
    requires forall e :: e in q && e.action.id == id ==> IsCancelled(e.action, cancelled)
    ensures Count(Live(q, cancelled), id) == 0
  {
    CountMember(Live(q, cancelled), id);
    if Count(Live(q, cancelled), id) > 0 {
      var e :| e in Live(q, cancelled) && e.action.id == id;
      LiveMembers(q, cancelled, e);
    }
  }

  lemma {:induction false} RestAbsent(live: seq<Event>, nextEpoch: nat, before: int, id: nat, due: seq<Event>,
                                      rest: seq<Event>)
    requires Planned(Pending(live, nextEpoch), before) && |live| > 0 && Count(live, id) == 0
    requires var d := DueCount(live, live[0].time); due == live[..d] && rest == live[d..]
    ensures Count(due, id) == 0
    ensures var p := Rescheduled(Pending(rest, nextEpoch), due); Planned(p, live[0].time) && Count(p.queue, id) == 0
  {
    assert Count(due, id) == 0 && Count(rest, id) == 0 by {
      assert live == due + rest;
      CountConcat(due, rest, id);
    }
    RestIsPlanned(live, nextEpoch, before);
    RescheduledAbsent(Pending(rest, nextEpoch), live[0].time, due, id);
    ReschedulingKeepsPlanned(Pending(rest, nextEpoch), live[0].time, due);
  }

  /** A step does not execute an action that is not planned, and does not plan it. */
  lemma {:induction false} ExecuteKeepsAbsent<M(!new)>(w: World<M>, exec: Executor<M>, id: nat)
    requires Consistent(w) && IsPositive(exec) && LeavesAlone(exec, id) && |w.live| > 0 && Count(w.live, id) == 0
    ensures Executions(Execute(w, exec).1.groups, id) == 0 && Count(Execute(w, exec).0.live, id) == 0
  {
    var now := w.live[0].time;
    var d := DueCount(w.live, now);
    var due, rest := w.live[..d], w.live[d..];
    RestAbsent(w.live, w.nextEpoch, w.time, id, due, rest);
    GroupsHoldAll(due);
    CountOfActions(due, id);
    var p := Rescheduled(Pending(rest, w.nextEpoch), due);
    var effect := exec(w.model, now, Groups(due));
    SubmitKeepsAbsent(p, now, effect.requests, id);
    var q := Submit(p, now, effect.requests).queue;
    CountMember(q, id);
    LiveAbsent(q, w.cancelled + effect.cancels, id);
  }

  // ----- Over a run -----

  /** What is left of a periodic action: nothing once it is cancelled, and before that one event at `t`. */
  ghost predicate Plans<M>(w: World<M>, action: Action, t: int) {
    if IsCancelled(action, w.cancelled) then Count(w.live, action.id) == 0 else NextAt(w.live, action, t)
  }

  /**
    A step executes a periodic action once if it is due, and then plans it one period later; otherwise
    it leaves it. If the step cancels the action, nothing is left of it.
  */
  lemma {:induction false} ExecuteMovesNext<M(!new)>(w: World<M>, exec: Executor<M>, action: Action, t: int)
    requires Consistent(w) && IsPositive(exec) && LeavesAlone(exec, action.id) && |w.live| > 0
    requires NextAt(w.live, action, t) && action.period.Some?
    ensures var (v, o) := Execute(w, exec);
      && o.time <= t
      && Executions(o.groups, action.id) == (if o.time == t then 1 else 0)
      && Plans(v, action, if o.time == t then t + action.period.value else t)
  {
    var now := w.live[0].time;
    var d := DueCount(w.live, now);
    var due, rest := w.live[..d], w.live[d..];
    var after := if now == t then t + action.period.value else t;
    GroupsHoldAll(due);
    CountOfActions(due, action.id);
    RescheduledNext(w.live, w.nextEpoch, w.time, action, t, due, rest);
    var p := Rescheduled(Pending(rest, w.nextEpoch), due);
    var effect := exec(w.model, now, Groups(due));
    SubmitKeepsNext(p, now, effect.requests, action, after);
    var q, cancelled := Submit(p, now, effect.requests).queue, w.cancelled + effect.cancels;
    if IsCancelled(action, cancelled) {
      LiveAbsent(q, cancelled, action.id);
    } else {
      LiveKeepsNext(q, cancelled, action, after);
    }
  }

  /** `a`, `a + p`, ..., `k` times. */
  function Progression(a: int, p: nat, k: nat): seq<int> {
    if k == 0 then [] else Progression(a, p, k - 1) + [a + (k - 1) * p]
  }

  /** The times at which an action is executed, as often as it is executed. */
  function Times(trace: seq<(int, seq<Group>)>, id: nat): seq<int> {
    if |trace| == 0 then []
    else
      var last := trace[|trace| - 1];
      Times(trace[..|trace| - 1], id) + seq(Executions(last.1, id), _ => last.0)
  }

  /** The action was executed at the first `k` times of its progression; the next is planned unless it is cancelled. */
  ghost predicate OnSchedule<M>(w: World<M>, executed: seq<int>, action: Action, a: int, k: nat)
    requires action.period.Some?
  {
    executed == Progression(a, action.period.value, k) && Plans(w, action, a + k * action.period.value)
  }

  /** A step executes what is planned for it and plans the next execution. */
  lemma {:induction false} StepPlans<M(!new)>(x: World<M>, y: World<M>, entry: (int, seq<Group>), exec: Executor<M>,
                                              action: Action, t: int) returns (due: bool)
    requires IsStep(x, y, entry, exec) && IsPositive(exec) && LeavesAlone(exec, action.id)
    requires action.period.Some? && Plans(x, action, t)
    ensures Executions(entry.1, action.id) == (if due then 1 else 0) && (due ==> entry.0 == t)
    ensures Plans(y, action, if due then t + action.period.value else t)
  {
    due := !IsCancelled(action, x.cancelled) && entry.0 == t;
    if IsCancelled(action, x.cancelled) {
      ExecuteKeepsAbsent(x, exec, action.id);
    } else {
      ExecuteMovesNext(x, exec, action, t);
    }
  }

  lemma {:induction false} ProgressionGrows(a: int, p: nat, k: nat)
    ensures Progression(a, p, k + 1) == Progression(a, p, k) + [a + k * p] && a + (k + 1) * p == a + k * p + p
  {
    assert (k + 1) * p == k * p + p;
  }

  lemma {:induction false} AtMostOneMore(executed: seq<int>, n: nat, t: int)
    requires n <= 1
    ensures executed + seq(n, _ => t) == if n == 0 then executed else executed + [t]
  {
    assert n == 1 ==> seq(n, _ => t) == [t];
  }

  /** One more step. */
  lemma {:induction false} StepOnSchedule<M(!new)>(x: World<M>, y: World<M>, entry: (int, seq<Group>),
                                                   exec: Executor<M>, executed: seq<int>, action: Action, a: int,
                                                   m: nat) returns (k: nat)
    requires IsStep(x, y, entry, exec) && IsPositive(exec) && LeavesAlone(exec, action.id)
    requires action.period.Some? && OnSchedule(x, executed, action, a, m)
    ensures OnSchedule(y, executed + seq(Executions(entry.1, action.id), _ => entry.0), action, a, k)
  {
    var p := action.period.value;
    var due := StepPlans(x, y, entry, exec, action, a + m * p);
    k := if due then m + 1 else m;
    AtMostOneMore(executed, Executions(entry.1, action.id), entry.0);
    ProgressionGrows(a, p, m);
  }

  lemma {:induction false} NextIsInFuture<M>(w: World<M>, action: Action, t: int)
    requires Consistent(w) && NextAt(w.live, action, t)
    ensures w.time < t
  {
    CountMember(w.live, action.id);
    var e :| e in w.live && e.action.id == action.id;
  }

  lemma {:induction false} ChainOnSchedule<M(!new)>(worlds: seq<World<M>>, trace: seq<(int, seq<Group>)>,
                                                    exec: Executor<M>, action: Action, a: int, j: nat) returns (k: nat)
    requires IsChain(worlds, trace, exec) && IsPositive(exec) && LeavesAlone(exec, action.id) && j <= |trace|
    requires NextAt(worlds[0].live, action, a) && action.period.Some? && !IsCancelled(action, worlds[0].cancelled)
    ensures OnSchedule(worlds[j], Times(trace[..j], action.id), action, a, k)
    decreases j
  {
    if j == 0 {
      k := 0;
    } else {
      var m := ChainOnSchedule(worlds, trace, exec, action, a, j - 1);
      assert IsStep(worlds[j - 1], worlds[j], trace[j - 1], exec);
      k := StepOnSchedule(worlds[j - 1], worlds[j], trace[j - 1], exec, Times(trace[..j - 1], action.id), action, a, m);
      assert trace[..j][..j - 1] == trace[..j - 1];
    }
  }

  lemma {:induction false} PlannedIsLive<M>(w: World<M>, action: Action, t: int)
    requires Consistent(w) && NextAt(w.live, action, t)
    ensures !IsCancelled(action, w.cancelled)
  {
    CountMember(w.live, action.id);
    var e :| e in w.live && e.action.id == action.id;
    var i :| 0 <= i < |w.live| && w.live[i] == e;
    assert !IsCancelled(w.live[i].action, w.cancelled);
  }

  /**
    At every point of any run, a periodic action planned at `a` with period `p` was executed at exactly
    `a`, `a + p`, `a + 2p`, ..., once each. Unless it is cancelled it is then planned at the next of these
    times; if it is cancelled nothing is planned, and the next step does not execute it.
  */
  lemma {:induction false} PeriodicTimes<M(!new)>(w: World<M>, target: int, exec: Executor<M>, action: Action, a: int,
                                                  j: nat)
    returns (k: nat)
    requires Consistent(w) && IsPositive(exec) && LeavesAlone(exec, action.id) && w.time <= target
    requires NextAt(w.live, action, a) && action.period.Some? && j <= |StepUntil(w, target, exec).trace|
    ensures IsChain(Worlds(w, target, exec), StepUntil(w, target, exec).trace, exec)
    ensures
      OnSchedule(Worlds(w, target, exec)[j], Times(StepUntil(w, target, exec).trace[..j], action.id), action, a, k)
    ensures j < |StepUntil(w, target, exec).trace| && IsCancelled(action, Worlds(w, target, exec)[j].cancelled) ==>
      Executions(StepUntil(w, target, exec).trace[j].1, action.id) == 0
  {
    RunIsChain(w, target, exec);
    PlannedIsLive(w, action, a);
    var worlds, trace := Worlds(w, target, exec), StepUntil(w, target, exec).trace;
    k := ChainOnSchedule(worlds, trace, exec, action, a, j);
    if j < |trace| && IsCancelled(action, worlds[j].cancelled) {
      assert IsStep(worlds[j], worlds[j + 1], trace[j], exec);
      ExecuteKeepsAbsent(worlds[j], exec, action.id);
    }
  }

  /** Over a whole run: none of the times up to the current one was missed, unless the action was cancelled. */
  lemma {:induction false} PeriodicTimesOfRun<M(!new)>(w: World<M>, target: int, exec: Executor<M>, action: Action,
                                                       a: int)
    returns (k: nat)
    requires Consistent(w) && IsPositive(exec) && LeavesAlone(exec, action.id) && w.time <= target
    requires NextAt(w.live, action, a) && action.period.Some?
    ensures var r := StepUntil(w, target, exec);
      && OnSchedule(r.world, Times(r.trace, action.id), action, a, k)
      && (!IsCancelled(action, r.world.cancelled) ==> r.world.time < a + k * action.period.value)
  {
    var r := StepUntil(w, target, exec);
    k := PeriodicTimes(w, target, exec, action, a, |r.trace|);
    RunIsChain(w, target, exec);
    assert r.trace[..|r.trace|] == r.trace;
    if !IsCancelled(action, r.world.cancelled) {
      RunReachesTarget(w, target, exec);
      NextIsInFuture(r.world, action, a + k * action.period.value);
    }
  }

  // ----- Cancellation -----

  ghost predicate NoneWithKey(groups: seq<Group>, key: nat) {
    forall a :: a in Flatten(groups) ==> a.key != Some(key)
  }

  lemma {:induction false} ActionsMembers(due: seq<Event>, a: Action)
    requires a in Actions(due)
    ensures exists i :: 0 <= i < |due| && due[i].action == a
  {
    var n := |due| - 1;
    if a == due[n].action {
      assert due[n].action == a;
    } else {
      ActionsMembers(due[..n], a);
      var i :| 0 <= i < n && due[..n][i].action == a;
      assert due[i].action == a;
    }
  }

  lemma {:induction false} StepSkipsCancelled<M(!new)>(w: World<M>, exec: Executor<M>, key: nat)
    requires Consistent(w) && |w.live| > 0 && key in w.cancelled
    ensures NoneWithKey(Execute(w, exec).1.groups, key)
  {
    var due := w.live[..DueCount(w.live, w.live[0].time)];
    GroupsHoldAll(due);
    forall a | a in Actions(due) ensures a.key != Some(key) {
      ActionsMembers(due, a);
      var i :| 0 <= i < |due| && due[i].action == a;
      assert !IsCancelled(w.live[i].action, w.cancelled);
    }
  }

  lemma {:induction false} CancelledGrows<M>(worlds: seq<World<M>>, trace: seq<(int, seq<Group>)>, exec: Executor<M>,
                                             i: nat, j: nat)
    requires IsChain(worlds, trace, exec) && i <= j <= |trace|
    ensures worlds[i].cancelled <= worlds[j].cancelled
    decreases j
  {
    if i < j {
      CancelledGrows(worlds, trace, exec, i, j - 1);
      assert IsStep(worlds[j - 1], worlds[j], trace[j - 1], exec);
    }
  }

  /** An action cancelled before or during a run is not executed by any later step of the run. */
  lemma {:induction false} CancelledNeverExecuted<M(!new)>(w: World<M>, target: int, exec: Executor<M>, key: nat,
                                                           i: nat, j: nat)
    requires Consistent(w) && IsPositive(exec) && w.time <= target && i <= j < |StepUntil(w, target, exec).trace|
    ensures IsChain(Worlds(w, target, exec), StepUntil(w, target, exec).trace, exec)
    ensures key in Worlds(w, target, exec)[i].cancelled ==> NoneWithKey(StepUntil(w, target, exec).trace[j].1, key)
  {
    RunIsChain(w, target, exec);
    var worlds, trace := Worlds(w, target, exec), StepUntil(w, target, exec).trace;
    if key in worlds[i].cancelled {
      CancelledGrows(worlds, trace, exec, i, j);
      assert IsStep(worlds[j], worlds[j + 1], trace[j], exec);
      StepSkipsCancelled(worlds[j], exec, key);
    }
  }
}
