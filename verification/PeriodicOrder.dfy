/** Two periodic actions of one origin and one period: they stay in order over any run. */
module PeriodicOrder {
  import opened Options
  import opened Agenda
  import opened Stepping
  import opened SteppingRuns
  import opened Periodic

  /** The epoch that the `i`-th due event gets when it is inserted again. */
  function RenewedEpoch(p: Pending, due: seq<Event>, i: nat): nat
    requires i < |due|
  {
    Rescheduled(p, due[..i]).nextEpoch
  }

  lemma {:induction false} EpochsGrow(p: Pending, due: seq<Event>, i: nat, j: nat)
    requires i <= j <= |due|
    ensures Rescheduled(p, due[..i]).nextEpoch <= Rescheduled(p, due[..j]).nextEpoch
    decreases j
  {
    if i < j {
      EpochsGrow(p, due, i, j - 1);
      assert due[..j][..j - 1] == due[..j - 1];
    }
  }

  lemma {:induction false} RenewedIsPlanned(p: Pending, due: seq<Event>, i: nat, n: nat)
    requires i < n <= |due| && due[i].action.period.Some?
    ensures Event(due[i].time + due[i].action.period.value, due[i].origin, RenewedEpoch(p, due, i), due[i].action)
         in Rescheduled(p, due[..n]).queue
    decreases n
  {
    var e := Event(due[i].time + due[i].action.period.value, due[i].origin, RenewedEpoch(p, due, i), due[i].action);
    assert due[..n][..n - 1] == due[..n - 1];
    var q := Rescheduled(p, due[..n - 1]);
    if i < n - 1 {
      RenewedIsPlanned(p, due, i, n - 1);
    }
    if due[n - 1].action.period.Some? {
      var f := due[n - 1];
      InsertMembers(q.queue, Event(f.time + f.action.period.value, f.origin, q.nextEpoch, f.action), e);
    }
  }

  /**
    Two due events of the same origin with the same period, of which the first comes first: their next
    executions are planned at the same time, and the first comes first again.
  */
  lemma {:induction false} RenewalKeepsOrder(p: Pending, due: seq<Event>, i: nat, j: nat) returns (a: Event, b: Event)
    requires i < j < |due| && due[i].time == due[j].time && due[i].origin == due[j].origin
    requires due[i].action.period.Some? && due[i].action.period == due[j].action.period
    ensures a in Rescheduled(p, due).queue && b in Rescheduled(p, due).queue
    ensures a.action == due[i].action && b.action == due[j].action && a.origin == b.origin == due[i].origin
    ensures a.time == b.time == due[i].time + due[i].action.period.value && Before(a, b)
  {
    a := Event(due[i].time + due[i].action.period.value, due[i].origin, RenewedEpoch(p, due, i), due[i].action);
    b := Event(due[j].time + due[j].action.period.value, due[j].origin, RenewedEpoch(p, due, j), due[j].action);
    RenewedIsPlanned(p, due, i, |due|);
    RenewedIsPlanned(p, due, j, |due|);
    assert due[..|due|] == due;
    EpochsGrow(p, due, i + 1, j);
    assert due[..i + 1][..i] == due[..i];
  }

  // ----- The groups of a step -----

  function LastActions(due: seq<Event>): seq<Action>
    requires |due| > 0
  {
    LastGroup(due);
    Groups(due)[|Groups(due)| - 1].actions
  }

  /** An event of the origin of the last group joins it. */
  lemma {:induction false} JoinsLastGroup(due: seq<Event>)
    requires |due| > 1 && due[|due| - 2].origin == due[|due| - 1].origin
    ensures LastActions(due) == LastActions(due[..|due| - 1]) + [due[|due| - 1].action]
  {
    LastGroup(due[..|due| - 1]);
  }

  /** The last group holds every due event of its origin. */
  lemma {:induction false} InLastGroup(due: seq<Event>, t: int, i: nat) returns (k: nat)
    requires Sorted(due) && (forall j :: 0 <= j < |due| ==> due[j].time == t)
    requires i < |due| && due[i].origin == due[|due| - 1].origin
    ensures k < |LastActions(due)| && LastActions(due)[k] == due[i].action
    ensures i < |due| - 1 ==> k < |LastActions(due)| - 1
  {
    var n := |due| - 1;
    if i == n {
      k := |LastActions(due)| - 1;
    } else {
      assert Before(due[n - 1], due[n]) && (i == n - 1 || Before(due[i], due[n - 1]));
      assert due[..n][n - 1] == due[n - 1];
      k := InLastGroup(due[..n], t, i);
      JoinsLastGroup(due);
    }
  }

  /** Two due events of one origin are in one group, in the order of the queue. */
  lemma {:induction false} InOneGroup(due: seq<Event>, t: int, i: nat, j: nat) returns (g: nat, k: nat, l: nat)
    requires Sorted(due) && (forall m :: 0 <= m < |due| ==> due[m].time == t)
    requires i < j < |due| && due[i].origin == due[j].origin
    ensures g < |Groups(due)| && k < l < |Groups(due)[g].actions|
    ensures Groups(due)[g].actions[k] == due[i].action && Groups(due)[g].actions[l] == due[j].action
  {
    var n := |due| - 1;
    if j == n {
      g := |Groups(due)| - 1;
      k := InLastGroup(due, t, i);
      LastGroup(due);
      l := |Groups(due)[g].actions| - 1;
    } else {
      g, k, l := InOneGroup(due[..n], t, i, j);
    }
  }

  /** Both actions are executed or neither is; both in one group, `x` before `y`. */
  ghost predicate Together(groups: seq<Group>, x: Action, y: Action) {
    && Executions(groups, x.id) == Executions(groups, y.id) <= 1
    && (Executions(groups, x.id) == 1 ==>
          exists g, k, l :: 0 <= g < |groups| && 0 <= k < l < |groups[g].actions|
                            && groups[g].actions[k] == x && groups[g].actions[l] == y)
  }

  // ----- A step -----

  /** The events of `x` come before those of `y` and have the same origin. */
  ghost predicate Leads(q: seq<Event>, x: Action, y: Action) {
    forall e, f :: e in q && f in q && e.action.id == x.id && f.action.id == y.id ==>
      e.origin == f.origin && Before(e, f)
  }

  /** Both actions are planned at `t` by one origin, `x` before `y`. */
  ghost predicate InLine(q: seq<Event>, x: Action, y: Action, t: int) {
    NextAt(q, x, t) && NextAt(q, y, t) && Leads(q, x, y)
  }

  /** An event that a step leaves is in the queue before it, unless its action was due or requested. */
  lemma {:induction false} RescheduledMembers(p: Pending, due: seq<Event>, e: Event)
    requires e in Rescheduled(p, due).queue && Count(due, e.action.id) == 0
    ensures e in p.queue
  {
    if |due| > 0 {
      var n := |due| - 1;
      var q, f := Rescheduled(p, due[..n]), due[n];
      if f.action.period.Some? {
        InsertMembers(q.queue, Event(f.time + f.action.period.value, f.origin, q.nextEpoch, f.action), e);
      }
      RescheduledMembers(p, due[..n], e);
    }
  }

  lemma {:induction false} SubmittedMembers(p: Pending, now: int, requests: seq<Request>, e: Event)
    requires e in Submit(p, now, requests).queue
    requires forall i :: 0 <= i < |requests| ==> requests[i].action.id != e.action.id
    ensures e in p.queue
  {
    if |requests| > 0 {
      var n := |requests| - 1;
      var q, r := Submit(p, now, requests[..n]), requests[n];
      if Accepted(r, now) {
        InsertMembers(q.queue, Event(r.time, r.origin, q.nextEpoch, r.action), e);
      }
      SubmittedMembers(p, now, requests[..n], e);
    }
  }

  lemma {:induction false} CountSplit(q: seq<Event>, i: nat, id: nat)
    requires i < |q| && q[i].action.id == id
    ensures Count(q, id) == Count(q[..i], id) + 1 + Count(q[i + 1..], id)
  {
    assert q == q[..i] + [q[i]] + q[i + 1..];
    CountConcat(q[..i] + [q[i]], q[i + 1..], id);
    CountConcat(q[..i], [q[i]], id);
    assert [q[i]][..0] == [];
  }

  lemma {:induction false} CountTwo(q: seq<Event>, i: nat, j: nat)
    requires i < j < |q| && q[i].action.id == q[j].action.id
    ensures Count(q, q[i].action.id) >= 2
  {
    CountSplit(q, i, q[i].action.id);
    CountMember(q[i + 1..], q[i].action.id);
    assert q[i + 1..][j - i - 1] in q[i + 1..];
  }

  /** An action planned once has one event. */
  lemma {:induction false} OneEvent(q: seq<Event>, e: Event, f: Event)
    requires Count(q, e.action.id) == 1 && f.action.id == e.action.id && e in q && f in q
    ensures e == f
  {
    var i :| 0 <= i < |q| && q[i] == e;
    var j :| 0 <= j < |q| && q[j] == f;
    if i < j {
      CountTwo(q, i, j);
    } else if j < i {
      CountTwo(q, j, i);
    }
  }

  lemma {:induction false} PlaceOf(q: seq<Event>, action: Action, t: int) returns (i: nat)
    requires NextAt(q, action, t)
    ensures i < |q| && q[i].action == action && q[i].time == t
  {
    CountMember(q, action.id);
    var e :| e in q && e.action.id == action.id;
    i :| 0 <= i < |q| && q[i] == e;
  }

  /** The places of two actions in line. */
  lemma {:induction false} Places(q: seq<Event>, x: Action, y: Action, t: int) returns (i: nat, j: nat)
    requires Sorted(q) && InLine(q, x, y, t)
    ensures i < j < |q| && q[i].action == x && q[j].action == y
    ensures q[i].time == q[j].time == t && q[i].origin == q[j].origin
  {
    i := PlaceOf(q, x, t);
    j := PlaceOf(q, y, t);
    assert Before(q[i], q[j]);
  }

  /** What a step executes of two actions in line. */
  lemma {:induction false} GroupsTogether(live: seq<Event>, x: Action, y: Action, t: int, d: nat)
    requires Sorted(live) && |live| > 0 && InLine(live, x, y, t) && d == DueCount(live, live[0].time)
    ensures Together(Groups(live[..d]), x, y)
  {
    var due := live[..d];
    SplitNext(live, d, x, t);
    SplitNext(live, d, y, t);
    GroupsHoldAll(due);
    CountOfActions(due, x.id);
    CountOfActions(due, y.id);
    if live[0].time == t {
      assert NextAt(due, x, t) && NextAt(due, y, t);
      LeadsIn(live, due, x, y);
      var i, j := Places(due, x, y, t);
      var g, k, l := InOneGroup(due, t, i, j);
    }
  }

  lemma {:induction false} LeadsIn(q: seq<Event>, r: seq<Event>, x: Action, y: Action)
    requires Leads(q, x, y) && forall e :: e in r && (e.action.id == x.id || e.action.id == y.id) ==> e in q
    ensures Leads(r, x, y)
  {
  }

  /** Two actions in line that are due are in line again, one period later. */
  lemma {:induction false} RenewalKeepsLine(p: Pending, due: seq<Event>, x: Action, y: Action, t: int)
    requires Sorted(due) && InLine(due, x, y, t) && x.period.Some? && x.period == y.period
    requires NextAt(Rescheduled(p, due).queue, x, t + x.period.value)
    requires NextAt(Rescheduled(p, due).queue, y, t + x.period.value)
    ensures Leads(Rescheduled(p, due).queue, x, y)
  {
    var i, j := Places(due, x, y, t);
    var a, b := RenewalKeepsOrder(p, due, i, j);
    var q := Rescheduled(p, due).queue;
    forall e, f | e in q && f in q && e.action.id == x.id && f.action.id == y.id
      ensures e.origin == f.origin && Before(e, f)
    {
      OneEvent(q, a, e);
      OneEvent(q, b, f);
    }
  }

  /** The planned next executions of two actions in line, after the due events were pulled. */
  lemma {:induction false} ReschedulingKeepsLine(live: seq<Event>, nextEpoch: nat, before: int, x: Action, y: Action,
                                                 t: int, due: seq<Event>, rest: seq<Event>)
    requires Planned(Pending(live, nextEpoch), before) && |live| > 0 && InLine(live, x, y, t)
    requires x.period.Some? && x.period == y.period
    requires var d := DueCount(live, live[0].time); due == live[..d] && rest == live[d..]
    ensures Leads(Rescheduled(Pending(rest, nextEpoch), due).queue, x, y)
  {
    var d := DueCount(live, live[0].time);
    SplitNext(live, d, x, t);
    SplitNext(live, d, y, t);
    RescheduledNext(live, nextEpoch, before, x, t, due, rest);
    RescheduledNext(live, nextEpoch, before, y, t, due, rest);
    var p := Pending(rest, nextEpoch);
    if live[0].time == t {
      LeadsIn(live, due, x, y);
      RenewalKeepsLine(p, due, x, y, t);
    } else {
      forall e | e in Rescheduled(p, due).queue && (e.action.id == x.id || e.action.id == y.id) ensures e in live {
        RescheduledMembers(p, due, e);
      }
      LeadsIn(live, Rescheduled(p, due).queue, x, y);
    }
  }

  /** A step executes two actions in line together, and leaves them in line unless it cancels one of them. */
  lemma {:induction false} ExecuteKeepsLine<M(!new)>(w: World<M>, exec: Executor<M>, x: Action, y: Action, t: int)
    returns (u: int)
    requires Consistent(w) && IsPositive(exec) && LeavesAlone(exec, x.id) && LeavesAlone(exec, y.id) && |w.live| > 0
    requires InLine(w.live, x, y, t) && x.period.Some? && x.period == y.period
    ensures Together(Execute(w, exec).1.groups, x, y)
    ensures var v := Execute(w, exec).0;
      IsCancelled(x, v.cancelled) || IsCancelled(y, v.cancelled) || InLine(v.live, x, y, u)
  {
    var now := w.live[0].time;
    var d := DueCount(w.live, now);
    u := if now == t then t + x.period.value else t;
    GroupsTogether(w.live, x, y, t, d);
    ExecuteMovesNext(w, exec, x, t);
    ExecuteMovesNext(w, exec, y, t);
    ReschedulingKeepsLine(w.live, w.nextEpoch, w.time, x, y, t, w.live[..d], w.live[d..]);
    var p := Rescheduled(Pending(w.live[d..], w.nextEpoch), w.live[..d]);
    var effect := exec(w.model, now, Groups(w.live[..d]));
    LaterKeepsLine(p, now, effect.requests, w.cancelled + effect.cancels, x, y);
  }

  lemma {:induction false} LaterKeepsLine(p: Pending, now: int, requests: seq<Request>, cancelled: set<nat>, x: Action,
                                          y: Action)
    requires Leads(p.queue, x, y)
    requires forall i :: 0 <= i < |requests| ==> requests[i].action.id != x.id && requests[i].action.id != y.id
    ensures Leads(Live(Submit(p, now, requests).queue, cancelled), x, y)
  {
    var q := Submit(p, now, requests).queue;
    forall e | e in Live(q, cancelled) && (e.action.id == x.id || e.action.id == y.id) ensures e in p.queue {
      LiveMembers(q, cancelled, e);
      SubmittedMembers(p, now, requests, e);
    }
    LeadsIn(p.queue, Live(q, cancelled), x, y);
  }

  // ----- Over a run -----

  lemma {:induction false} ChainKeepsLine<M(!new)>(worlds: seq<World<M>>, trace: seq<(int, seq<Group>)>,
                                                   exec: Executor<M>, x: Action, y: Action, t: int,
                                                   j: nat) returns (u: int)
    requires IsChain(worlds, trace, exec) && IsPositive(exec) && LeavesAlone(exec, x.id) && LeavesAlone(exec, y.id)
    requires InLine(worlds[0].live, x, y, t) && x.period.Some? && x.period == y.period && j <= |trace|
    ensures
      IsCancelled(x, worlds[j].cancelled) || IsCancelled(y, worlds[j].cancelled) || InLine(worlds[j].live, x, y, u)
    decreases j
  {
    u := t;
    if j > 0 {
      var m := ChainKeepsLine(worlds, trace, exec, x, y, t, j - 1);
      assert IsStep(worlds[j - 1], worlds[j], trace[j - 1], exec);
      if InLine(worlds[j - 1].live, x, y, m) {
        u := ExecuteKeepsLine(worlds[j - 1], exec, x, y, m);
      }
    }
  }

  /**
    Two actions planned at one time by one origin with one period, `x` before `y`: as long as neither is
    cancelled, every step of every run executes both or neither, in one group and `x` first.
  */
  lemma {:induction false} SamePeriodKeepsOrder<M(!new)>(w: World<M>, target: int, exec: Executor<M>, x: Action,
                                                         y: Action, t: int, j: nat)
    requires Consistent(w) && IsPositive(exec) && LeavesAlone(exec, x.id) && LeavesAlone(exec, y.id) && w.time <= target
    requires InLine(w.live, x, y, t) && x.period.Some? && x.period == y.period
    requires j < |StepUntil(w, target, exec).trace|
    ensures IsChain(Worlds(w, target, exec), StepUntil(w, target, exec).trace, exec)
    ensures var now := Worlds(w, target, exec)[j];
      || IsCancelled(x, now.cancelled) || IsCancelled(y, now.cancelled)
      || Together(StepUntil(w, target, exec).trace[j].1, x, y)
  {
    RunIsChain(w, target, exec);
    var worlds, trace := Worlds(w, target, exec), StepUntil(w, target, exec).trace;
    var u := ChainKeepsLine(worlds, trace, exec, x, y, t, j);
    assert IsStep(worlds[j], worlds[j + 1], trace[j], exec);
    if !IsCancelled(x, worlds[j].cancelled) && !IsCancelled(y, worlds[j].cancelled) {
      var _ := ExecuteKeepsLine(worlds[j], exec, x, y, u);
    }
  }
}
