/**
  What a simulation step does to the events that are not cancelled, for any executor: the
  executor is an arbitrary function of the model state, the time and the batch of actions spawned,
  that returns the new model state, the requests and cancellations made meanwhile, and whether the
  simulation was halted or failed.
*/
module Stepping {
  import opened Options
  import opened Agenda

  /** Actions of one origin, executed one after the other. */
  datatype Group = Group(origin: nat, actions: seq<Action>)

  /** A request to schedule an action; `checked` if made through a function that refuses null periods. */
  datatype Request = Request(time: int, origin: nat, action: Action, checked: bool)

  datatype Effect<M> = Effect(model: M, requests: seq<Request>, cancels: set<nat>, halt: bool, error: Option<nat>)

  type Executor<!M> = (M, int, seq<Group>) -> Effect<M>

  datatype Error = Terminated | Halted | Execution(code: nat)

  datatype World<M> = World(
    time: int,
    live: seq<Event>,
    nextEpoch: nat,
    cancelled: set<nat>,
    model: M,
    halted: bool,
    terminated: bool)

  /** A step: what was executed and whether it failed, or that there is no event in time, or a refusal. */
  datatype Outcome = Stepped(time: int, groups: seq<Group>, error: Option<nat>) | NoEvent | Refused(reason: Error)

  /** A queue and the next epoch. */
  datatype Pending = Pending(queue: seq<Event>, nextEpoch: nat)

  /** `schedule_from` and the like: the time must be in the future of `now`. */
  predicate Accepted(r: Request, now: int) {
    now < r.time && !(r.checked && r.action.period == Some(0))
  }

  function Add(p: Pending, time: int, origin: nat, action: Action): Pending {
    Pending(Insert(p.queue, Event(time, origin, p.nextEpoch, action)), p.nextEpoch + 1)
  }

  function Submit(p: Pending, now: int, requests: seq<Request>): Pending {
    if |requests| == 0 then p
    else
      var q := Submit(p, now, requests[..|requests| - 1]);
      var r := requests[|requests| - 1];
      if Accepted(r, now) then Add(q, r.time, r.origin, r.action) else q
  }

  /** The number of events at time `t` at the front of a queue. */
  function DueCount(q: seq<Event>, t: int): (d: nat)
    ensures d <= |q| && (forall i :: 0 <= i < d ==> q[i].time == t) && (d < |q| ==> q[d].time != t)
  {
    if |q| == 0 || q[0].time != t then 0 else 1 + DueCount(q[1..], t)
  }

  /** The queue after the due events were pulled one by one, each periodic one being inserted again. */
  function Rescheduled(p: Pending, due: seq<Event>): Pending {
    if |due| == 0 then p
    else
      var q := Rescheduled(p, due[..|due| - 1]);
      Renewed(q, due[|due| - 1])
  }

  function Renewed(p: Pending, e: Event): Pending {
    match e.action.period
    case None => p
    case Some(period) => Add(p, e.time + period, e.origin, e.action)
  }

  /** The due events by origin. */
  function Groups(due: seq<Event>): seq<Group> {
    if |due| == 0 then []
    else
      var g := Groups(due[..|due| - 1]);
      var e := due[|due| - 1];
      if |g| > 0 && g[|g| - 1].origin == e.origin then
        g[|g| - 1 := Group(e.origin, g[|g| - 1].actions + [e.action])]
      else g + [Group(e.origin, [e.action])]
  }

  lemma {:induction false} LastGroup(due: seq<Event>)
    requires |due| > 0
    ensures var g := Groups(due); |g| > 0 && g[|g| - 1].origin == due[|due| - 1].origin
  {
  }

  function Execute<M>(w: World<M>, exec: Executor<M>): (World<M>, Outcome)
    requires |w.live| > 0
  {
    var t := w.live[0].time;
    var d := DueCount(w.live, t);
    var p := Rescheduled(Pending(w.live[d..], w.nextEpoch), w.live[..d]);
    var groups := Groups(w.live[..d]);
    var effect := exec(w.model, t, groups);
    var q := Submit(p, t, effect.requests);
    var cancelled := w.cancelled + effect.cancels;
    (World(t, Live(q.queue, cancelled), q.nextEpoch, cancelled, effect.model, effect.halt, effect.error.Some?),
     Stepped(t, groups, effect.error))
  }

  predicate InTime(time: int, bound: Option<int>) {
    bound.None? || time <= bound.value
  }

  /** `step_to_next`. */
  function StepToNext<M>(w: World<M>, bound: Option<int>, exec: Executor<M>): (World<M>, Outcome) {
    if w.terminated then (w, Refused(Terminated))
    else if w.halted then (w.(terminated := true), Refused(Halted))
    else if |w.live| == 0 || !InTime(w.live[0].time, bound) then (w, NoEvent)
    else Execute(w, exec)
  }

  // ----- What every step keeps -----

  predicate PositivePeriods(q: seq<Event>) {
    forall i :: 0 <= i < |q| ==> q[i].action.period != Some(0)
  }

  predicate AllAfter(q: seq<Event>, time: int) {
    forall i :: 0 <= i < |q| ==> time < q[i].time
  }

  /** The queue is ordered, and every event lies strictly in the future. */
  predicate Planned(p: Pending, now: int) {
    Sorted(p.queue) && Numbered(p.queue, p.nextEpoch) && AllAfter(p.queue, now) && PositivePeriods(p.queue)
  }

  predicate NoneCancelled(q: seq<Event>, cancelled: set<nat>) {
    forall i :: 0 <= i < |q| ==> !IsCancelled(q[i].action, cancelled)
  }

  predicate Consistent<M>(w: World<M>) {
    Planned(Pending(w.live, w.nextEpoch), w.time) && NoneCancelled(w.live, w.cancelled)
  }

  /** The executor schedules no action with a null period through an unchecked function. */
  ghost predicate IsPositive<M(!new)>(exec: Executor<M>) {
    forall m, t, groups, i {:trigger exec(m, t, groups).requests[i]} ::
      0 <= i < |exec(m, t, groups).requests| ==>
        exec(m, t, groups).requests[i].checked || exec(m, t, groups).requests[i].action.period != Some(0)
  }

  lemma {:induction false} AddKeepsPlanned(p: Pending, now: int, time: int, origin: nat, action: Action)
    requires Planned(p, now) && now < time && action.period != Some(0)
    ensures Planned(Add(p, time, origin, action), now)
  {
    var e := Event(time, origin, p.nextEpoch, action);
    InsertKeepsSorted(p.queue, e);
    var r := Insert(p.queue, e);
    forall i | 0 <= i < |r| ensures now < r[i].time && r[i].action.period != Some(0) {
      InsertMembers(p.queue, e, r[i]);
    }
  }

  predicate Unproblematic(requests: seq<Request>) {
    forall i :: 0 <= i < |requests| ==> requests[i].checked || requests[i].action.period != Some(0)
  }

  lemma {:induction false} SubmitKeepsPlanned(p: Pending, now: int, requests: seq<Request>)
    requires Planned(p, now) && Unproblematic(requests)
    ensures Planned(Submit(p, now, requests), now)
  {
    if |requests| > 0 {
      var n := |requests| - 1;
      SubmitKeepsPlanned(p, now, requests[..n]);
      if Accepted(requests[n], now) {
        AddKeepsPlanned(Submit(p, now, requests[..n]), now, requests[n].time, requests[n].origin, requests[n].action);
      }
    }
  }

  lemma {:induction false} ReschedulingKeepsPlanned(p: Pending, now: int, due: seq<Event>)
    requires Planned(p, now) && PositivePeriods(due) && forall i :: 0 <= i < |due| ==> due[i].time == now
    ensures Planned(Rescheduled(p, due), now)
  {
    if |due| > 0 {
      var n := |due| - 1;
      ReschedulingKeepsPlanned(p, now, due[..n]);
      if due[n].action.period.Some? {
        AddKeepsPlanned(Rescheduled(p, due[..n]), now, now + due[n].action.period.value, due[n].origin, due[n].action);
      }
    }
  }

  lemma {:induction false} LiveKeepsPlanned(p: Pending, now: int, cancelled: set<nat>)
    requires Planned(p, now)
    ensures Planned(Pending(Live(p.queue, cancelled), p.nextEpoch), now)
    ensures NoneCancelled(Live(p.queue, cancelled), cancelled)
  {
    LiveIsSorted(p.queue, cancelled);
    LiveIsNumbered(p.queue, cancelled, p.nextEpoch);
    var live := Live(p.queue, cancelled);
    forall i | 0 <= i < |live|
      ensures now < live[i].time && live[i].action.period != Some(0) && !IsCancelled(live[i].action, cancelled)
    {
      LiveMembers(p.queue, cancelled, live[i]);
    }
  }

  /** The events that remain once the due ones are pulled lie strictly after them. */
  lemma {:induction false} RestIsPlanned(q: seq<Event>, nextEpoch: nat, now: int)
    requires Planned(Pending(q, nextEpoch), now) && |q| > 0
    ensures var t := q[0].time; var d := DueCount(q, t); d > 0 && Planned(Pending(q[d..], nextEpoch), t)
  {
    var t := q[0].time;
    var d := DueCount(q, t);
    forall i | 0 <= i < |q[d..]| ensures t < q[d..][i].time {
      assert Before(q[0], q[d]);
    }
  }

  /** Every step keeps the queue ordered and strictly in the future; time moves forward, within the bound. */
  lemma {:induction false} StepKeepsConsistent<M(!new)>(w: World<M>, bound: Option<int>, exec: Executor<M>)
    requires Consistent(w) && IsPositive(exec)
    ensures var (v, o) := StepToNext(w, bound, exec);
      && Consistent(v)
      && (o.Stepped? ==> v.time == o.time > w.time && InTime(o.time, bound))
      && (!o.Stepped? ==> v == w.(terminated := v.terminated))
  {
    if !w.terminated && !w.halted && |w.live| > 0 && InTime(w.live[0].time, bound) {
      var t := w.live[0].time;
      var d := DueCount(w.live, t);
      RestIsPlanned(w.live, w.nextEpoch, w.time);
      ReschedulingKeepsPlanned(Pending(w.live[d..], w.nextEpoch), t, w.live[..d]);
      var p := Rescheduled(Pending(w.live[d..], w.nextEpoch), w.live[..d]);
      var effect := exec(w.model, t, Groups(w.live[..d]));
      SubmitKeepsPlanned(p, t, effect.requests);
      LiveKeepsPlanned(Submit(p, t, effect.requests), t, w.cancelled + effect.cancels);
    }
  }
}
