/** The event loop of a simulation. */
module EventLoop {
  import opened Options
  import opened Agenda
  import opened Stepping
  import opened Draining
  import opened SteppingRuns

  /** What a step returns: the time it moved to, or that there is no event in time, or an error. */
  datatype StepResult = Moved(time: int) | Nothing | Failed(reason: Error)

  function ResultOf(o: Outcome): StepResult {
    match o
    case Stepped(t, _, None) => Moved(t)
    case Stepped(_, _, Some(code)) => Failed(Execution(code))
    case NoEvent => Nothing
    case Refused(reason) => Failed(reason)
  }

  /** The key of the first event, if it is in time. */
  function FrontKey(live: seq<Event>, bound: Option<int>): Option<(int, nat)> {
    if |live| > 0 && InTime(live[0].time, bound) then Some((live[0].time, live[0].origin)) else None
  }

  lemma {:induction false} TailIsSorted(q: seq<Event>, nextEpoch: nat)
    requires Sorted(q) && Numbered(q, nextEpoch) && PositivePeriods(q) && |q| > 0
    ensures Sorted(q[1..]) && Numbered(q[1..], nextEpoch) && PositivePeriods(q[1..])
  {
  }

  /** The queue is ordered. */
  predicate Queued(p: Pending) {
    Sorted(p.queue) && Numbered(p.queue, p.nextEpoch) && PositivePeriods(p.queue)
  }

  lemma {:induction false} RenewalKeepsQueued(p: Pending, e: Event)
    requires Queued(p) && e.action.period != Some(0)
    ensures Queued(Renewed(p, e))
  {
    if e.action.period.Some? {
      var x := Event(e.time + e.action.period.value, e.origin, p.nextEpoch, e.action);
      InsertKeepsSorted(p.queue, x);
      var r := Insert(p.queue, x);
      forall i | 0 <= i < |r| ensures r[i].action.period != Some(0) {
        InsertMembers(p.queue, x, r[i]);
      }
    }
  }

  class Simulation<M(!new)> {
    const exec: Executor<M>
    var time: int
    var queue: seq<Event>
    var nextEpoch: nat
    var cancelled: set<nat>
    var model: M
    var halted: bool
    var terminated: bool
    ghost var executed: seq<Group>     // what the last step executed

    /** The world without its cancelled events. */
    ghost function View(): World<M>
      reads this
    {
      World(time, Live(queue, cancelled), nextEpoch, cancelled, model, halted, terminated)
    }

    ghost predicate Valid()
      reads this
    {
      Planned(Pending(queue, nextEpoch), time) && IsPositive(exec)
    }

    ghost function LiveQueue(): Pending
      reads this
    {
      Pending(Live(queue, cancelled), nextEpoch)
    }

    constructor (exec: Executor<M>, model: M, time: int)
      ensures this.exec == exec && View() == World(time, [], 0, {}, model, false, false)
      ensures IsPositive(exec) ==> Valid()
    {
      this.exec := exec;
      this.time := time;
      queue := [];
      nextEpoch := 0;
      cancelled := {};
      this.model := model;
      halted := false;
      terminated := false;
      executed := [];
    }

    /** The key of the next event within the bound; cancelled events before it are discarded. */
    method PeekNextKey(bound: Option<int>) returns (key: Option<(int, nat)>)
      requires Queued(Pending(queue, nextEpoch))
      modifies this`queue
      ensures Queued(Pending(queue, nextEpoch)) && LiveQueue() == old(LiveQueue())
      ensures key == FrontKey(LiveQueue().queue, bound)
      ensures key.Some? ==> |queue| > 0 && !IsCancelled(queue[0].action, cancelled)
      ensures key.None? ==> |queue| == 0 || !InTime(queue[0].time, bound)
      ensures AllAfter(old(queue), time) ==> AllAfter(queue, time)
    {
      while true
        invariant Queued(Pending(queue, nextEpoch)) && LiveQueue() == old(LiveQueue())
        invariant AllAfter(old(queue), time) ==> AllAfter(queue, time)
        decreases |queue|
      {
        if |queue| > 0 && InTime(queue[0].time, bound) {
          if !IsCancelled(queue[0].action, cancelled) {
            return Some((queue[0].time, queue[0].origin));
          }
          TailIsSorted(queue, nextEpoch);
          queue := queue[1..];
        } else {
          FirstLiveIsLater(queue, cancelled, bound);
          return None;
        }
      }
    }

    /** Pulls the first event; a periodic one is scheduled again at once. */
    method PullNextAction() returns (action: Action)
      requires Queued(Pending(queue, nextEpoch)) && |queue| > 0 && !IsCancelled(queue[0].action, cancelled)
      modifies this`queue, this`nextEpoch
      ensures Queued(Pending(queue, nextEpoch))
      ensures Pending(queue, nextEpoch) == PulledOnce(old(Pending(queue, nextEpoch)))
      ensures LiveQueue() == PulledOnce(old(LiveQueue()))
      ensures action == old(queue)[0].action
      ensures |old(LiveQueue()).queue| > 0 && old(LiveQueue()).queue[0] == old(queue)[0]
    {
      var event := queue[0];
      action := event.action;
      TailIsSorted(queue, nextEpoch);
      RenewalKeepsQueued(Pending(queue[1..], nextEpoch), event);
      PullingIgnoresCancelled(Pending(queue, nextEpoch), cancelled);
      queue := queue[1..];
      if action.period.Some? {
        queue := Insert(queue, Event(event.time + action.period.value, event.origin, nextEpoch, action));
        nextEpoch := nextEpoch + 1;
      }
    }

    /** The `i`-th due event of `start` is next in the queue. */
    ghost predicate IsNext(start: Pending, d: nat, i: nat)
      reads this
    {
      && Queued(Pending(queue, nextEpoch)) && |queue| > 0 && !IsCancelled(queue[0].action, cancelled)
      && i < d <= |start.queue| && LiveQueue() == Pulled(start, i)
    }

    /** The `j`-th due event of `start`, if any, is next, and `nextKey` is its key. */
    ghost predicate FollowedBy(start: Pending, t: int, d: nat, j: nat, nextKey: Option<(int, nat)>)
      reads this
    {
      && Queued(Pending(queue, nextEpoch)) && LiveQueue() == Pulled(start, j) && j <= d <= |start.queue|
      && (j < d ==> IsNext(start, d, j) && nextKey == Some((t, start.queue[j].origin)))
      && (j == d ==> AllAfter(queue, t) && !(nextKey.Some? && nextKey.value.0 == t))
    }

    /** Pulls the next due event, and peeks at the key that follows. */
    method PullAndPeek(bound: Option<int>, ghost start: Pending, ghost t: int, ghost d: nat, ghost i: nat)
      returns (action: Action, nextKey: Option<(int, nat)>)
      requires IsDrain(start, t, d, bound) && IsNext(start, d, i)
      modifies this`queue, this`nextEpoch
      ensures FollowedBy(start, t, d, i + 1, nextKey) && action == start.queue[i].action
    {
      FrontWhileDue(start, t, d, i, bound);
      action := PullNextAction();
      if i + 1 < d {
        FrontWhileDue(start, t, d, i + 1, bound);
      } else {
        FrontAfterDue(start, t, d, bound);
      }
      nextKey := PeekNextKey(bound);
      if i + 1 == d {
        if nextKey.Some? {
          FrontIsLive(queue, cancelled);
        }
        FirstIsEnough(queue, t);
      }
    }

    /** The due events `i` and up to the `j`-th are pulled: they form `group`, and `nextKey` follows. */
    ghost predicate Pulling(start: Pending, key: (int, nat), d: nat, j: nat, groups: seq<Group>, group: Group,
                            nextKey: Option<(int, nat)>)
      reads this
    {
      FollowedBy(start, key.0, d, j, nextKey) && IsLastGroup(start.queue, j, groups, group, key.1)
    }

    /** Pulls the first due event of an origin. */
    method PullFirst(key: (int, nat), bound: Option<int>, ghost start: Pending, ghost d: nat, ghost i: nat,
                     ghost groups: seq<Group>)
      returns (group: Group, nextKey: Option<(int, nat)>, ghost k: nat)
      requires IsDrain(start, key.0, d, bound) && IsNext(start, d, i) && start.queue[i].origin == key.1
      requires groups == Groups(start.queue[..i]) && (i > 0 ==> start.queue[i - 1].origin != key.1)
      modifies this`queue, this`nextEpoch
      ensures k == i + 1 && Pulling(start, key, d, k, groups, group, nextKey)
    {
      var action;
      action, nextKey := PullAndPeek(bound, start, key.0, d, i);
      k := i + 1;
      group := Group(key.1, [action]);
      FirstOfGroup(start.queue, i + 1, groups, group);
    }

    /** A key of the same time is that of the next due event. */
    lemma {:induction false} NextIsDue(start: Pending, key: (int, nat), d: nat, j: nat, nextKey: Option<(int, nat)>)
      requires FollowedBy(start, key.0, d, j, nextKey) && nextKey == Some(key)
      ensures IsNext(start, d, j) && start.queue[j].origin == key.1
    {
    }

    /** Pulls another due event of the same origin. */
    method PullAnother(key: (int, nat), bound: Option<int>, before: Group, ghost start: Pending, ghost d: nat,
                       ghost j: nat, ghost groups: seq<Group>)
      returns (group: Group, nextKey: Option<(int, nat)>, ghost k: nat)
      requires IsDrain(start, key.0, d, bound) && Pulling(start, key, d, j, groups, before, Some(key))
      modifies this`queue, this`nextEpoch
      ensures j < k <= d && Pulling(start, key, d, k, groups, group, nextKey)
    {
      NextIsDue(start, key, d, j, Some(key));
      var action;
      action, nextKey := PullAndPeek(bound, start, key.0, d, j);
      k := j + 1;
      NextOfGroup(start.queue, j + 1, groups, before);
      group := Group(key.1, before.actions + [action]);
    }

    /** The due events of one origin, and the key that follows them. */
    method PullOrigin(key: (int, nat), bound: Option<int>, ghost start: Pending, ghost d: nat, ghost i: nat,
                      ghost groups: seq<Group>)
      returns (group: Group, nextKey: Option<(int, nat)>, ghost j: nat)
      requires IsDrain(start, key.0, d, bound) && IsNext(start, d, i) && start.queue[i].origin == key.1
      requires groups == Groups(start.queue[..i]) && (i > 0 ==> start.queue[i - 1].origin != key.1)
      modifies this`queue, this`nextEpoch
      ensures i < j && Pulling(start, key, d, j, groups, group, nextKey) && nextKey != Some(key)
    {
      group, nextKey, j := PullFirst(key, bound, start, d, i, groups);
      while nextKey == Some(key)
        invariant i < j && Pulling(start, key, d, j, groups, group, nextKey)
        decreases d - j
      {
        group, nextKey, j := PullAnother(key, bound, group, start, d, j, groups);
      }
    }

    /**
      Pulls all due events: the actions of each origin form one group, in the order of the queue.
      `key` is the key of the first event, and the events left all lie in its future.
    */
    method Drain(key: (int, nat), bound: Option<int>, ghost start: Pending, ghost d: nat) returns (groups: seq<Group>)
      requires Queued(Pending(queue, nextEpoch)) && |queue| > 0 && !IsCancelled(queue[0].action, cancelled)
      requires start == LiveQueue() && FrontKey(start.queue, bound) == Some(key) && d == DueCount(start.queue, key.0)
      modifies this`queue, this`nextEpoch
      ensures Queued(Pending(queue, nextEpoch)) && AllAfter(queue, key.0)
      ensures groups == Groups(start.queue[..d]) && LiveQueue() == Pulled(start, d)
    {
      LiveIsQueued(Pending(queue, nextEpoch), cancelled);
      ghost var i: nat := 0;
      groups := [];
      var currentKey := key;
      while true
        invariant IsNext(start, d, i) && groups == Groups(start.queue[..i])
        invariant currentKey == (key.0, start.queue[i].origin) && (i > 0 ==> start.queue[i - 1].origin != currentKey.1)
        decreases d - i
      {
        var group, nextKey;
        group, nextKey, i := PullOrigin(currentKey, bound, start, d, i, groups);
        groups := groups + [group];
        if nextKey.Some? && nextKey.value.0 == currentKey.0 {
          currentKey := nextKey.value;
        } else {
          return;
        }
      }
    }

    /** Runs the spawned actions; requests and cancellations made meanwhile take effect. */
    method Run(groups: seq<Group>) returns (error: Option<nat>)
      requires Valid()
      modifies this
      ensures Valid() && time == old(time) && executed == groups
      ensures var effect := exec(old(model), time, groups); var c := old(cancelled) + effect.cancels;
        && View() == (var q := Submit(old(LiveQueue()), time, effect.requests);
                      World(time, Live(q.queue, c), q.nextEpoch, c, effect.model,
                            old(halted) || effect.halt, old(terminated) || effect.error.Some?))
        && error == effect.error
    {
      var effect := exec(model, time, groups);
      SubmitKeepsPlanned(Pending(queue, nextEpoch), time, effect.requests);
      SubmitIgnoresCancelled(Pending(queue, nextEpoch), time, effect.requests, cancelled, cancelled + effect.cancels);
      var pending := Submit(Pending(queue, nextEpoch), time, effect.requests);
      queue, nextEpoch := pending.queue, pending.nextEpoch;
      cancelled := cancelled + effect.cancels;
      model := effect.model;
      halted := halted || effect.halt;
      error := effect.error;
      terminated := terminated || error.Some?;
      executed := groups;
    }

    /** Executes the events due at the time of `key`, the key of the first event. */
    method Execute(key: (int, nat), bound: Option<int>) returns (error: Option<nat>)
      requires Valid() && |queue| > 0 && !IsCancelled(queue[0].action, cancelled) && !terminated && !halted
      requires FrontKey(LiveQueue().queue, bound) == Some(key)
      modifies this
      ensures Valid() && |old(View()).live| > 0
      ensures Stepping.Execute(old(View()), exec) == (View(), Stepped(time, executed, error))
    {
      ghost var start := LiveQueue();
      ghost var d := DueCount(start.queue, key.0);
      LiveIsQueued(Pending(queue, nextEpoch), cancelled);
      time := key.0;
      var groups := Drain(key, bound, start, d);
      DrainedIsRescheduled(start, key.0, d);
      error := Run(groups);
    }

    /** A step does to the events that are not cancelled what `Stepping.StepToNext` says, for any executor. */
    method StepToNext(bound: Option<int>) returns (r: StepResult)
      requires Valid()
      modifies this
      ensures Valid()
      ensures var (v, o) := Stepping.StepToNext(old(View()), bound, exec);
        View() == v && r == ResultOf(o) && (o.Stepped? ==> executed == o.groups)
      ensures r.Nothing? && bound.Some? ==> AllAfter(queue, bound.value)
    {
      if terminated {
        return Failed(Terminated);
      }
      if halted {
        terminated := true;
        return Failed(Halted);
      }
      var key := PeekNextKey(bound);
      if key.None? {
        if bound.Some? {
          FirstIsEnough(queue, bound.value);
        }
        return Nothing;
      }
      var error := Execute(key.value, bound);
      if error.Some? {
        return Failed(Execution(error.value));
      }
      return Moved(time);
    }

    /**
      The steps up to `target`, or as long as there are events: `trace` (ghost) is what they executed,
      and when. Without a target the steps need not end; `n` (ghost) is a bound on them if they do.
    */
    method StepUntilUnchecked(target: Option<int>, ghost n: nat)
      returns (r: Result, ghost trace: seq<(int, seq<Group>)>)
      requires Valid() && Stops(View(), target, exec, n)
      modifies this
      ensures Valid() && Consistent(old(View()))
      ensures RunTo(old(View()), target, exec, n) == SteppingRuns.Run(View(), trace, r)
    {
      ghost var w := View();
      ghost var k := n;
      ViewIsConsistent();
      trace := [];
      while true
        invariant Valid() && Consistent(View()) && Consistent(w) && Stops(View(), target, exec, k)
        invariant RunTo(w, target, exec, n) == Prepend(trace, RunTo(View(), target, exec, k))
        decreases if target.Some? then target.value - time else k
      {
        ghost var v := View();
        RunToStep(v, target, exec, k);
        var step := StepToNext(target);
        ViewIsConsistent();
        match step {
          case Failed(reason) =>
            var o := Stepping.StepToNext(v, target, exec).1;
            trace := trace + (if o.Stepped? then [(o.time, o.groups)] else []);
            return Fails(reason), trace;
          case Nothing =>
            if target.Some? {
              time := target.value;
              NoEventUntil(v, time);
            }
            assert trace + [] == trace;
            return Done, trace;
          case Moved(t) =>
            ghost var before := trace;
            trace := trace + [(t, executed)];
            if target == Some(t) {
              return Done, trace;
            }
            k := if target.None? then k - 1 else k;
            PrependStep(before, (t, executed), RunTo(View(), target, exec, k));
        }
      }
    }

    /** A target in the past is refused. */
    method StepUntilTime(target: int) returns (ok: bool, r: Result)
      requires Valid()
      modifies this
      ensures Valid() && Consistent(old(View())) && ok == (old(time) <= target)
      ensures !ok ==> View() == old(View())
      ensures ok ==>
        View() == StepUntil(old(View()), target, exec).world && r == StepUntil(old(View()), target, exec).result
    {
      ViewIsConsistent();
      if target < time {
        return false, Done;
      }
      ghost var trace;
      r, trace := StepUntilUnchecked(Some(target), 0);
      ok := true;
    }

    /**
      Schedules an action from outside a step, unless its time is not in the future. Nothing refuses
      a null period here, and only a null period can break what the steps rely on.
    */
    method Schedule(at: int, origin: nat, action: Action) returns (ok: bool)
      requires Valid()
      modifies this`queue, this`nextEpoch
      ensures ok == (time < at) && (Valid() <==> !(ok && action.period == Some(0)))
      ensures Pending(queue, nextEpoch) ==
        var p := old(Pending(queue, nextEpoch)); if ok then Add(p, at, origin, action) else p
    {
      if time >= at {
        return false;
      }
      ghost var p := Pending(queue, nextEpoch);
      if action.period != Some(0) {
        AddKeepsPlanned(p, time, at, origin, action);
      }
      var event := Event(at, origin, nextEpoch, action);
      InsertMembers(queue, event, event);
      queue := Insert(queue, event);
      nextEpoch := nextEpoch + 1;
      return true;
    }

    lemma {:induction false} ViewIsConsistent()
      requires Valid()
      ensures Consistent(View())
    {
      LiveKeepsPlanned(Pending(queue, nextEpoch), time, cancelled);
    }
  }

  /** A target is not in the past; without one the steps end. */
  ghost predicate Stops<M>(w: World<M>, target: Option<int>, exec: Executor<M>, n: nat) {
    match target
    case Some(t) => w.time <= t
    case None => Finishes(w, exec, n)
  }

  /** `step_until` or `step_unbounded`. */
  ghost function RunTo<M(!new)>(w: World<M>, target: Option<int>, exec: Executor<M>, n: nat): SteppingRuns.Run<M>
    requires Consistent(w) && IsPositive(exec) && Stops(w, target, exec, n)
  {
    match target
    case Some(t) => StepUntil(w, t, exec)
    case None => StepAll(w, exec, n)
  }

  /** A run is its first step and the run from there. */
  lemma {:induction false} RunToStep<M(!new)>(w: World<M>, target: Option<int>, exec: Executor<M>, n: nat)
    requires Consistent(w) && IsPositive(exec) && Stops(w, target, exec, n)
    ensures var (v, o) := StepToNext(w, target, exec);
      && (o.Refused? ==> RunTo(w, target, exec, n) == SteppingRuns.Run(v, [], Fails(o.reason)))
      && (o.NoEvent? ==>
            RunTo(w, target, exec, n) ==
              SteppingRuns.Run(if target.Some? then v.(time := target.value) else v, [], Done))
      && (o.Stepped? && o.error.Some? ==>
            RunTo(w, target, exec, n) == SteppingRuns.Run(v, [(o.time, o.groups)], Fails(Execution(o.error.value))))
      && (o.Stepped? && o.error.None? && target == Some(o.time) ==>
            RunTo(w, target, exec, n) == SteppingRuns.Run(v, [(o.time, o.groups)], Done))
    ensures var (v, o) := StepToNext(w, target, exec); var m := if target.None? then n - 1 else n;
      o.Stepped? && o.error.None? && target != Some(o.time) ==>
        && m >= 0 && Consistent(v) && w.time < v.time && Stops(v, target, exec, m)
        && RunTo(w, target, exec, n) == Prepend([(o.time, o.groups)], RunTo(v, target, exec, m))
  {
    StepKeepsConsistent(w, target, exec);
  }

  function Prepend<M>(trace: seq<(int, seq<Group>)>, r: Run<M>): Run<M> {
    r.(trace := trace + r.trace)
  }

  lemma {:induction false} PrependStep<M>(trace: seq<(int, seq<Group>)>, step: (int, seq<Group>), r: Run<M>)
    ensures Prepend(trace + [step], r) == Prepend(trace, Prepend([step], r))
  {
    assert trace + [step] + r.trace == trace + ([step] + r.trace);
  }

  lemma {:induction false} DrainedIsRescheduled(start: Pending, t: int, d: nat)
    requires Queued(start) && d == DueCount(start.queue, t)
    ensures Pulled(start, d) == Rescheduled(Pending(start.queue[d..], start.nextEpoch), start.queue[..d])
  {
    PulledIsRescheduled(start, t, d, d);
    var r := Rescheduled(Pending(start.queue[d..], start.nextEpoch), start.queue[..d]);
    assert start.queue[d..d] + r.queue == r.queue;
  }

  lemma {:induction false} FirstIsEnough(q: seq<Event>, t: int)
    requires Sorted(q) && (|q| > 0 ==> t < q[0].time)
    ensures AllAfter(q, t)
  {
    forall i | 0 <= i < |q| ensures t < q[i].time {
      assert i == 0 || Before(q[0], q[i]);
    }
  }

  /** If the first event is not within the bound, neither is the first one that is not cancelled. */
  lemma {:induction false} FirstLiveIsLater(q: seq<Event>, cancelled: set<nat>, bound: Option<int>)
    requires Sorted(q) && (|q| == 0 || !InTime(q[0].time, bound))
    ensures FrontKey(Live(q, cancelled), bound) == None
  {
    var live := Live(q, cancelled);
    if |live| > 0 {
      LiveMembers(q, cancelled, live[0]);
      var i :| 0 <= i < |q| && q[i] == live[0];
      assert i == 0 || Before(q[0], q[i]);
    }
  }

  lemma {:induction false} PullingIgnoresCancelled(p: Pending, cancelled: set<nat>)
    requires Queued(p) && |p.queue| > 0 && !IsCancelled(p.queue[0].action, cancelled)
    ensures var q := PulledOnce(p);
      Pending(Live(q.queue, cancelled), q.nextEpoch) == PulledOnce(Pending(Live(p.queue, cancelled), p.nextEpoch))
    ensures |Live(p.queue, cancelled)| > 0 && Live(p.queue, cancelled)[0] == p.queue[0]
  {
    var e := p.queue[0];
    var live := Live(p.queue, cancelled);
    assert live[1..] == Live(p.queue[1..], cancelled);
    if e.action.period.Some? {
      LiveInsert(p.queue[1..], Event(e.time + e.action.period.value, e.origin, p.nextEpoch, e.action), cancelled);
    }
  }

  lemma {:induction false} LiveIsQueued(p: Pending, cancelled: set<nat>)
    requires Queued(p)
    ensures Queued(Pending(Live(p.queue, cancelled), p.nextEpoch))
  {
    LiveIsSorted(p.queue, cancelled);
    LiveIsNumbered(p.queue, cancelled, p.nextEpoch);
    forall i | 0 <= i < |Live(p.queue, cancelled)| ensures Live(p.queue, cancelled)[i].action.period != Some(0) {
      LiveMembers(p.queue, cancelled, Live(p.queue, cancelled)[i]);
    }
  }

  lemma {:induction false} FrontIsLive(q: seq<Event>, cancelled: set<nat>)
    requires |q| > 0 && !IsCancelled(q[0].action, cancelled)
    ensures |Live(q, cancelled)| > 0 && Live(q, cancelled)[0] == q[0]
  {
  }

  /** The queue `start` is to be drained of its `d` events of time `t`, its least time. */
  predicate IsDrain(start: Pending, t: int, d: nat, bound: Option<int>) {
    && Queued(start) && d == DueCount(start.queue, t) && InTime(t, bound)
    && |start.queue| > 0 && start.queue[0].time == t
  }

  /** The next key after `i` pulls is that of the next due event. */
  lemma {:induction false} FrontWhileDue(start: Pending, t: int, d: nat, i: nat, bound: Option<int>)
    requires IsDrain(start, t, d, bound) && i < d
    ensures var q := Pulled(start, i).queue;
      |q| > 0 && q[0] == start.queue[i] && FrontKey(q, bound) == Some((t, start.queue[i].origin))
  {
    PulledIsRescheduled(start, t, d, i);
  }

  /** After all due events the next key, if any, is of a later time. */
  lemma {:induction false} FrontAfterDue(start: Pending, t: int, d: nat, bound: Option<int>)
    requires IsDrain(start, t, d, bound)
    ensures var q := Pulled(start, d).queue;
      AllAfter(q, t) && (FrontKey(q, bound).Some? ==> FrontKey(q, bound).value.0 != t)
  {
    forall k | 0 <= k < |start.queue| ensures t <= start.queue[k].time {
      assert k == 0 || Before(start.queue[0], start.queue[k]);
    }
    PulledIsRescheduled(start, t, d, d);
    RestComesLater(start, t, d);
  }

  /** The first `j` due events form `groups` and then `group`, of the given origin. */
  predicate IsLastGroup(due: seq<Event>, j: nat, groups: seq<Group>, group: Group, origin: nat) {
    && 0 < j <= |due| && Groups(due[..j]) == groups + [group]
    && group.origin == origin && due[j - 1].origin == origin
  }

  lemma {:induction false} FirstOfGroup(due: seq<Event>, i: nat, groups: seq<Group>, group: Group)
    requires 0 < i <= |due| && groups == Groups(due[..i - 1]) && (i > 1 ==> due[i - 2].origin != group.origin)
    requires group == Group(due[i - 1].origin, [due[i - 1].action])
    ensures Groups(due[..i]) == groups + [group]
  {
    assert due[..i][..i - 1] == due[..i - 1];
    if i > 1 {
      LastGroup(due[..i - 1]);
    }
  }

  lemma {:induction false} NextOfGroup(due: seq<Event>, i: nat, groups: seq<Group>, last: Group)
    requires 1 < i <= |due| && Groups(due[..i - 1]) == groups + [last] && last.origin == due[i - 1].origin
    ensures Groups(due[..i]) == groups + [Group(last.origin, last.actions + [due[i - 1].action])]
  {
    assert due[..i][..i - 1] == due[..i - 1];
  }
}
