/**
  The executor can always get out of `run`: from every state in which it waits for the pool, some
  sequence of steps of the workers and of the main thread makes it return.

  The sequence runs the tasks that there are and schedules no more. Each of its steps brings the pool
  closer to the end: less work is left, or fewer activations look at an outdated set of active workers,
  or fewer workers are active, or they are closer to parking.
*/
module PoolReturns {
  import opened Options
  import opened Injector
  import opened PoolMachine
  import opened PoolSafety
  import opened PoolCounts
  import opened PoolQuiescence
  import opened PoolProgress

  // ----- Sums over the threads -----

  function Sum(xs: seq<nat>): nat {
    if |xs| == 0 then 0 else Sum(xs[..|xs| - 1]) + xs[|xs| - 1]
  }

  lemma {:induction false} SumChanges(xs: seq<nat>, ys: seq<nat>, i: nat)
    requires |xs| == |ys| && i < |xs| && forall j :: 0 <= j < |xs| && j != i ==> ys[j] == xs[j]
    ensures Sum(ys) + xs[i] == Sum(xs) + ys[i]
  {
    var n := |xs| - 1;
    if i < n {
      SumChanges(xs[..n], ys[..n], i);
    } else {
      assert ys[..n] == xs[..n];
    }
  }

  // ----- The work that is left -----

  function ActWork(act: Act): nat {
    match act
    case ActLoad => 5
    case ActOr(_) => 4
    case ActBegin(_) => 3
    case ActUnpark(_) => 2
  }

  function PcWork(pc: Pc): nat {
    match pc
    case PopFlag(found) => if found then 4 else 0
    case Extend => 3
    case EndSearch => 2
    case Drain => 1
    case BucketLock => 20
    case BucketFlag => 8
    case InsertLock => 7
    case InsertFlag => 7
    case CheckSearch => 6
    case Activating(act) => ActWork(act)
    case _ => 0
  }

  /** The work of a worker: each runnable counts for what is still to be done with it. */
  function Work(w: Worker): nat {
    PcWork(w.pc) + 6 * |w.local| + (if w.fast.Some? then 6 else 0) + (if w.running.Some? then 4 else 0)
    + (if w.displaced.Some? then 30 else 0) + (if w.pc.BucketLock? then 10 * |w.bucket| else 7 * |w.bucket|)
  }

  function BucketWork(bucket: seq<Rid>): nat {
    10 + 9 * |bucket|
  }

  function InjectorWork(q: seq<seq<Rid>>): nat {
    if |q| == 0 then 0 else InjectorWork(q[..|q| - 1]) + BucketWork(q[|q| - 1])
  }

  function MainWork(main: MainPc): nat {
    if main.Starting? then ActWork(main.act) else 0
  }

  function Works(ws: seq<Worker>): seq<nat> {
    seq(|ws|, i requires 0 <= i < |ws| => Work(ws[i]))
  }

  function TotalWork(s: State): nat {
    Sum(Works(s.workers)) + InjectorWork(s.injector) + MainWork(s.main)
  }

  lemma {:induction false} InjectorUpdate(q: seq<seq<Rid>>, b: seq<Rid>)
    requires |q| > 0
    ensures InjectorWork(q[0 := b]) + BucketWork(q[0]) == InjectorWork(q) + BucketWork(b)
  {
    var n := |q| - 1;
    if n > 0 {
      InjectorUpdate(q[..n], b);
      assert q[0 := b][..n] == q[..n][0 := b];
    } else {
      assert q[0 := b][..0] == q[..0];
    }
  }

  lemma {:induction false} PushedWork(q: seq<seq<Rid>>, b: seq<Rid>)
    ensures InjectorWork(Pushed(q, b)) == InjectorWork(q) + BucketWork(b)
  {
    assert (q + [b])[..|q|] == q;
  }

  /** A task inserted in the injector is less work than a displaced one. */
  lemma {:induction false} InsertedWork(q: seq<seq<Rid>>, cap: nat, r: Rid)
    ensures InjectorWork(Inserted(q, cap, r)) <= InjectorWork(q) + 19
  {
    if |q| == 0 {
      assert [[r]][..0] == [];
      assert InjectorWork([[r]][..0]) == 0;
    } else if |q[0]| < cap {
      InjectorUpdate(q, q[0] + [r]);
    } else {
      InjectorUpdate(q, [r]);
      PushedWork(q[0 := [r]], q[0]);
    }
  }

  /** A step of worker `i` that leaves less work to it and to the injector. */
  lemma {:induction false} WorkDrops(s: State, t: State, i: nat)
    requires OnlyWorker(s, t, i) && i < |s.workers| && t.main == s.main
    requires Work(t.workers[i]) + InjectorWork(t.injector) < Work(s.workers[i]) + InjectorWork(s.injector)
    ensures TotalWork(t) < TotalWork(s)
  {
    SumChanges(Works(s.workers), Works(t.workers), i);
  }

  lemma {:induction false} WorkStays(s: State, t: State, i: nat)
    requires OnlyWorker(s, t, i) && i < |s.workers| && MainWork(t.main) == MainWork(s.main) && t.injector == s.injector
    requires Work(t.workers[i]) == Work(s.workers[i])
    ensures TotalWork(t) == TotalWork(s)
  {
    SumChanges(Works(s.workers), Works(t.workers), i);
  }

  // ----- Running tasks -----

  /** The worker has a task, or is on its way to get one from its queue. */
  predicate HasWork(pc: Pc) {
    (Busy(pc) && !pc.Activating? && !InCriticalSection(pc)) || pc.Drain? || pc.EndSearch? || pc.Extend?
  }

  /** What such a worker does next; a running task finishes. */
  function NextOfWorker(w: Worker, i: nat): Step {
    match w.pc
    case Extend => PopStep(i, ExtendLocal)
    case EndSearch => StealStep(i, StopSearch)
    case Drain => RunStep(i, if w.fast.Some? || |w.local| > 0 then TakeTask else NoTask)
    case Run => RunStep(i, Finish)
    case CheckSearch => RunStep(i, ReadSearching)
    case Push => QueueStep(i, PushLocal)
    case Requeue => QueueStep(i, RequeueLocal)
    case InsertLock => QueueStep(i, InsertTask)
    case _ => QueueStep(i, PushBucket)
  }

  /** The step leaves less work and does not concern the main thread. */
  predicate LeavesLess(s: State, step: Step) {
    && Enabled(s, step) && var t := Apply(s, step);
       && |t.workers| == |s.workers| && |t.claims| == |s.claims| && t.main == s.main
       && TotalWork(t) < TotalWork(s)
  }

  lemma {:induction false} ExtendWorks(s: State, i: nat)
    requires i < |s.workers| && s.workers[i].pc.Extend?
    ensures LeavesLess(s, PopStep(i, ExtendLocal))
  {
    PopMoves(s, i, ExtendLocal);
    WorkDrops(s, ApplyPop(s, i, ExtendLocal), i);
  }

  lemma {:induction false} StopWorks(s: State, i: nat)
    requires i < |s.workers| && s.workers[i].pc.EndSearch?
    ensures LeavesLess(s, StealStep(i, StopSearch))
  {
    StealMoves(s, i, StopSearch);
    WorkDrops(s, ApplySteal(s, i, StopSearch), i);
  }

  lemma {:induction false} TakeWorks(s: State, i: nat)
    requires i < |s.workers| && s.workers[i].pc.Drain? && Holds(s.workers[i])
    requires s.workers[i].fast.Some? || |s.workers[i].local| > 0
    ensures LeavesLess(s, RunStep(i, TakeTask))
  {
    RunMoves(s, i, TakeTask);
    WorkDrops(s, ApplyRun(s, i, TakeTask), i);
  }

  lemma {:induction false} FinishWorks(s: State, i: nat)
    requires EnabledRun(s, i, Finish) && Holds(s.workers[i])
    ensures LeavesLess(s, RunStep(i, Finish))
  {
    RunMoves(s, i, Finish);
    WorkDrops(s, ApplyRun(s, i, Finish), i);
  }

  lemma {:induction false} NoTaskWorks(s: State, i: nat)
    requires EnabledRun(s, i, NoTask)
    ensures LeavesLess(s, RunStep(i, NoTask))
  {
    RunMoves(s, i, NoTask);
    WorkDrops(s, ApplyRun(s, i, NoTask), i);
  }

  lemma {:induction false} CheckWorks(s: State, i: nat)
    requires EnabledRun(s, i, ReadSearching)
    ensures LeavesLess(s, RunStep(i, ReadSearching))
  {
    RunMoves(s, i, ReadSearching);
    WorkDrops(s, ApplyRun(s, i, ReadSearching), i);
  }

  lemma {:induction false} PushWorks(s: State, i: nat, op: QueueOp)
    requires EnabledQueue(s, i, op) && (op.PushLocal? || op.RequeueLocal?) && Holds(s.workers[i])
    ensures LeavesLess(s, QueueStep(i, op))
  {
    QueueMoves(s, i, op);
    WorkDrops(s, ApplyQueue(s, i, op), i);
  }

  lemma {:induction false} InsertWorks(s: State, i: nat)
    requires EnabledQueue(s, i, InsertTask) && Holds(s.workers[i])
    ensures LeavesLess(s, QueueStep(i, InsertTask))
  {
    QueueMoves(s, i, InsertTask);
    InsertedWork(s.injector, s.cap, s.workers[i].displaced.value);
    WorkDrops(s, ApplyQueue(s, i, InsertTask), i);
  }

  lemma {:induction false} BucketWorks(s: State, i: nat)
    requires EnabledQueue(s, i, PushBucket)
    ensures LeavesLess(s, QueueStep(i, PushBucket))
  {
    QueueMoves(s, i, PushBucket);
    PushedWork(s.injector, s.workers[i].bucket);
    WorkDrops(s, ApplyQueue(s, i, PushBucket), i);
  }

  /** A worker that has work can go on with it. */
  lemma {:induction false} WorkerWorks(s: State, i: nat) returns (step: Step)
    requires i < |s.workers| && Holds(s.workers[i]) && HasWork(s.workers[i].pc) && s.lock.None?
    ensures LeavesLess(s, step)
  {
    step := NextOfWorker(s.workers[i], i);
    match s.workers[i].pc
    case Extend => ExtendWorks(s, i);
    case EndSearch => StopWorks(s, i);
    case Drain =>
      if s.workers[i].fast.Some? || |s.workers[i].local| > 0 {
        TakeWorks(s, i);
      } else {
        NoTaskWorks(s, i);
      }
    case Run => FinishWorks(s, i);
    case CheckSearch => CheckWorks(s, i);
    case Push => PushWorks(s, i, PushLocal);
    case Requeue => PushWorks(s, i, RequeueLocal);
    case InsertLock => InsertWorks(s, i);
    case _ => BucketWorks(s, i);
  }

  // ----- Activations -----

  /** The agent is looking for an idle worker in a set of active workers that changed meanwhile. */
  function Stale(s: State, a: nat): nat {
    if Acting(s, a) && ActOf(s, a).ActOr? && ActOf(s, a).seen != s.active then 1 else 0
  }

  function Stales(s: State): seq<nat> {
    seq(|s.workers| + 1, a requires 0 <= a <= |s.workers| => Stale(s, a))
  }

  function StaleCount(s: State): nat {
    Sum(Stales(s))
  }

  lemma {:induction false} StaleStays(s: State, t: State)
    requires |t.workers| == |s.workers| && forall a :: 0 <= a <= |s.workers| ==> Stale(t, a) == Stale(s, a)
    ensures StaleCount(t) == StaleCount(s)
  {
    assert Stales(t) == Stales(s);
  }

  // ----- The search -----

  /** How far a worker is from parking, or from a bucket if there is one. */
  function Rank(pc: Pc, empty: bool): nat {
    match pc
    case PopFlag(_) => if empty then 10 else 13
    case Steal => if empty then 9 else 12
    case GiveUp => if empty then 8 else 11
    case Top => if empty then 7 else 10
    case LastCheck => if empty then 6 else 9
    case BeginSearch => if empty then 13 else 8
    case ResumeSearch => if empty then 13 else 8
    case PopPeek => if empty then 12 else 7
    case PopLock => if empty then 11 else 6
    case AllInactive => 5
    case NotifyMain => 4
    case _ => 0
  }

  function WorkerRank(w: Worker, claim: Claim, empty: bool): nat {
    Rank(w.pc, empty) + if claim.Token? then 20 else 0
  }

  function Ranks(s: State): seq<nat>
    requires |s.claims| == |s.workers|
  {
    seq(|s.workers|, i requires 0 <= i < |s.workers| => WorkerRank(s.workers[i], s.claims[i], |s.injector| == 0))
  }

  function RankSum(s: State): nat
    requires |s.claims| == |s.workers|
  {
    Sum(Ranks(s)) + if s.main.Waiting? then 1 else 0
  }

  /** A step of worker `i` that brings it closer. */
  lemma {:induction false} RankDrops(s: State, t: State, i: nat)
    requires |s.claims| == |s.workers| && i < |s.workers| && OnlyWorker(s, t, i) && OnlyClaim(s, t, i)
    requires t.injector == s.injector && t.main == s.main
    requires var e := |s.injector| == 0;
      WorkerRank(t.workers[i], t.claims[i], e) < WorkerRank(s.workers[i], s.claims[i], e)
    ensures RankSum(t) < RankSum(s)
  {
    SumChanges(Ranks(s), Ranks(t), i);
  }

  // ----- Closer to the end -----

  predicate Closer(s: State, t: State)
    requires |s.claims| == |s.workers| && |t.claims| == |t.workers|
  {
    if TotalWork(t) != TotalWork(s) then TotalWork(t) < TotalWork(s)
    else if StaleCount(t) != StaleCount(s) then StaleCount(t) < StaleCount(s)
    else if |t.active| != |s.active| then |t.active| < |s.active|
    else RankSum(t) < RankSum(s)
  }

  /** A worker that searches, or deactivates itself. */
  predicate Searches(pc: Pc) {
    || pc.Top? || pc.LastCheck? || pc.AllInactive? || pc.BeginSearch? || pc.ResumeSearch? || pc.PopPeek? || pc.PopLock?
    || pc.Steal? || pc.GiveUp?
  }

  /** No thread is activating a worker. */
  ghost predicate NoneActing(s: State) {
    forall a :: 0 <= a <= |s.workers| ==> !Acting(s, a)
  }

  /** A step of worker `i` that only moves it on in its search. */
  predicate IsSearchStep(s: State, t: State, i: nat) {
    && i < |s.workers| && OnlyWorker(s, t, i) && OnlyClaim(s, t, i) && |s.claims| == |s.workers|
    && t.injector == s.injector && t.main == s.main && OnlyControl(s, t, i)
    && PcWork(s.workers[i].pc) == PcWork(t.workers[i].pc) == 0
    && !s.workers[i].pc.BucketLock? && !t.workers[i].pc.BucketLock?
    && !s.workers[i].pc.Activating? && !t.workers[i].pc.Activating?
  }

  lemma {:induction false} SearchKeepsActing(s: State, t: State, i: nat, a: nat)
    requires IsSearchStep(s, t, i) && a <= |s.workers|
    ensures Acting(t, a) == Acting(s, a) && (Acting(s, a) ==> ActOf(t, a) == ActOf(s, a))
  {
  }

  lemma {:induction false} SearchKeepsWork(s: State, t: State, i: nat)
    requires IsSearchStep(s, t, i) && (t.active == s.active || NoneActing(s))
    ensures TotalWork(t) == TotalWork(s) && StaleCount(t) == StaleCount(s)
  {
    WorkStays(s, t, i);
    forall a | 0 <= a <= |s.workers| ensures Stale(t, a) == Stale(s, a) {
      SearchKeepsActing(s, t, i, a);
    }
    StaleStays(s, t);
  }

  lemma {:induction false} SearchCloser(s: State, t: State, i: nat)
    requires IsSearchStep(s, t, i) && t.active == s.active
    requires var e := |s.injector| == 0;
      WorkerRank(t.workers[i], t.claims[i], e) < WorkerRank(s.workers[i], s.claims[i], e)
    ensures |t.claims| == |t.workers| && Closer(s, t)
  {
    SearchKeepsWork(s, t, i);
    RankDrops(s, t, i);
  }

  lemma {:induction false} InactiveCloser(s: State, t: State, i: nat)
    requires IsSearchStep(s, t, i) && NoneActing(s) && i in s.active && (t.active == s.active - {i} || t.active == {})
    ensures |t.claims| == |t.workers| && Closer(s, t)
  {
    SearchKeepsWork(s, t, i);
    if t.active == {} {
      assert |s.active| > 0;
    }
  }

  /** The main thread is in `run`. */
  predicate InRun(main: MainPc) {
    main.Starting? || main.Check? || main.Waiting?
  }

  /** The step brings the pool closer to the end, and the main thread stays in `run`. */
  predicate Advances(s: State, step: Step)
    requires |s.claims| == |s.workers|
  {
    && Enabled(s, step) && var t := Apply(s, step);
       |t.claims| == |t.workers| && (InRun(s.main) ==> InRun(t.main)) && Closer(s, t)
  }

  lemma {:induction false} WorkAdvances(s: State, step: Step)
    requires |s.claims| == |s.workers| && LeavesLess(s, step)
    ensures Advances(s, step)
  {
  }

  lemma {:induction false} StartAdvances(s: State, i: nat)
    requires |s.claims| == |s.workers| && EnabledPop(s, i, StartSearch)
    ensures Advances(s, PopStep(i, StartSearch))
  {
    PopMoves(s, i, StartSearch);
    PopControl(s, i, StartSearch);
    SearchCloser(s, ApplyPop(s, i, StartSearch), i);
  }

  lemma {:induction false} PeekAdvances(s: State, i: nat)
    requires |s.claims| == |s.workers| && EnabledPop(s, i, PeekFlag) && (s.empty <==> |s.injector| == 0)
    ensures Advances(s, PopStep(i, PeekFlag))
  {
    PopMoves(s, i, PeekFlag);
    PopControl(s, i, PeekFlag);
    SearchCloser(s, ApplyPop(s, i, PeekFlag), i);
  }

  lemma {:induction false} UpdateAdvances(s: State, i: nat)
    requires |s.claims| == |s.workers| && EnabledPop(s, i, UpdateFlag)
    ensures Advances(s, PopStep(i, UpdateFlag))
  {
    var t := ApplyPop(s, i, UpdateFlag);
    PopMoves(s, i, UpdateFlag);
    PopControl(s, i, UpdateFlag);
    if s.workers[i].pc.found {
      WorkDrops(s, t, i);
    } else {
      SearchCloser(s, t, i);
    }
  }

  lemma {:induction false} PopMisses(s: State, i: nat)
    requires |s.claims| == |s.workers| && EnabledPop(s, i, PopBucket) && |s.injector| == 0
    ensures Advances(s, PopStep(i, PopBucket))
  {
    PopMoves(s, i, PopBucket);
    SearchCloser(s, ApplyPop(s, i, PopBucket), i);
  }

  lemma {:induction false} PopFinds(s: State, i: nat)
    requires |s.claims| == |s.workers| && EnabledPop(s, i, PopBucket) && Holds(s.workers[i]) && |s.injector| > 0
    ensures Advances(s, PopStep(i, PopBucket))
  {
    PopMoves(s, i, PopBucket);
    WorkDrops(s, ApplyPop(s, i, PopBucket), i);
  }

  lemma {:induction false} GiveUpAdvances(s: State, i: nat, op: StealOp)
    requires |s.claims| == |s.workers| && EnabledSteal(s, i, op)
    requires op == StealFail(true) || (op.StopSearch? && s.workers[i].pc.GiveUp?)
    ensures Advances(s, StealStep(i, op))
  {
    StealMoves(s, i, op);
    SearchCloser(s, ApplySteal(s, i, op), i);
  }

  /** A worker that is not the last active one parks; the last one has a last look at the injector. */
  lemma {:induction false} TopAdvances(s: State, i: nat)
    requires |s.claims| == |s.workers| && EnabledIdle(s, i, TrySetInactive) && i in s.active && NoneActing(s)
    ensures Advances(s, IdleStep(i, TrySetInactive))
  {
    var t := ApplyIdle(s, i, TrySetInactive);
    IdleMoves(s, i, TrySetInactive);
    IdleControl(s, i, TrySetInactive);
    if s.active == {i} {
      SearchCloser(s, t, i);
    } else {
      InactiveCloser(s, t, i);
    }
  }

  lemma {:induction false} LastAdvances(s: State, i: nat)
    requires |s.claims| == |s.workers| && EnabledIdle(s, i, ReadEmpty) && (s.empty <==> |s.injector| == 0)
    ensures Advances(s, IdleStep(i, ReadEmpty))
  {
    IdleMoves(s, i, ReadEmpty);
    IdleControl(s, i, ReadEmpty);
    SearchCloser(s, ApplyIdle(s, i, ReadEmpty), i);
  }

  lemma {:induction false} InactiveAdvances(s: State, i: nat)
    requires |s.claims| == |s.workers| && EnabledIdle(s, i, SetAllInactive) && i in s.active && NoneActing(s)
    ensures Advances(s, IdleStep(i, SetAllInactive))
  {
    IdleMoves(s, i, SetAllInactive);
    IdleControl(s, i, SetAllInactive);
    InactiveCloser(s, ApplyIdle(s, i, SetAllInactive), i);
  }

  lemma {:induction false} WakeAdvances(s: State, i: nat, op: IdleOp)
    requires |s.claims| == |s.workers| && EnabledIdle(s, i, op) && (op.UnparkMain? || op.WakeUp?)
    ensures Advances(s, IdleStep(i, op))
  {
    IdleMoves(s, i, op);
    IdleControl(s, i, op);
    SearchCloser(s, ApplyIdle(s, i, op), i);
  }

  // ----- Steps of the agents that activate workers -----

  /** A step of agent `a` that only changes how far its activation is. */
  predicate IsActStep(s: State, t: State, a: nat) {
    && Acting(s, a) && OnlyWorker(s, t, a) && t.injector == s.injector && |t.claims| == |t.workers|
    && (if a < |s.workers| then
          OnlyControl(s, t, a) && t.main == s.main && (t.workers[a].pc.Run? || t.workers[a].pc.Activating?)
        else t.main.Check? || t.main.Starting?)
  }

  function ActWorkOf(s: State, a: nat): nat {
    if Acting(s, a) then ActWork(ActOf(s, a)) else 0
  }

  lemma {:induction false} ActDrops(s: State, t: State, a: nat)
    requires IsActStep(s, t, a) && ActWorkOf(t, a) < ActWorkOf(s, a)
    ensures TotalWork(t) < TotalWork(s)
  {
    if a < |s.workers| {
      WorkDrops(s, t, a);
    } else {
      assert Works(t.workers) == Works(s.workers);
    }
  }

  lemma {:induction false} ActStays(s: State, t: State, a: nat)
    requires IsActStep(s, t, a) && ActWorkOf(t, a) == ActWorkOf(s, a)
    ensures TotalWork(t) == TotalWork(s)
  {
    if a < |s.workers| {
      WorkStays(s, t, a);
    } else {
      assert Works(t.workers) == Works(s.workers);
    }
  }

  lemma {:induction false} ActLeaves(s: State, t: State, a: nat, b: nat)
    requires IsActStep(s, t, a) && b <= |s.workers| && b != a
    ensures Acting(t, b) == Acting(s, b) && (Acting(s, b) ==> ActOf(t, b) == ActOf(s, b))
  {
  }

  /** An agent that looks again at the active workers is up to date. */
  lemma {:induction false} LookCloser(s: State, t: State, a: nat)
    requires IsActStep(s, t, a) && |s.claims| == |s.workers| && t.active == s.active && Stale(s, a) == 1
    requires Acting(t, a) && ActOf(t, a) == ActOr(s.active)
    ensures Closer(s, t)
  {
    ActStays(s, t, a);
    forall b | 0 <= b <= |s.workers| && b != a ensures Stale(t, b) == Stale(s, b) {
      ActLeaves(s, t, a, b);
    }
    SumChanges(Stales(s), Stales(t), a);
  }

  lemma {:induction false} LookIsActStep(s: State, a: nat, op: LookOp)
    requires EnabledLook(s, a, op) && |s.claims| == |s.workers|
    ensures IsActStep(s, ApplyLook(s, a, op), a)
  {
    LookMoves(s, a, op);
    LookControl(s, a, op);
  }

  lemma {:induction false} LookAdvances(s: State, a: nat, op: LookOp)
    requires EnabledLook(s, a, op) && |s.claims| == |s.workers|
    ensures Advances(s, LookStep(a, op))
  {
    var t := ApplyLook(s, a, op);
    LookIsActStep(s, a, op);
    if op.LoadActive? || !Acting(t, a) {
      ActDrops(s, t, a);
    } else {
      LookCloser(s, t, a);
    }
  }

  lemma {:induction false} ClaimAdvances(s: State, a: nat, k: nat)
    requires EnabledClaim(s, a, k) && |s.claims| == |s.workers| && WorkerOk(s, k)
    ensures Advances(s, ClaimStep(a, k))
  {
    ClaimMoves(s, a, k);
    ClaimControl(s, a, k);
    ActDrops(s, ApplyClaim(s, a, k), a);
  }

  lemma {:induction false} ActivateAdvances(s: State, a: nat, op: WakeOp)
    requires EnabledWake(s, a, op) && |s.claims| == |s.workers| && AgentOk(s, a)
    ensures Advances(s, WakeStep(a, op))
  {
    WakeMoves(s, a, op);
    WakeControl(s, a, op);
    ActDrops(s, ApplyWake(s, a, op), a);
  }

  // ----- The next step -----

  lemma {:induction false} ClearWorks(s: State, i: nat)
    requires EnabledQueue(s, i, ClearFlag)
    ensures LeavesLess(s, QueueStep(i, ClearFlag))
  {
    QueueMoves(s, i, ClearFlag);
    WorkDrops(s, ApplyQueue(s, i, ClearFlag), i);
  }

  /** The thread that holds the lock of the injector. */
  lemma {:induction false} HolderAdvances(s: State) returns (step: Step)
    requires Control(s) && InRun(s.main) && s.lock.Some?
    ensures Advances(s, step)
  {
    var i := s.lock.value;
    assert WorkerOk(s, i);
    if s.workers[i].pc.PopFlag? {
      step := PopStep(i, UpdateFlag);
      UpdateAdvances(s, i);
    } else {
      step := QueueStep(i, ClearFlag);
      ClearWorks(s, i);
      WorkAdvances(s, step);
    }
  }

  /** An agent that activates a worker. */
  lemma {:induction false} AgentAdvances(s: State, a: nat) returns (step: Step)
    requires Control(s) && a <= |s.workers| && Acting(s, a)
    ensures Advances(s, step)
  {
    assert AgentOk(s, a);
    match ActOf(s, a)
    case ActLoad => step := LookStep(a, LoadActive); LookAdvances(s, a, LoadActive);
    case ActBegin(k) => step := WakeStep(a, CountSearch); ActivateAdvances(s, a, CountSearch);
    case ActUnpark(k) => step := WakeStep(a, Unpark); ActivateAdvances(s, a, Unpark);
    case ActOr(seen) =>
      if k :| 0 <= k < |s.workers| && k !in seen {
        if k in s.active {
          step := LookStep(a, RetryBit(k));
          LookAdvances(s, a, RetryBit(k));
        } else {
          assert WorkerOk(s, k);
          step := ClaimStep(a, k);
          ClaimAdvances(s, a, k);
        }
      } else {
        step := LookStep(a, NoIdleWorker);
        LookAdvances(s, a, NoIdleWorker);
      }
  }

  /** Every worker is parked or searches, and the injector is not locked. */
  ghost predicate Settled(s: State) {
    s.lock.None? && NoneActing(s) && forall i :: 0 <= i < |s.workers| ==> !HasWork(s.workers[i].pc)
  }

  lemma {:induction false} SearcherAdvances(s: State, i: nat) returns (step: Step)
    requires Control(s) && Settled(s) && i < |s.workers| && Searches(s.workers[i].pc)
    ensures Advances(s, step)
  {
    assert WorkerOk(s, i) && Holds(s.workers[i]);
    match s.workers[i].pc
    case Top => step := IdleStep(i, TrySetInactive); TopAdvances(s, i);
    case LastCheck => step := IdleStep(i, ReadEmpty); LastAdvances(s, i);
    case AllInactive => step := IdleStep(i, SetAllInactive); InactiveAdvances(s, i);
    case PopPeek => step := PopStep(i, PeekFlag); PeekAdvances(s, i);
    case Steal => step := StealStep(i, StealFail(true)); GiveUpAdvances(s, i, StealFail(true));
    case GiveUp => step := StealStep(i, StopSearch); GiveUpAdvances(s, i, StopSearch);
    case PopLock =>
      step := PopStep(i, PopBucket);
      if |s.injector| == 0 {
        PopMisses(s, i);
      } else {
        PopFinds(s, i);
      }
    case _ => step := PopStep(i, StartSearch); StartAdvances(s, i);
  }

  /** An active worker. */
  lemma {:induction false} ActiveAdvances(s: State, i: nat) returns (step: Step)
    requires Control(s) && Settled(s) && i < |s.workers| && i in s.active
    ensures Advances(s, step)
  {
    assert WorkerOk(s, i) && ClaimOk(s, i);
    if Sleeping(s.workers[i].pc) {
      step := IdleStep(i, if s.workers[i].pc.NotifyMain? then UnparkMain else WakeUp);
      assert s.claims[i].Token?;
      WakeAdvances(s, i, step.idle);
    } else {
      assert !Acting(s, i) && !HasWork(s.workers[i].pc);
      step := SearcherAdvances(s, i);
    }
  }

  /** With no active worker left, the main thread is unparked. */
  lemma {:induction false} MainAdvances(s: State) returns (step: Step)
    requires Control(s) && Promised(s) && s.main.Waiting? && s.active == {}
    ensures Advances(s, step)
  {
    if s.mainToken {
      step := MainStep(ParkMain);
      var t := ApplyMain(s, ParkMain);
      assert Stales(t) == Stales(s) && Ranks(t) == Ranks(s);
    } else {
      var i :| 0 <= i < |s.workers| && s.workers[i].pc.NotifyMain?;
      step := IdleStep(i, UnparkMain);
      WakeAdvances(s, i, UnparkMain);
    }
  }

  lemma {:induction false} Advance(s: State) returns (step: Step)
    requires Control(s) && Promised(s) && InRun(s.main) && !(s.main.Check? && s.active == {})
    ensures Advances(s, step)
  {
    if s.lock.Some? {
      step := HolderAdvances(s);
    } else if a :| 0 <= a <= |s.workers| && Acting(s, a) {
      step := AgentAdvances(s, a);
    } else if i :| 0 <= i < |s.workers| && HasWork(s.workers[i].pc) {
      step := WorkerWorks(s, i);
      WorkAdvances(s, step);
    } else if s.active == {} {
      assert !Acting(s, |s.workers|);
      step := MainAdvances(s);
    } else {
      var i :| i in s.active;
      step := ActiveAdvances(s, i);
    }
  }

  /** From any state in `run`, with the invariant. */
  lemma {:induction false} FindReturn(s: State) returns (steps: seq<Step>)
    requires Inv(s) && Promised(s) && InRun(s.main)
    ensures IsRun(s, steps) && After(s, steps).main.Idle? && After(s, steps).live == {}
    decreases TotalWork(s), StaleCount(s), |s.active|, RankSum(s)
  {
    if s.main.Check? && s.active == {} {
      IdleIsEmpty(s);
      steps := [MainStep(CheckIdle)];
      assert steps[1..] == [];
      assert IsRun(Apply(s, steps[0]), []);
    } else {
      var step := Advance(s);
      StepKeepsInv(s, step);
      StepKeepsPromise(s, step);
      var rest := FindReturn(Apply(s, step));
      steps := [step] + rest;
      assert steps[1..] == rest;
    }
  }

  /** In every run, whatever `run` has to wait for, some continuation makes it return with all work done. */
  lemma {:induction false} CanAlwaysReturn(s: State) returns (steps: seq<Step>)
    requires Reachable(s) && InRun(s.main)
    ensures IsRun(s, steps) && After(s, steps).main.Idle? && After(s, steps).live == {}
  {
    ReachableIsPromised(s);
    steps := FindReturn(s);
  }
}
