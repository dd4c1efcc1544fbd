/**
  The work-stealing pool: worker threads, the injector queue, the bit field of active workers,
  the count of searching workers and the main thread, one atomic access per step.

  The local queues, their stealers and the injector hold runnables; pushing to, popping from and
  stealing from a local queue are atomic moves, and the two accesses made under the injector's
  lock (to the list and to the emptiness flag) are separate steps. The time limit of a search is
  nondeterministic. A violated assertion of the source and an underflow of the search count are
  recorded in `fault`.
*/
module PoolMachine {
  import opened Options
  import opened Injector

  /** The identity of a scheduled runnable. */
  type Rid = nat

  /** The progress of a call to `activate_worker` or `activate_worker_relaxed`. */
  datatype Act =
    | ActLoad
    | ActOr(seen: set<nat>)
    | ActBegin(k: nat)     // the bit of worker `k` was set
    | ActUnpark(k: nat)    // the search of worker `k` was counted

  /** Where a worker is in its loop. */
  datatype Pc =
    // deactivation
    | Top               // about to call `try_set_worker_inactive`
    | LastCheck         // last active worker, about to read the emptiness flag
    | AllInactive       // about to clear the active workers
    | NotifyMain        // about to unpark the main thread
    | Park
    // search
    | BeginSearch
    | PopPeek           // about to read the emptiness flag
    | PopLock           // about to lock the injector and pop a bucket
    | PopFlag(found: bool)  // holding the lock, about to update the flag
    | Extend            // moving the bucket to the local queue
    | Steal
    | GiveUp            // about to end an unsuccessful search
    | EndSearch
    // execution
    | Drain             // about to take a task from the fast slot or the local queue
    | Run               // running a task
    | Push              // scheduling: a task displaced from the fast slot is to be queued
    | BucketLock        // half of the local queue is to go to the injector
    | BucketFlag
    | Requeue           // the displaced task goes to the local queue after the bucket
    | InsertLock        // the displaced task is to go to the injector
    | InsertFlag
    | CheckSearch       // about to read the search count
    | Activating(act: Act)
    | ResumeSearch

  /** How far the activation of a parked worker is, and by which agent. */
  datatype Claim = Unclaimed | Claimed(agent: nat) | Counted(agent: nat) | Token

  datatype Worker = Worker(
    pc: Pc,
    local: seq<Rid>,
    fast: Option<Rid>,
    running: Option<Rid>,
    displaced: Option<Rid>,
    bucket: seq<Rid>)

  datatype MainPc = Booting | BootCheck | Idle | SpawnFlag | Starting(act: Act) | Check | Waiting

  datatype State = State(
    cap: nat,                    // the capacity of a bucket
    workers: seq<Worker>,
    claims: seq<Claim>,          // one per worker
    active: set<nat>,
    searching: int,
    injector: seq<seq<Rid>>,
    empty: bool,                 // the emptiness flag of the injector
    lock: Option<nat>,           // the agent in the injector's critical section
    main: MainPc,
    mainToken: bool,
    last: Option<nat>,           // auxiliary: the worker that found itself to be the last active one
    live: set<Rid>,              // auxiliary: scheduled runnables that did not finish running
    fault: bool)

  /** The steps of worker `i` that deactivate or wake it up. */
  datatype IdleOp = TrySetInactive | ReadEmpty | SetAllInactive | UnparkMain | WakeUp

  /** The steps of worker `i` taking a bucket from the injector. */
  datatype PopOp = StartSearch | PeekFlag | PopBucket | UpdateFlag | ExtendLocal

  /** The steps of worker `i` stealing tasks `0..k` of the queue of `j`, of which it runs the `m`-th first. */
  datatype StealOp = StealFrom(j: nat, k: nat, m: nat) | StealFail(timeout: bool) | StopSearch

  /** The steps of worker `i` running tasks, which may schedule tasks. */
  datatype RunOp = TakeTask | NoTask | Schedule(r: Rid) | Finish | ReadSearching

  /** The steps of worker `i` queueing the task that a scheduled task displaced. */
  datatype QueueOp = PushLocal | DrainLocal(k: nat) | PushFails | PushBucket | RequeueLocal | InsertTask | ClearFlag

  /** The steps of an agent (worker `a`, or the main thread) looking for an idle worker. */
  datatype LookOp = LoadActive | RetryBit(k: nat) | NoIdleWorker

  /** The steps of an agent that set the bit of an idle worker, and then activate it. */
  datatype WakeOp = CountSearch | Unpark

  datatype MainOp = BootWake | BootAssert | Spawn(r: Rid) | SpawnUpdateFlag | StartRun | CheckIdle | ParkMain

  datatype Step =
    | IdleStep(i: nat, idle: IdleOp)
    | PopStep(i: nat, pop: PopOp)
    | StealStep(i: nat, steal: StealOp)
    | RunStep(i: nat, run: RunOp)
    | QueueStep(i: nat, queue: QueueOp)
    | LookStep(a: nat, look: LookOp)
    | ClaimStep(a: nat, k: nat)
    | WakeStep(a: nat, wake: WakeOp)
    | MainStep(main: MainOp)

  function Blank(pc: Pc): Worker {
    Worker(pc, [], None, None, None, [])
  }

  /** The worker identifiers below `n`. */
  function Ids(n: nat): (r: set<nat>)
    ensures forall i :: i in r <==> 0 <= i < n
  {
    if n == 0 then {} else Ids(n - 1) + {n - 1}
  }

  /** The pool as the executor's constructor starts it: all workers active, none searching. */
  function Boot(n: nat, cap: nat): State {
    State(cap, seq(n, i => Blank(Top)), seq(n, i => Unclaimed), Ids(n), 0, [], true, None, Booting, false, None, {},
          false)
  }

  function Set(s: State, i: nat, w: Worker): State
    requires i < |s.workers|
  {
    s.(workers := s.workers[i := w])
  }

  function Goto(s: State, i: nat, pc: Pc): State
    requires i < |s.workers|
  {
    Set(s, i, s.workers[i].(pc := pc))
  }

  function ToSeq(o: Option<Rid>): seq<Rid> {
    match o case None => [] case Some(r) => [r]
  }

  predicate EnabledIdle(s: State, i: nat, op: IdleOp) {
    match op
    case TrySetInactive => i < |s.workers| && s.workers[i].pc.Top?
    case ReadEmpty => i < |s.workers| && s.workers[i].pc.LastCheck?
    case SetAllInactive => i < |s.workers| && s.workers[i].pc.AllInactive?
    case UnparkMain => i < |s.workers| && s.workers[i].pc.NotifyMain?
    case WakeUp => i < |s.workers| && s.workers[i].pc.Park? && i < |s.claims| && s.claims[i].Token?
  }

  function ApplyIdle(s: State, i: nat, op: IdleOp): State
    requires EnabledIdle(s, i, op)
  {
    match op
    case TrySetInactive =>
      var t := s.(fault := s.fault || i !in s.active);
      if s.active == {i} then Goto(t.(last := Some(i)), i, LastCheck)
      else Goto(t.(active := s.active - {i}), i, Park)
    case ReadEmpty =>
      if s.empty then Goto(s, i, AllInactive) else Goto(s.(last := None), i, BeginSearch)
    case SetAllInactive => Goto(s.(active := {}, last := None), i, NotifyMain)
    case UnparkMain => Goto(s.(mainToken := true), i, Park)
    case WakeUp => Goto(s.(claims := s.claims[i := Unclaimed]), i, PopPeek)
  }

  predicate EnabledPop(s: State, i: nat, op: PopOp) {
    match op
    case StartSearch => i < |s.workers| && (s.workers[i].pc.BeginSearch? || s.workers[i].pc.ResumeSearch?)
    case PeekFlag => i < |s.workers| && s.workers[i].pc.PopPeek?
    case PopBucket => i < |s.workers| && s.workers[i].pc.PopLock? && s.lock.None?
    case UpdateFlag => i < |s.workers| && s.workers[i].pc.PopFlag?
    case ExtendLocal => i < |s.workers| && s.workers[i].pc.Extend?
  }

  function ApplyPop(s: State, i: nat, op: PopOp): State
    requires EnabledPop(s, i, op)
  {
    var w := s.workers[i];
    match op
    case StartSearch => Goto(s.(searching := s.searching + 1), i, PopPeek)
    case PeekFlag => Goto(s, i, if s.empty then Steal else PopLock)
    case PopBucket =>
      var c := |s.injector|;
      if c == 0 then Goto(s.(lock := Some(i)), i, PopFlag(false))
      else Set(s.(injector := s.injector[..c - 1], lock := Some(i)), i,
               w.(pc := PopFlag(true), bucket := s.injector[c - 1]))
    case UpdateFlag =>
      Goto(s.(empty := s.empty || |s.injector| == 0, lock := None), i, if w.pc.found then Extend else Steal)
    case ExtendLocal => Set(s, i, w.(pc := EndSearch, local := w.local + w.bucket, bucket := []))
  }

  predicate EnabledSteal(s: State, i: nat, op: StealOp) {
    match op
    case StealFrom(j, k, m) =>
      i < |s.workers| && s.workers[i].pc.Steal? && j < |s.workers| && j != i && m < k <= |s.workers[j].local|
    case StealFail(timeout) => i < |s.workers| && s.workers[i].pc.Steal?
    case StopSearch => i < |s.workers| && (s.workers[i].pc.GiveUp? || s.workers[i].pc.EndSearch?)
  }

  function ApplySteal(s: State, i: nat, op: StealOp): State
    requires EnabledSteal(s, i, op)
  {
    var w := s.workers[i];
    match op
    case StealFrom(j, k, m) =>
      var v := s.workers[j];
      var t := Set(s, j, v.(local := v.local[k..])).(fault := s.fault || w.fast.Some?);
      Set(t, i, w.(pc := EndSearch, local := w.local + v.local[..m] + v.local[m + 1..k], fast := Some(v.local[m])))
    case StealFail(timeout) => Goto(s, i, if timeout then GiveUp else PopPeek)
    case StopSearch =>
      Goto(s.(searching := s.searching - 1, fault := s.fault || s.searching <= 0), i,
           if w.pc.GiveUp? then Top else Drain)
  }

  predicate EnabledRun(s: State, i: nat, op: RunOp) {
    match op
    case TakeTask => i < |s.workers| && s.workers[i].pc.Drain? && (s.workers[i].fast.Some? || |s.workers[i].local| > 0)
    case NoTask => i < |s.workers| && s.workers[i].pc.Drain? && s.workers[i].fast.None? && |s.workers[i].local| == 0
    case Schedule(r) => i < |s.workers| && s.workers[i].pc.Run? && r !in s.live
    case Finish => i < |s.workers| && s.workers[i].pc.Run?
    case ReadSearching => i < |s.workers| && s.workers[i].pc.CheckSearch?
  }

  /** The next task comes from the fast slot, or else from the front of the local queue. */
  function Take(w: Worker): Worker
    requires w.fast.Some? || |w.local| > 0
  {
    if w.fast.None? then w.(pc := Run, local := w.local[1..], running := Some(w.local[0]))
    else w.(pc := Run, fast := None, running := w.fast)
  }

  function ApplyRun(s: State, i: nat, op: RunOp): State
    requires EnabledRun(s, i, op)
  {
    var w := s.workers[i];
    match op
    case TakeTask => Set(s, i, Take(w))
    case NoTask => Goto(s, i, ResumeSearch)
    case Schedule(r) =>
      Set(s.(live := s.live + {r}), i,
          w.(pc := if w.fast.None? then Run else Push, fast := Some(r), displaced := w.fast))
    case Finish =>
      Set(s.(live := match w.running case None => s.live case Some(r) => s.live - {r}), i,
          w.(pc := Drain, running := None))
    case ReadSearching => Goto(s, i, if s.searching == 0 then Activating(ActLoad) else Run)
  }

  predicate EnabledQueue(s: State, i: nat, op: QueueOp) {
    match op
    case PushLocal => i < |s.workers| && s.workers[i].pc.Push?
    case DrainLocal(k) => i < |s.workers| && s.workers[i].pc.Push? && 0 < k <= |s.workers[i].local| && k <= s.cap
    case PushFails => i < |s.workers| && s.workers[i].pc.Push?
    case PushBucket => i < |s.workers| && s.workers[i].pc.BucketLock? && s.lock.None?
    case RequeueLocal => i < |s.workers| && s.workers[i].pc.Requeue?
    case InsertTask => i < |s.workers| && s.workers[i].pc.InsertLock? && s.lock.None?
    case ClearFlag => i < |s.workers| && (s.workers[i].pc.BucketFlag? || s.workers[i].pc.InsertFlag?)
  }

  function ApplyQueue(s: State, i: nat, op: QueueOp): State
    requires EnabledQueue(s, i, op)
  {
    var w := s.workers[i];
    match op
    case PushLocal => Set(s, i, w.(pc := CheckSearch, local := w.local + ToSeq(w.displaced), displaced := None))
    case DrainLocal(k) => Set(s, i, w.(pc := BucketLock, local := w.local[k..], bucket := w.local[..k]))
    case PushFails => Goto(s, i, InsertLock)
    case PushBucket =>
      Set(s.(injector := Pushed(s.injector, w.bucket), lock := Some(i)), i, w.(pc := BucketFlag, bucket := []))
    case RequeueLocal => Set(s, i, w.(pc := CheckSearch, local := w.local + ToSeq(w.displaced), displaced := None))
    case InsertTask =>
      Set(s.(injector := if w.displaced.None? then s.injector else Inserted(s.injector, s.cap, w.displaced.value),
             lock := Some(i)), i, w.(pc := InsertFlag, displaced := None))
    case ClearFlag =>
      Goto(s.(empty := false, lock := None), i, if w.pc.BucketFlag? then Requeue else CheckSearch)
  }

  /** Agent `a` is activating a worker: a worker, or the main thread if `a` is the number of workers. */
  predicate Acting(s: State, a: nat) {
    if a < |s.workers| then s.workers[a].pc.Activating? else a == |s.workers| && s.main.Starting?
  }

  function ActOf(s: State, a: nat): Act
    requires Acting(s, a)
  {
    if a < |s.workers| then s.workers[a].pc.act else s.main.act
  }

  function SetAct(s: State, a: nat, act: Act): State {
    if a < |s.workers| then Goto(s, a, Activating(act)) else s.(main := Starting(act))
  }

  /** The end of an activation: the agent goes on with what it was doing. */
  function EndAct(s: State, a: nat): State {
    if a < |s.workers| then Goto(s, a, Run) else s.(main := Check)
  }

  function SetClaim(s: State, k: nat, claim: Claim): State
    requires k < |s.claims|
  {
    s.(claims := s.claims[k := claim])
  }

  predicate EnabledLook(s: State, a: nat, op: LookOp) {
    && Acting(s, a)
    && var act := ActOf(s, a);
       match op
       case LoadActive => act.ActLoad?
       case RetryBit(k) => act.ActOr? && k < |s.claims| && k !in act.seen && k in s.active
       case NoIdleWorker => act.ActOr? && forall k :: 0 <= k < |s.workers| ==> k in act.seen
  }

  /** A read-modify-write that finds no idle worker in what it saw, or finds the bit already set. */
  function ApplyLook(s: State, a: nat, op: LookOp): State
    requires EnabledLook(s, a, op)
  {
    match op
    case LoadActive => SetAct(s, a, ActOr(s.active))
    case RetryBit(k) => SetAct(s, a, ActOr(s.active))
    case NoIdleWorker =>
      if a < |s.workers| || s.active == ActOf(s, a).seen then EndAct(s, a) else SetAct(s, a, ActOr(s.active))
  }

  predicate EnabledClaim(s: State, a: nat, k: nat) {
    Acting(s, a) && ActOf(s, a).ActOr? && k < |s.claims| && k !in ActOf(s, a).seen && k !in s.active
  }

  function ApplyClaim(s: State, a: nat, k: nat): State
    requires EnabledClaim(s, a, k)
  {
    SetAct(SetClaim(s, k, Claimed(a)), a, ActBegin(k)).(active := s.active + {k})
  }

  predicate EnabledWake(s: State, a: nat, op: WakeOp) {
    && Acting(s, a)
    && var act := ActOf(s, a);
       match op
       case CountSearch => act.ActBegin? && act.k < |s.claims|
       case Unpark => act.ActUnpark? && act.k < |s.claims|
  }

  function ApplyWake(s: State, a: nat, op: WakeOp): State
    requires EnabledWake(s, a, op)
  {
    var k := ActOf(s, a).k;
    match op
    case CountSearch => SetAct(SetClaim(s, k, Counted(a)), a, ActUnpark(k)).(searching := s.searching + 1)
    case Unpark => EndAct(SetClaim(s, k, Token), a)
  }

  predicate EnabledMain(s: State, op: MainOp) {
    match op
    case BootWake => s.main.Booting? && s.mainToken
    case BootAssert => s.main.BootCheck?
    case Spawn(r) => s.main.Idle? && s.lock.None? && r !in s.live
    case SpawnUpdateFlag => s.main.SpawnFlag?
    case StartRun => s.main.Idle?
    case CheckIdle => s.main.Check?
    case ParkMain => s.main.Waiting? && s.mainToken
  }

  function ApplyMain(s: State, op: MainOp): State
    requires EnabledMain(s, op)
  {
    match op
    case BootWake => s.(main := BootCheck, mainToken := false)
    case BootAssert => s.(main := Idle, fault := s.fault || s.active != {})
    case Spawn(r) =>
      s.(injector := Inserted(s.injector, s.cap, r), live := s.live + {r}, lock := Some(|s.workers|), main := SpawnFlag)
    case SpawnUpdateFlag => s.(empty := false, lock := None, main := Idle)
    case StartRun => s.(main := Starting(ActLoad))
    case CheckIdle => s.(main := if s.active == {} then Idle else Waiting)
    case ParkMain => s.(main := Check, mainToken := false)
  }

  predicate Enabled(s: State, step: Step) {
    match step
    case IdleStep(i, op) => EnabledIdle(s, i, op)
    case PopStep(i, op) => EnabledPop(s, i, op)
    case StealStep(i, op) => EnabledSteal(s, i, op)
    case RunStep(i, op) => EnabledRun(s, i, op)
    case QueueStep(i, op) => EnabledQueue(s, i, op)
    case LookStep(a, op) => EnabledLook(s, a, op)
    case ClaimStep(a, k) => EnabledClaim(s, a, k)
    case WakeStep(a, op) => EnabledWake(s, a, op)
    case MainStep(op) => EnabledMain(s, op)
  }

  function Apply(s: State, step: Step): State
    requires Enabled(s, step)
  {
    match step
    case IdleStep(i, op) => ApplyIdle(s, i, op)
    case PopStep(i, op) => ApplyPop(s, i, op)
    case StealStep(i, op) => ApplySteal(s, i, op)
    case RunStep(i, op) => ApplyRun(s, i, op)
    case QueueStep(i, op) => ApplyQueue(s, i, op)
    case LookStep(a, op) => ApplyLook(s, a, op)
    case ClaimStep(a, k) => ApplyClaim(s, a, k)
    case WakeStep(a, op) => ApplyWake(s, a, op)
    case MainStep(op) => ApplyMain(s, op)
  }

  predicate IsRun(s: State, steps: seq<Step>)
    decreases |steps|
  {
    steps == [] || (Enabled(s, steps[0]) && IsRun(Apply(s, steps[0]), steps[1..]))
  }

  function After(s: State, steps: seq<Step>): State
    requires IsRun(s, steps)
    decreases |steps|
  {
    if steps == [] then s else After(Apply(s, steps[0]), steps[1..])
  }
}
