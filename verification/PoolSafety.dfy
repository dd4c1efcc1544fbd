/**
  The invariant of the work-stealing pool, for each worker, each claim and each activation: which
  workers may be active, what a worker may hold at each point of its loop, and that every step keeps it.
*/
module PoolSafety {
  import opened Options
  import opened Injector
  import opened PoolMachine

  predicate Sleeping(pc: Pc) {
    pc.NotifyMain? || pc.Park?
  }

  predicate InCriticalSection(pc: Pc) {
    pc.PopFlag? || pc.BucketFlag? || pc.InsertFlag?
  }

  /** The worker runs a task. */
  predicate Busy(pc: Pc) {
    || pc.Run? || pc.CheckSearch? || pc.Activating? || pc.InsertFlag?
    || HasDisplaced(pc)
  }

  /** The worker holds a task displaced from its fast slot. */
  predicate HasDisplaced(pc: Pc) {
    pc.Push? || pc.InsertLock? || pc.Requeue? || pc.BucketFlag? || pc.BucketLock?
  }

  predicate HasBucket(pc: Pc) {
    (pc.PopFlag? && pc.found) || pc.Extend? || pc.BucketLock?
  }

  /** What a worker may hold at each point of its loop. */
  predicate Holds(w: Worker) {
    && (|w.local| > 0 || w.fast.Some? ==> w.pc.EndSearch? || w.pc.Drain? || Busy(w.pc))
    && (w.running.Some? <==> Busy(w.pc))
    && (w.displaced.Some? <==> HasDisplaced(w.pc))
    && (|w.bucket| > 0 ==> HasBucket(w.pc))
  }

  /** The bit of a worker, the claim of its activation and what it is doing agree. */
  predicate BitOk(pc: Pc, active: bool, claim: Claim) {
    if Sleeping(pc) then active <==> !claim.Unclaimed? else active && claim.Unclaimed?
  }

  /** The claim on a worker is the doing of an agent that is activating it. */
  predicate ClaimOk(s: State, k: nat)
    requires k < |s.claims|
  {
    match s.claims[k]
    case Claimed(a) => Acting(s, a) && ActOf(s, a) == ActBegin(k)
    case Counted(a) => Acting(s, a) && ActOf(s, a) == ActUnpark(k)
    case _ => true
  }

  /** What holds of each worker. */
  predicate WorkerOk(s: State, i: nat)
    requires |s.claims| == |s.workers|
  {
    i < |s.workers| ==>
      var w := s.workers[i];
      && BitOk(w.pc, i in s.active, s.claims[i])
      && (w.pc.NotifyMain? && s.main.Booting? ==> s.active == {})
      && (w.pc.LastCheck? || w.pc.AllInactive? <==> s.last == Some(i))
      && (w.pc.AllInactive? ==> |s.injector| == 0)
      && (InCriticalSection(w.pc) <==> s.lock == Some(i))
      && (w.pc.PopFlag? && s.empty ==> |s.injector| == 0)
      && (w.pc.BucketFlag? || w.pc.InsertFlag? ==> |s.injector| > 0)
  }

  /** What holds of each activation in progress. */
  predicate AgentOk(s: State, a: nat) {
    Acting(s, a) ==>
      match ActOf(s, a)
      case ActBegin(k) => k < |s.claims| && s.claims[k] == Claimed(a)
      case ActUnpark(k) => k < |s.claims| && s.claims[k] == Counted(a)
      case _ => true
  }

  /** Which workers may be active, given what the main thread and the last worker are doing. */
  predicate MainOk(s: State) {
    && |s.claims| == |s.workers| > 0
    && (s.main.BootCheck? || (s.main.Booting? && s.mainToken) ==> s.active == {})
    && (s.main.Idle? || s.main.SpawnFlag? ==> s.active == {})
    && (s.main.Starting? ==>
         match s.main.act
         case ActBegin(k) => s.active == {k}
         case ActUnpark(k) => s.active == {k}
         case _ => s.active == {})
    && (s.last.Some? ==> s.active == {s.last.value})
    && (s.active == {} && !(s.main.Idle? || s.main.SpawnFlag? || s.main.Starting?) ==> |s.injector| == 0)
  }

  /** The emptiness flag is exact whenever the injector is not locked. */
  predicate FlagOk(s: State) {
    && (s.lock.Some? ==> s.lock.value <= |s.workers|)
    && (s.main.SpawnFlag? <==> s.lock == Some(|s.workers|))
    && (s.main.SpawnFlag? ==> |s.injector| > 0)
    && (s.lock.None? ==> (s.empty <==> |s.injector| == 0))
  }

  /** A step of a worker that neither advances an activation nor makes a claim. */
  predicate Refrains(w: Worker, v: Worker) {
    && (w.pc.Activating? ==> v.pc.Activating? && v.pc.act == w.pc.act)
    && (v.pc.Activating? && !w.pc.Activating? ==> v.pc.act.ActLoad?)
  }

  predicate Freed(c: Claim, d: Claim) {
    d == c || (c.Token? && d.Unclaimed?)
  }

  predicate FreedAll(s: State, t: State) {
    |t.claims| == |s.claims| && forall x :: 0 <= x < |s.claims| ==> Freed(s.claims[x], t.claims[x])
  }

  predicate RefrainAll(s: State, t: State) {
    && |t.workers| == |s.workers| && t.main == s.main
    && forall x :: 0 <= x < |s.workers| ==> Refrains(s.workers[x], t.workers[x])
  }

  lemma {:induction false} RefrainingKeepsClaim(s: State, t: State, k: nat)
    requires RefrainAll(s, t) && FreedAll(s, t) && k < |s.claims| && ClaimOk(s, k)
    ensures ClaimOk(t, k)
  {
  }

  lemma {:induction false} RefrainingKeepsAgent(s: State, t: State, a: nat)
    requires RefrainAll(s, t) && FreedAll(s, t) && AgentOk(s, a)
    ensures AgentOk(t, a)
  {
  }

  /** What the steps of worker `i` rely on. */
  predicate Ready(s: State, i: nat) {
    && MainOk(s) && FlagOk(s) && AgentOk(s, |s.workers|) && i < |s.workers| && WorkerOk(s, i) && Holds(s.workers[i])
    && (s.lock.Some? ==> WorkerOk(s, s.lock.value))
  }

  predicate MainKept(s: State, t: State) {
    MainOk(t) && FlagOk(t) && t.main == s.main
  }

  /** Worker `j` after a step of a worker from `s` to `t`. */
  predicate Kept(s: State, t: State, j: nat)
    requires j < |s.workers| == |s.claims|
  {
    && |t.workers| == |s.workers| == |t.claims| && WorkerOk(t, j) && Holds(t.workers[j])
    && Refrains(s.workers[j], t.workers[j]) && Freed(s.claims[j], t.claims[j])
  }

  predicate IsOther(s: State, i: nat, j: nat) {
    |s.claims| == |s.workers| && j < |s.workers| && j != i && WorkerOk(s, j) && Holds(s.workers[j])
  }

  lemma {:induction false} StayLastKeepsOwn(s: State, i: nat, op: IdleOp)
    requires Ready(s, i) && EnabledIdle(s, i, op) && op.TrySetInactive? && s.active == {i}
    ensures MainKept(s, ApplyIdle(s, i, op)) && Kept(s, ApplyIdle(s, i, op), i)
  {
  }

  lemma {:induction false} GoInactiveKeepsOwn(s: State, i: nat, op: IdleOp)
    requires Ready(s, i) && EnabledIdle(s, i, op) && op.TrySetInactive? && s.active != {i}
    ensures MainKept(s, ApplyIdle(s, i, op)) && Kept(s, ApplyIdle(s, i, op), i)
  {
  }

  lemma {:induction false} ReadEmptyKeepsOwn(s: State, i: nat, op: IdleOp)
    requires Ready(s, i) && EnabledIdle(s, i, op) && op.ReadEmpty?
    ensures MainKept(s, ApplyIdle(s, i, op)) && Kept(s, ApplyIdle(s, i, op), i)
  {
  }

  lemma {:induction false} WakeOrSleepKeepsOwn(s: State, i: nat, op: IdleOp)
    requires Ready(s, i) && EnabledIdle(s, i, op) && !op.TrySetInactive? && !op.ReadEmpty?
    ensures MainKept(s, ApplyIdle(s, i, op)) && Kept(s, ApplyIdle(s, i, op), i)
  {
  }

  lemma {:induction false} IdleKeepsOwn(s: State, i: nat, op: IdleOp)
    requires Ready(s, i) && EnabledIdle(s, i, op)
    ensures MainKept(s, ApplyIdle(s, i, op)) && Kept(s, ApplyIdle(s, i, op), i)
  {
    if op.TrySetInactive? && s.active == {i} {
      StayLastKeepsOwn(s, i, op);
    } else if op.TrySetInactive? {
      GoInactiveKeepsOwn(s, i, op);
    } else if op.ReadEmpty? {
      ReadEmptyKeepsOwn(s, i, op);
    } else {
      WakeOrSleepKeepsOwn(s, i, op);
    }
  }

  lemma {:induction false} StayLastKeepsOther(s: State, i: nat, op: IdleOp, j: nat)
    requires Ready(s, i) && EnabledIdle(s, i, op) && IsOther(s, i, j) && op.TrySetInactive? && s.active == {i}
    ensures Kept(s, ApplyIdle(s, i, op), j)
  {
  }

  lemma {:induction false} GoInactiveKeepsOther(s: State, i: nat, op: IdleOp, j: nat)
    requires Ready(s, i) && EnabledIdle(s, i, op) && IsOther(s, i, j) && op.TrySetInactive? && s.active != {i}
    ensures Kept(s, ApplyIdle(s, i, op), j)
  {
  }

  lemma {:induction false} ReadEmptyKeepsOther(s: State, i: nat, op: IdleOp, j: nat)
    requires Ready(s, i) && EnabledIdle(s, i, op) && IsOther(s, i, j) && op.ReadEmpty?
    ensures Kept(s, ApplyIdle(s, i, op), j)
  {
  }

  lemma {:induction false} WakeOrSleepKeepsOther(s: State, i: nat, op: IdleOp, j: nat)
    requires Ready(s, i) && EnabledIdle(s, i, op) && IsOther(s, i, j) && !op.TrySetInactive? && !op.ReadEmpty?
    ensures Kept(s, ApplyIdle(s, i, op), j)
  {
  }

  lemma {:induction false} IdleKeepsOther(s: State, i: nat, op: IdleOp, j: nat)
    requires Ready(s, i) && EnabledIdle(s, i, op) && IsOther(s, i, j)
    ensures Kept(s, ApplyIdle(s, i, op), j)
  {
    if op.TrySetInactive? && s.active == {i} {
      StayLastKeepsOther(s, i, op, j);
    } else if op.TrySetInactive? {
      GoInactiveKeepsOther(s, i, op, j);
    } else if op.ReadEmpty? {
      ReadEmptyKeepsOther(s, i, op, j);
    } else {
      WakeOrSleepKeepsOther(s, i, op, j);
    }
  }

  lemma {:induction false} PeekKeepsOwn(s: State, i: nat, op: PopOp)
    requires Ready(s, i) && EnabledPop(s, i, op) && (op.StartSearch? || op.PeekFlag?)
    ensures MainKept(s, ApplyPop(s, i, op)) && Kept(s, ApplyPop(s, i, op), i)
  {
  }

  lemma {:induction false} PopBucketKeepsOwn(s: State, i: nat, op: PopOp)
    requires Ready(s, i) && EnabledPop(s, i, op) && op.PopBucket?
    ensures MainKept(s, ApplyPop(s, i, op)) && Kept(s, ApplyPop(s, i, op), i)
  {
  }

  lemma {:induction false} ExtendKeepsOwn(s: State, i: nat, op: PopOp)
    requires Ready(s, i) && EnabledPop(s, i, op) && (op.UpdateFlag? || op.ExtendLocal?)
    ensures MainKept(s, ApplyPop(s, i, op)) && Kept(s, ApplyPop(s, i, op), i)
  {
  }

  lemma {:induction false} PopKeepsOwn(s: State, i: nat, op: PopOp)
    requires Ready(s, i) && EnabledPop(s, i, op)
    ensures MainKept(s, ApplyPop(s, i, op)) && Kept(s, ApplyPop(s, i, op), i)
  {
    if op.StartSearch? || op.PeekFlag? {
      PeekKeepsOwn(s, i, op);
    } else if op.PopBucket? {
      PopBucketKeepsOwn(s, i, op);
    } else {
      ExtendKeepsOwn(s, i, op);
    }
  }

  lemma {:induction false} PeekKeepsOther(s: State, i: nat, op: PopOp, j: nat)
    requires Ready(s, i) && EnabledPop(s, i, op) && IsOther(s, i, j) && (op.StartSearch? || op.PeekFlag?)
    ensures Kept(s, ApplyPop(s, i, op), j)
  {
  }

  lemma {:induction false} PopBucketKeepsOther(s: State, i: nat, op: PopOp, j: nat)
    requires Ready(s, i) && EnabledPop(s, i, op) && IsOther(s, i, j) && op.PopBucket?
    ensures Kept(s, ApplyPop(s, i, op), j)
  {
  }

  lemma {:induction false} ExtendKeepsOther(s: State, i: nat, op: PopOp, j: nat)
    requires Ready(s, i) && EnabledPop(s, i, op) && IsOther(s, i, j) && (op.UpdateFlag? || op.ExtendLocal?)
    ensures Kept(s, ApplyPop(s, i, op), j)
  {
  }

  lemma {:induction false} PopKeepsOther(s: State, i: nat, op: PopOp, j: nat)
    requires Ready(s, i) && EnabledPop(s, i, op) && IsOther(s, i, j)
    ensures Kept(s, ApplyPop(s, i, op), j)
  {
    if op.StartSearch? || op.PeekFlag? {
      PeekKeepsOther(s, i, op, j);
    } else if op.PopBucket? {
      PopBucketKeepsOther(s, i, op, j);
    } else {
      ExtendKeepsOther(s, i, op, j);
    }
  }

  lemma {:induction false} StealKeepsOwn(s: State, i: nat, op: StealOp)
    requires Ready(s, i) && EnabledSteal(s, i, op)
    ensures MainKept(s, ApplySteal(s, i, op)) && Kept(s, ApplySteal(s, i, op), i)
  {
  }

  lemma {:induction false} StealKeepsOther(s: State, i: nat, op: StealOp, j: nat)
    requires Ready(s, i) && EnabledSteal(s, i, op) && IsOther(s, i, j)
    ensures Kept(s, ApplySteal(s, i, op), j)
  {
  }

  lemma {:induction false} RunKeepsOwn(s: State, i: nat, op: RunOp)
    requires Ready(s, i) && EnabledRun(s, i, op)
    ensures MainKept(s, ApplyRun(s, i, op)) && Kept(s, ApplyRun(s, i, op), i)
  {
  }

  lemma {:induction false} RunKeepsOther(s: State, i: nat, op: RunOp, j: nat)
    requires Ready(s, i) && EnabledRun(s, i, op) && IsOther(s, i, j)
    ensures Kept(s, ApplyRun(s, i, op), j)
  {
  }

  lemma {:induction false} LocalKeepsOwn(s: State, i: nat, op: QueueOp)
    requires Ready(s, i) && EnabledQueue(s, i, op)
    requires op.PushLocal? || op.DrainLocal? || op.PushFails? || op.RequeueLocal?
    ensures MainKept(s, ApplyQueue(s, i, op)) && Kept(s, ApplyQueue(s, i, op), i)
  {
  }

  lemma {:induction false} InjectKeepsOwn(s: State, i: nat, op: QueueOp)
    requires Ready(s, i) && EnabledQueue(s, i, op) && (op.PushBucket? || op.InsertTask? || op.ClearFlag?)
    ensures MainKept(s, ApplyQueue(s, i, op)) && Kept(s, ApplyQueue(s, i, op), i)
  {
  }

  lemma {:induction false} QueueKeepsOwn(s: State, i: nat, op: QueueOp)
    requires Ready(s, i) && EnabledQueue(s, i, op)
    ensures MainKept(s, ApplyQueue(s, i, op)) && Kept(s, ApplyQueue(s, i, op), i)
  {
    if op.PushLocal? || op.DrainLocal? || op.PushFails? || op.RequeueLocal? {
      LocalKeepsOwn(s, i, op);
    } else {
      InjectKeepsOwn(s, i, op);
    }
  }

  lemma {:induction false} LocalKeepsOther(s: State, i: nat, op: QueueOp, j: nat)
    requires Ready(s, i) && EnabledQueue(s, i, op) && IsOther(s, i, j)
    requires op.PushLocal? || op.DrainLocal? || op.PushFails? || op.RequeueLocal?
    ensures Kept(s, ApplyQueue(s, i, op), j)
  {
  }

  lemma {:induction false} InjectKeepsOther(s: State, i: nat, op: QueueOp, j: nat)
    requires Ready(s, i) && EnabledQueue(s, i, op) && IsOther(s, i, j)
    requires op.PushBucket? || op.InsertTask? || op.ClearFlag?
    ensures Kept(s, ApplyQueue(s, i, op), j)
  {
  }

  lemma {:induction false} QueueKeepsOther(s: State, i: nat, op: QueueOp, j: nat)
    requires Ready(s, i) && EnabledQueue(s, i, op) && IsOther(s, i, j)
    ensures Kept(s, ApplyQueue(s, i, op), j)
  {
    if op.PushLocal? || op.DrainLocal? || op.PushFails? || op.RequeueLocal? {
      LocalKeepsOther(s, i, op, j);
    } else {
      InjectKeepsOther(s, i, op, j);
    }
  }

  lemma {:induction false} LookKeepsMain(s: State, a: nat, op: LookOp)
    requires MainOk(s) && FlagOk(s) && WorkerOk(s, a) && AgentOk(s, a) && AgentOk(s, |s.workers|)
    requires EnabledLook(s, a, op)
    ensures var t := ApplyLook(s, a, op); MainOk(t) && FlagOk(t)
  {
    if op.NoIdleWorker? {
      assert 0 in ActOf(s, a).seen;
    }
  }

  lemma {:induction false} LookKeepsWorker(s: State, a: nat, op: LookOp, j: nat)
    requires MainOk(s) && FlagOk(s) && WorkerOk(s, a) && AgentOk(s, a) && WorkerOk(s, j)
    requires EnabledLook(s, a, op)
    ensures var t := ApplyLook(s, a, op); |t.workers| == |s.workers| == |t.claims| && WorkerOk(t, j)
  {
    if a != j < |s.workers| {
      assert ApplyLook(s, a, op).workers[j] == s.workers[j];
    }
  }

  lemma {:induction false} LookKeepsHolds(s: State, a: nat, op: LookOp, j: nat)
    requires EnabledLook(s, a, op) && j < |s.workers| && Holds(s.workers[j])
    ensures var t := ApplyLook(s, a, op); |t.workers| == |s.workers| && Holds(t.workers[j])
  {
  }

  lemma {:induction false} LookKeepsClaim(s: State, a: nat, op: LookOp, j: nat)
    requires |s.claims| == |s.workers| && WorkerOk(s, a) && AgentOk(s, a) && j < |s.claims| && ClaimOk(s, j)
    requires EnabledLook(s, a, op)
    ensures var t := ApplyLook(s, a, op); |t.claims| == |s.claims| && ClaimOk(t, j)
  {
  }

  lemma {:induction false} LookKeepsAgent(s: State, a: nat, op: LookOp, b: nat)
    requires |s.claims| == |s.workers| && WorkerOk(s, a) && AgentOk(s, a) && AgentOk(s, b)
    requires EnabledLook(s, a, op)
    ensures AgentOk(ApplyLook(s, a, op), b)
  {
  }

  lemma {:induction false} ClaimKeepsMain(s: State, a: nat, k: nat)
    requires MainOk(s) && FlagOk(s) && WorkerOk(s, a) && AgentOk(s, a) && AgentOk(s, |s.workers|)
    requires EnabledClaim(s, a, k) && WorkerOk(s, k)
    ensures var t := ApplyClaim(s, a, k); MainOk(t) && FlagOk(t)
  {
  }

  lemma {:induction false} ClaimKeepsWorker(s: State, a: nat, k: nat, j: nat)
    requires MainOk(s) && FlagOk(s) && WorkerOk(s, a) && AgentOk(s, a) && WorkerOk(s, j)
    requires EnabledClaim(s, a, k) && WorkerOk(s, k)
    ensures var t := ApplyClaim(s, a, k); |t.workers| == |s.workers| == |t.claims| && WorkerOk(t, j)
  {
    if a != j < |s.workers| {
      assert ApplyClaim(s, a, k).workers[j] == s.workers[j];
    }
  }

  lemma {:induction false} ClaimKeepsHolds(s: State, a: nat, k: nat, j: nat)
    requires EnabledClaim(s, a, k) && j < |s.workers| && Holds(s.workers[j])
    ensures var t := ApplyClaim(s, a, k); |t.workers| == |s.workers| && Holds(t.workers[j])
  {
  }

  lemma {:induction false} ClaimKeepsClaim(s: State, a: nat, k: nat, j: nat)
    requires |s.claims| == |s.workers| && WorkerOk(s, a) && AgentOk(s, a) && j < |s.claims| && ClaimOk(s, j)
    requires EnabledClaim(s, a, k) && WorkerOk(s, k)
    ensures var t := ApplyClaim(s, a, k); |t.claims| == |s.claims| && ClaimOk(t, j)
  {
  }

  lemma {:induction false} ClaimKeepsAgent(s: State, a: nat, k: nat, b: nat)
    requires |s.claims| == |s.workers| && WorkerOk(s, a) && AgentOk(s, a) && AgentOk(s, b)
    requires EnabledClaim(s, a, k) && WorkerOk(s, k)
    ensures AgentOk(ApplyClaim(s, a, k), b)
  {
  }

  lemma {:induction false} WakeKeepsMain(s: State, a: nat, op: WakeOp)
    requires MainOk(s) && FlagOk(s) && WorkerOk(s, a) && AgentOk(s, a) && AgentOk(s, |s.workers|)
    requires EnabledWake(s, a, op) && WorkerOk(s, ActOf(s, a).k)
    ensures var t := ApplyWake(s, a, op); MainOk(t) && FlagOk(t)
  {
  }

  lemma {:induction false} WakeKeepsWorker(s: State, a: nat, op: WakeOp, j: nat)
    requires MainOk(s) && FlagOk(s) && WorkerOk(s, a) && AgentOk(s, a) && WorkerOk(s, j)
    requires EnabledWake(s, a, op) && WorkerOk(s, ActOf(s, a).k)
    ensures var t := ApplyWake(s, a, op); |t.workers| == |s.workers| == |t.claims| && WorkerOk(t, j)
  {
    if a != j < |s.workers| {
      assert ApplyWake(s, a, op).workers[j] == s.workers[j];
    }
  }

  lemma {:induction false} WakeKeepsHolds(s: State, a: nat, op: WakeOp, j: nat)
    requires EnabledWake(s, a, op) && j < |s.workers| && Holds(s.workers[j])
    ensures var t := ApplyWake(s, a, op); |t.workers| == |s.workers| && Holds(t.workers[j])
  {
  }

  lemma {:induction false} WakeKeepsClaim(s: State, a: nat, op: WakeOp, j: nat)
    requires |s.claims| == |s.workers| && WorkerOk(s, a) && AgentOk(s, a) && j < |s.claims| && ClaimOk(s, j)
    requires EnabledWake(s, a, op) && WorkerOk(s, ActOf(s, a).k)
    ensures var t := ApplyWake(s, a, op); |t.claims| == |s.claims| && ClaimOk(t, j)
  {
  }

  lemma {:induction false} WakeKeepsAgent(s: State, a: nat, op: WakeOp, b: nat)
    requires |s.claims| == |s.workers| && WorkerOk(s, a) && AgentOk(s, a) && AgentOk(s, b)
    requires EnabledWake(s, a, op) && WorkerOk(s, ActOf(s, a).k)
    ensures AgentOk(ApplyWake(s, a, op), b)
  {
  }

  lemma {:induction false} MainKeepsMain(s: State, op: MainOp)
    requires MainOk(s) && FlagOk(s) && EnabledMain(s, op)
    ensures var t := ApplyMain(s, op); MainOk(t) && FlagOk(t)
  {
  }

  lemma {:induction false} MainKeepsWorker(s: State, op: MainOp, j: nat)
    requires MainOk(s) && FlagOk(s) && EnabledMain(s, op) && WorkerOk(s, j)
    ensures var t := ApplyMain(s, op); t.workers == s.workers && WorkerOk(t, j)
  {
  }

  lemma {:induction false} MainKeepsClaims(s: State, op: MainOp, k: nat, a: nat)
    requires EnabledMain(s, op) && |s.claims| == |s.workers| && k < |s.claims| && ClaimOk(s, k) && AgentOk(s, a)
    ensures var t := ApplyMain(s, op); |t.claims| == |s.claims| && ClaimOk(t, k) && AgentOk(t, a)
  {
  }
}
