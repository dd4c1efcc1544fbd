/** The executor never waits forever: in every run, while it waits some thread can go on. */
module PoolProgress {
  import opened Injector
  import opened PoolMachine
  import opened PoolSafety
  import opened PoolCounts
  import opened PoolQuiescence

  ghost predicate Notifying(s: State) {
    exists i :: 0 <= i < |s.workers| && s.workers[i].pc.NotifyMain?
  }

  /** A waiting main thread was or will be unparked by the last worker of an idle pool. */
  ghost predicate Promised(s: State) {
    && (forall k :: k in s.active ==> k < |s.workers|)
    && ((s.main.Waiting? || s.main.Booting?) && s.active == {} ==> s.mainToken || Notifying(s))
  }

  /** The thread that takes a step. */
  function AgentOf(s: State, step: Step): nat {
    match step
    case IdleStep(i, _) => i
    case PopStep(i, _) => i
    case StealStep(i, _) => i
    case RunStep(i, _) => i
    case QueueStep(i, _) => i
    case LookStep(a, _) => a
    case ClaimStep(a, _) => a
    case WakeStep(a, _) => a
    case MainStep(_) => |s.workers|
  }

  /** In an idle pool a worker can only be telling the main thread. */
  lemma {:induction false} IdlePoolSteps(s: State, step: Step)
    requires Control(s) && Enabled(s, step) && s.active == {}
    ensures AgentOf(s, step) < |s.workers| ==> step.IdleStep? && step.idle.UnparkMain?
  {
    var i := AgentOf(s, step);
    if i < |s.workers| {
      assert WorkerOk(s, i);
    }
  }

  lemma {:induction false} IdleKeepsActive(s: State, i: nat, op: IdleOp)
    requires EnabledIdle(s, i, op) && s.active != {} && !op.SetAllInactive?
    ensures ApplyIdle(s, i, op).active != {}
  {
    if op.TrySetInactive? && s.active != {i} {
      var j :| j in s.active && j != i;
      assert j in ApplyIdle(s, i, op).active;
    }
  }

  lemma {:induction false} RunKeepsActive(s: State, i: nat, op: RunOp)
    requires EnabledRun(s, i, op)
    ensures ApplyRun(s, i, op).active == s.active
  {
  }

  lemma {:induction false} QueueKeepsActive(s: State, i: nat, op: QueueOp)
    requires EnabledQueue(s, i, op)
    ensures ApplyQueue(s, i, op).active == s.active
  {
  }

  lemma {:induction false} WorkerKeepsActive(s: State, step: Step)
    requires Enabled(s, step) && (step.PopStep? || step.StealStep? || step.RunStep? || step.QueueStep?)
    ensures Apply(s, step).active == s.active
  {
    match step
    case RunStep(i, op) => RunKeepsActive(s, i, op);
    case QueueStep(i, op) => QueueKeepsActive(s, i, op);
    case PopStep(i, op) =>
    case StealStep(i, op) =>
  }

  lemma {:induction false} WorkerKeepsSize(s: State, step: Step)
    requires Enabled(s, step) && (step.PopStep? || step.StealStep? || step.RunStep? || step.QueueStep?)
    ensures |Apply(s, step).workers| == |s.workers|
  {
    match step
    case PopStep(i, op) => PopMoves(s, i, op);
    case RunStep(i, op) => RunMoves(s, i, op);
    case QueueStep(i, op) => QueueMoves(s, i, op);
    case StealStep(i, op) =>
  }

  lemma {:induction false} LookKeepsActive(s: State, a: nat, op: LookOp)
    requires EnabledLook(s, a, op)
    ensures var t := ApplyLook(s, a, op); t.active == s.active && |t.workers| == |s.workers|
  {
  }

  lemma {:induction false} WakeKeepsActive(s: State, a: nat, op: WakeOp)
    requires EnabledWake(s, a, op)
    ensures var t := ApplyWake(s, a, op); t.active == s.active && |t.workers| == |s.workers|
  {
  }

  lemma {:induction false} ActivationKeepsActive(s: State, step: Step)
    requires Enabled(s, step) && (step.LookStep? || step.ClaimStep? || step.WakeStep?)
    ensures var t := Apply(s, step); s.active <= t.active && |t.workers| == |s.workers|
    ensures forall k :: k in Apply(s, step).active ==> k in s.active || k < |s.claims|
  {
    match step
    case LookStep(a, op) => LookKeepsActive(s, a, op);
    case WakeStep(a, op) => WakeKeepsActive(s, a, op);
    case _ =>
  }

  lemma {:induction false} IdleKeepsRange(s: State, i: nat, op: IdleOp)
    requires EnabledIdle(s, i, op)
    ensures var t := ApplyIdle(s, i, op); t.active <= s.active && |t.workers| == |s.workers|
  {
  }

  lemma {:induction false} StepKeepsRange(s: State, step: Step)
    requires Enabled(s, step) && |s.claims| == |s.workers| && forall k :: k in s.active ==> k < |s.workers|
    ensures var t := Apply(s, step); forall k :: k in t.active ==> k < |t.workers|
  {
    match step
    case IdleStep(i, op) => IdleKeepsRange(s, i, op);
    case MainStep(op) =>
    case LookStep(a, op) => ActivationKeepsActive(s, step);
    case ClaimStep(a, k) => ActivationKeepsActive(s, step);
    case WakeStep(a, op) => ActivationKeepsActive(s, step);
    case _ => WorkerKeepsActive(s, step); WorkerKeepsSize(s, step);
  }

  /** The pool becomes idle by the doing of its last worker only. */
  lemma {:induction false} BecomesIdle(s: State, step: Step)
    requires Enabled(s, step) && s.active != {} && Apply(s, step).active == {}
    ensures step.IdleStep? && step.idle.SetAllInactive?
  {
    match step
    case IdleStep(i, op) =>
      if !op.SetAllInactive? {
        IdleKeepsActive(s, i, op);
        assert false;
      }
    case MainStep(op) =>
    case LookStep(a, op) => ActivationKeepsActive(s, step);
    case ClaimStep(a, k) => ActivationKeepsActive(s, step);
    case WakeStep(a, op) => ActivationKeepsActive(s, step);
    case _ => WorkerKeepsActive(s, step);
  }

  lemma {:induction false} StepKeepsPromise(s: State, step: Step)
    requires Control(s) && Promised(s) && Enabled(s, step)
    ensures Promised(Apply(s, step))
  {
    var t := Apply(s, step);
    StepKeepsRange(s, step);
    if t.active == {} && (t.main.Waiting? || t.main.Booting?) {
      if s.active == {} {
        IdlePoolSteps(s, step);
      } else {
        BecomesIdle(s, step);
        assert t.workers[step.i].pc.NotifyMain?;
      }
    }
  }

  /** The thread that holds the lock of the injector can go on. */
  lemma {:induction false} HolderGoesOn(s: State) returns (step: Step)
    requires Control(s) && s.lock.Some?
    ensures Enabled(s, step)
  {
    var a := s.lock.value;
    if a < |s.workers| {
      assert WorkerOk(s, a);
      step := if s.workers[a].pc.PopFlag? then PopStep(a, UpdateFlag) else QueueStep(a, ClearFlag);
    } else {
      step := MainStep(SpawnUpdateFlag);
    }
  }

  /** An agent activating a worker can go on. */
  lemma {:induction false} ActivationGoesOn(s: State, a: nat) returns (step: Step)
    requires Control(s) && Acting(s, a)
    ensures Enabled(s, step)
  {
    assert AgentOk(s, a);
    match ActOf(s, a)
    case ActLoad => step := LookStep(a, LoadActive);
    case ActBegin(k) => step := WakeStep(a, CountSearch);
    case ActUnpark(k) => step := WakeStep(a, Unpark);
    case ActOr(seen) =>
      if k :| 0 <= k < |s.workers| && k !in seen {
        step := if k in s.active then LookStep(a, RetryBit(k)) else ClaimStep(a, k);
      } else {
        step := LookStep(a, NoIdleWorker);
      }
  }

  /** An active worker that is parked is being activated, or was unparked. */
  lemma {:induction false} SleeperGoesOn(s: State, i: nat) returns (step: Step)
    requires Control(s) && i < |s.workers| && i in s.active && Sleeping(s.workers[i].pc)
    ensures Enabled(s, step)
  {
    assert WorkerOk(s, i) && ClaimOk(s, i);
    if s.workers[i].pc.NotifyMain? {
      step := IdleStep(i, UnparkMain);
    } else if s.claims[i].Token? {
      step := IdleStep(i, WakeUp);
    } else {
      step := ActivationGoesOn(s, s.claims[i].agent);
    }
  }

  lemma {:induction false} SearcherGoesOn(s: State, i: nat) returns (step: Step)
    requires Control(s) && i < |s.workers|
    requires !Sleeping(s.workers[i].pc) && !s.workers[i].pc.Drain? && !Busy(s.workers[i].pc)
    ensures Enabled(s, step)
  {
    match s.workers[i].pc
    case Top => step := IdleStep(i, TrySetInactive);
    case LastCheck => step := IdleStep(i, ReadEmpty);
    case AllInactive => step := IdleStep(i, SetAllInactive);
    case BeginSearch => step := PopStep(i, StartSearch);
    case ResumeSearch => step := PopStep(i, StartSearch);
    case PopPeek => step := PopStep(i, PeekFlag);
    case PopFlag(found) => step := PopStep(i, UpdateFlag);
    case Extend => step := PopStep(i, ExtendLocal);
    case Steal => step := StealStep(i, StealFail(true));
    case GiveUp => step := StealStep(i, StopSearch);
    case EndSearch => step := StealStep(i, StopSearch);
    case PopLock =>
      if s.lock.Some? {
        step := HolderGoesOn(s);
      } else {
        step := PopStep(i, PopBucket);
      }
  }

  lemma {:induction false} RunnerGoesOn(s: State, i: nat) returns (step: Step)
    requires Control(s) && i < |s.workers|
    requires s.workers[i].pc.Drain? || Busy(s.workers[i].pc)
    ensures Enabled(s, step)
  {
    var w := s.workers[i];
    match w.pc
    case Drain => step := RunStep(i, if w.fast.Some? || |w.local| > 0 then TakeTask else NoTask);
    case Run => step := RunStep(i, Finish);
    case CheckSearch => step := RunStep(i, ReadSearching);
    case Activating(act) => step := ActivationGoesOn(s, i);
    case Push => step := QueueStep(i, PushLocal);
    case BucketFlag => step := QueueStep(i, ClearFlag);
    case InsertFlag => step := QueueStep(i, ClearFlag);
    case Requeue => step := QueueStep(i, RequeueLocal);
    case InsertLock =>
      if s.lock.Some? {
        step := HolderGoesOn(s);
      } else {
        step := QueueStep(i, InsertTask);
      }
    case BucketLock =>
      if s.lock.Some? {
        step := HolderGoesOn(s);
      } else {
        step := QueueStep(i, PushBucket);
      }
  }

  lemma {:induction false} RunKeepsPromise(s: State, steps: seq<Step>)
    requires Inv(s) && Promised(s) && IsRun(s, steps)
    ensures Promised(After(s, steps))
    decreases |steps|
  {
    if steps != [] {
      StepKeepsInv(s, steps[0]);
      StepKeepsPromise(s, steps[0]);
      RunKeepsPromise(Apply(s, steps[0]), steps[1..]);
    }
  }

  lemma {:induction false} BootIsPromised(n: nat, cap: nat)
    requires n > 0
    ensures Promised(Boot(n, cap))
  {
    assert 0 in Boot(n, cap).active;
  }

  lemma {:induction false} HistoryIsPromised(n: nat, cap: nat, steps: seq<Step>)
    requires n > 0 && IsRun(Boot(n, cap), steps)
    ensures Inv(After(Boot(n, cap), steps)) && Promised(After(Boot(n, cap), steps))
  {
    BootIsOk(n, cap);
    BootIsPromised(n, cap);
    RunKeepsInv(Boot(n, cap), steps);
    RunKeepsPromise(Boot(n, cap), steps);
  }

  lemma {:induction false} ReachableIsPromised(s: State)
    requires Reachable(s)
    ensures Inv(s) && Promised(s)
  {
    var n: nat, cap: nat, steps: seq<Step> :| n > 0 && IsRun(Boot(n, cap), steps) && s == After(Boot(n, cap), steps);
    HistoryIsPromised(n, cap, steps);
  }

  /**
    Deadlock freedom: in every run, while the main thread is blocked a thread can take a step.
    With no active worker left it is the main thread itself, or the worker about to unpark it.
  */
  lemma {:induction false} NeverStuck(s: State) returns (step: Step)
    requires Reachable(s) && (s.main.Waiting? || s.main.Booting?)
    ensures Enabled(s, step)
    ensures s.active == {} ==> step.MainStep? || (step.IdleStep? && step.idle.UnparkMain?)
  {
    ReachableIsPromised(s);
    if s.active == {} {
      if s.mainToken {
        step := MainStep(if s.main.Waiting? then ParkMain else BootWake);
      } else {
        var i :| 0 <= i < |s.workers| && s.workers[i].pc.NotifyMain?;
        step := IdleStep(i, UnparkMain);
      }
    } else {
      var i :| i in s.active;
      if Sleeping(s.workers[i].pc) {
        step := SleeperGoesOn(s, i);
      } else if s.workers[i].pc.Drain? || Busy(s.workers[i].pc) {
        step := RunnerGoesOn(s, i);
      } else {
        step := SearcherGoesOn(s, i);
      }
    }
  }
}
