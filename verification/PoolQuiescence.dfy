/** The invariant of the pool, and what it means for every run of the executor. */
module PoolQuiescence {
  import opened Options
  import opened Injector
  import opened PoolMachine
  import opened PoolSafety
  import opened PoolCounts

  ghost predicate Control(s: State) {
    && MainOk(s) && FlagOk(s)
    && (forall i :: 0 <= i < |s.workers| ==> WorkerOk(s, i))
    && (forall i :: 0 <= i < |s.workers| ==> Holds(s.workers[i]))
    && (forall k :: 0 <= k < |s.claims| ==> ClaimOk(s, k))
    && (forall a :: 0 <= a <= |s.workers| ==> AgentOk(s, a))
  }

  ghost predicate Counts(s: State) {
    CountOk(s) && forall r :: PlacesOk(s, r)
  }

  ghost predicate Inv(s: State) {
    Control(s) && Counts(s) && !s.fault
  }

  lemma {:induction false} BootIsOk(n: nat, cap: nat)
    requires n > 0
    ensures Inv(Boot(n, cap))
  {
    var s := Boot(n, cap);
    BootCounts(n, s.workers, s.claims);
    forall r ensures PlacesOk(s, r) {
      NothingHeld(s.workers, r);
    }
  }

  lemma {:induction false} BootCounts(n: nat, ws: seq<Worker>, cs: seq<Claim>)
    requires |ws| == |cs| == n
    requires forall i :: 0 <= i < n ==> !InSearch(ws[i].pc)
    requires forall i :: 0 <= i < n ==> cs[i].Unclaimed?
    ensures Searchers(ws) == Called(cs) == 0
  {
    if n > 0 {
      BootCounts(n - 1, ws[..n - 1], cs[..n - 1]);
    }
  }

  /** Workers with empty hands hold no runnable. */
  lemma {:induction false} NothingHeld(ws: seq<Worker>, r: Rid)
    requires forall i :: 0 <= i < |ws| ==> ws[i] == Blank(ws[i].pc)
    ensures Total(ws, r) == 0
  {
    var n := |ws| - 1;
    if n >= 0 {
      NothingHeld(ws[..n], r);
      assert Held(Blank(ws[n].pc), r) == 0;
    }
  }

  lemma {:induction false} KeptControl(s: State, t: State)
    requires Control(s) && MainOk(t) && FlagOk(t) && t.main == s.main
    requires forall j :: 0 <= j < |s.workers| ==> Kept(s, t, j)
    ensures Control(t)
  {
    assert Kept(s, t, 0);
    forall j | 0 <= j < |s.workers|
      ensures WorkerOk(t, j) && Holds(t.workers[j])
      ensures Refrains(s.workers[j], t.workers[j]) && Freed(s.claims[j], t.claims[j])
    {
      assert Kept(s, t, j);
    }
    forall k | 0 <= k < |s.claims| ensures ClaimOk(t, k) {
      RefrainingKeepsClaim(s, t, k);
    }
    forall a | 0 <= a <= |s.workers| ensures AgentOk(t, a) {
      RefrainingKeepsAgent(s, t, a);
    }
  }

  lemma {:induction false} IdleKeepsControl(s: State, i: nat, op: IdleOp, t: State)
    requires Control(s) && EnabledIdle(s, i, op) && t == ApplyIdle(s, i, op)
    ensures Control(t)
  {
    IdleKeepsOwn(s, i, op);
    forall j | 0 <= j < |s.workers| && j != i ensures Kept(s, t, j) {
      IdleKeepsOther(s, i, op, j);
    }
    KeptControl(s, t);
  }

  lemma {:induction false} PopKeepsControl(s: State, i: nat, op: PopOp, t: State)
    requires Control(s) && EnabledPop(s, i, op) && t == ApplyPop(s, i, op)
    ensures Control(t)
  {
    PopKeepsOwn(s, i, op);
    forall j | 0 <= j < |s.workers| && j != i ensures Kept(s, t, j) {
      PopKeepsOther(s, i, op, j);
    }
    KeptControl(s, t);
  }

  lemma {:induction false} StealKeepsControl(s: State, i: nat, op: StealOp, t: State)
    requires Control(s) && EnabledSteal(s, i, op) && t == ApplySteal(s, i, op)
    ensures Control(t)
  {
    StealKeepsOwn(s, i, op);
    forall j | 0 <= j < |s.workers| && j != i ensures Kept(s, t, j) {
      StealKeepsOther(s, i, op, j);
    }
    KeptControl(s, t);
  }

  lemma {:induction false} RunKeepsControl(s: State, i: nat, op: RunOp, t: State)
    requires Control(s) && EnabledRun(s, i, op) && t == ApplyRun(s, i, op)
    ensures Control(t)
  {
    RunKeepsOwn(s, i, op);
    forall j | 0 <= j < |s.workers| && j != i ensures Kept(s, t, j) {
      RunKeepsOther(s, i, op, j);
    }
    KeptControl(s, t);
  }

  lemma {:induction false} QueueKeepsControl(s: State, i: nat, op: QueueOp, t: State)
    requires Control(s) && EnabledQueue(s, i, op) && t == ApplyQueue(s, i, op)
    ensures Control(t)
  {
    QueueKeepsOwn(s, i, op);
    forall j | 0 <= j < |s.workers| && j != i ensures Kept(s, t, j) {
      QueueKeepsOther(s, i, op, j);
    }
    KeptControl(s, t);
  }

  lemma {:induction false} LookKeepsControl(s: State, a: nat, op: LookOp, t: State)
    requires Control(s) && EnabledLook(s, a, op) && t == ApplyLook(s, a, op)
    ensures Control(t)
  {
    assert AgentOk(s, a) && AgentOk(s, |s.workers|);
    LookKeepsMain(s, a, op);
    forall j | 0 <= j < |s.workers| ensures WorkerOk(t, j) && Holds(t.workers[j]) {
      LookKeepsWorker(s, a, op, j);
      LookKeepsHolds(s, a, op, j);
    }
    forall j | 0 <= j < |s.claims| ensures ClaimOk(t, j) {
      LookKeepsClaim(s, a, op, j);
    }
    forall b | 0 <= b <= |s.workers| ensures AgentOk(t, b) {
      LookKeepsAgent(s, a, op, b);
    }
  }

  lemma {:induction false} ClaimKeepsControl(s: State, a: nat, k: nat, t: State)
    requires Control(s) && EnabledClaim(s, a, k) && t == ApplyClaim(s, a, k)
    ensures Control(t)
  {
    assert AgentOk(s, a) && AgentOk(s, |s.workers|);
    ClaimKeepsMain(s, a, k);
    forall j | 0 <= j < |s.workers| ensures WorkerOk(t, j) && Holds(t.workers[j]) {
      ClaimKeepsWorker(s, a, k, j);
      ClaimKeepsHolds(s, a, k, j);
    }
    forall j | 0 <= j < |s.claims| ensures ClaimOk(t, j) {
      ClaimKeepsClaim(s, a, k, j);
    }
    forall b | 0 <= b <= |s.workers| ensures AgentOk(t, b) {
      ClaimKeepsAgent(s, a, k, b);
    }
  }

  lemma {:induction false} WakeKeepsControl(s: State, a: nat, op: WakeOp, t: State)
    requires Control(s) && EnabledWake(s, a, op) && t == ApplyWake(s, a, op)
    ensures Control(t)
  {
    assert AgentOk(s, a) && AgentOk(s, |s.workers|);
    WakeKeepsMain(s, a, op);
    forall j | 0 <= j < |s.workers| ensures WorkerOk(t, j) && Holds(t.workers[j]) {
      WakeKeepsWorker(s, a, op, j);
      WakeKeepsHolds(s, a, op, j);
    }
    forall j | 0 <= j < |s.claims| ensures ClaimOk(t, j) {
      WakeKeepsClaim(s, a, op, j);
    }
    forall b | 0 <= b <= |s.workers| ensures AgentOk(t, b) {
      WakeKeepsAgent(s, a, op, b);
    }
  }

  lemma {:induction false} MainKeepsControl(s: State, op: MainOp, t: State)
    requires Control(s) && EnabledMain(s, op) && t == ApplyMain(s, op)
    ensures Control(t)
  {
    MainKeepsMain(s, op);
    forall j | 0 <= j < |s.workers| ensures WorkerOk(t, j) {
      MainKeepsWorker(s, op, j);
    }
    forall j | 0 <= j < |s.claims| ensures ClaimOk(t, j) {
      MainKeepsClaims(s, op, j, 0);
    }
    forall b | 0 <= b <= |s.workers| ensures AgentOk(t, b) {
      MainKeepsClaims(s, op, 0, b);
    }
  }

  lemma {:induction false} StepKeepsControl(s: State, step: Step)
    requires Control(s) && Enabled(s, step)
    ensures Control(Apply(s, step))
  {
    match step
    case IdleStep(i, op) => IdleKeepsControl(s, i, op, Apply(s, step));
    case PopStep(i, op) => PopKeepsControl(s, i, op, Apply(s, step));
    case StealStep(i, op) => StealKeepsControl(s, i, op, Apply(s, step));
    case RunStep(i, op) => RunKeepsControl(s, i, op, Apply(s, step));
    case QueueStep(i, op) => QueueKeepsControl(s, i, op, Apply(s, step));
    case LookStep(a, op) => LookKeepsControl(s, a, op, Apply(s, step));
    case ClaimStep(a, k) => ClaimKeepsControl(s, a, k, Apply(s, step));
    case WakeStep(a, op) => WakeKeepsControl(s, a, op, Apply(s, step));
    case MainStep(op) => MainKeepsControl(s, op, Apply(s, step));
  }

  lemma {:induction false} HeldIsLive(s: State, i: nat, r: Rid)
    requires PlacesOk(s, r) && i < |s.workers|
    ensures s.workers[i].running == Some(r) ==> r in s.live
  {
    TotalAtLeast(s.workers, i, r);
  }

  /** A step of worker `i` that follows the search count and the runnables. */
  lemma {:induction false} MovesKeepCounts(s: State, t: State, i: nat, r: Rid)
    requires CountOk(s) && PlacesOk(s, r) && i < |s.workers| && CountMoves(s, t, i, i) && Balance(s, t, i, r)
    ensures CountOk(t) && PlacesOk(t, r)
  {
    MovesKeepCount(s, t, i, i);
    BalanceKeepsPlaces(s, t, i, r);
  }

  lemma {:induction false} WorkerStepKeepsCounts(s: State, step: Step, r: Rid, t: State)
    requires Control(s) && CountOk(s) && PlacesOk(s, r) && Enabled(s, step) && t == Apply(s, step)
    requires step.IdleStep? || step.PopStep? || step.StealStep? || step.RunStep? || step.QueueStep?
    ensures CountOk(t) && PlacesOk(t, r)
  {
    var i := step.i;
    if step.StealStep? && step.steal.StealFrom? {
      StealKeepsCounts(s, i, step.steal, r);
    } else {
      match step {
        case IdleStep(_, op) => IdleMoves(s, i, op); IdleControl(s, i, op); ControlBalance(s, t, i, r);
        case PopStep(_, op) => PopMoves(s, i, op); PopBalance(s, i, op, r);
        case StealStep(_, op) => StealMoves(s, i, op); ControlBalance(s, t, i, r);
        case RunStep(_, op) => HeldIsLive(s, i, r); RunMoves(s, i, op); RunBalance(s, i, op, r);
        case QueueStep(_, op) => QueueMoves(s, i, op); QueueBalance(s, i, op, r);
        case _ =>
      }
      MovesKeepCounts(s, t, i, r);
    }
  }

  /** An activation moves no runnable, and counts the search of the worker it wakes up. */
  lemma {:induction false} ActivationKeepsCounts(s: State, t: State, a: nat, k: nat, r: Rid)
    requires CountOk(s) && PlacesOk(s, r) && CountMoves(s, t, a, k) && t.injector == s.injector && t.live == s.live
    requires a < |s.workers| ==> OnlyControl(s, t, a)
    ensures CountOk(t) && PlacesOk(t, r)
  {
    MovesKeepCount(s, t, a, k);
    if a < |s.workers| {
      ControlBalance(s, t, a, r);
      BalanceKeepsPlaces(s, t, a, r);
    }
  }

  lemma {:induction false} StepKeepsCounts(s: State, step: Step, r: Rid, t: State)
    requires Control(s) && CountOk(s) && PlacesOk(s, r) && Enabled(s, step) && t == Apply(s, step)
    ensures CountOk(t) && PlacesOk(t, r)
  {
    match step
    case LookStep(a, op) => LookMoves(s, a, op); LookControl(s, a, op); ActivationKeepsCounts(s, t, a, a, r);
    case ClaimStep(a, k) => ClaimMoves(s, a, k); ClaimControl(s, a, k); ActivationKeepsCounts(s, t, a, k, r);
    case WakeStep(a, op) =>
      WakeMoves(s, a, op);
      WakeControl(s, a, op);
      ActivationKeepsCounts(s, t, a, ActOf(s, a).k, r);
    case MainStep(op) => MainKeepsCounts(s, op, r);
    case _ => WorkerStepKeepsCounts(s, step, r, t);
  }

  /** A worker that tries to deactivate has its bit set. */
  lemma {:induction false} IdleIsFaultless(s: State, i: nat, op: IdleOp)
    requires |s.claims| == |s.workers| && WorkerOk(s, i) && EnabledIdle(s, i, op) && !s.fault
    ensures !ApplyIdle(s, i, op).fault
  {
  }

  /** The fast slot of a thief is empty, and the search it ends was counted. */
  lemma {:induction false} StealIsFaultless(s: State, i: nat, op: StealOp)
    requires EnabledSteal(s, i, op) && Holds(s.workers[i]) && CountOk(s) && !s.fault
    ensures !ApplySteal(s, i, op).fault
  {
    if op.StopSearch? {
      SearchersAtLeast(s.workers, i);
    }
  }

  lemma {:induction false} ActivationIsFaultless(s: State, step: Step)
    requires Enabled(s, step) && (step.LookStep? || step.ClaimStep? || step.WakeStep?)
    ensures Apply(s, step).fault == s.fault
  {
  }

  /** No assertion of the source fails and the search count does not underflow. */
  lemma {:induction false} StepIsFaultless(s: State, step: Step)
    requires Inv(s) && Enabled(s, step)
    ensures !Apply(s, step).fault
  {
    match step
    case IdleStep(i, op) => IdleIsFaultless(s, i, op);
    case StealStep(i, op) => StealIsFaultless(s, i, op);
    case LookStep(a, op) => ActivationIsFaultless(s, step);
    case ClaimStep(a, k) => ActivationIsFaultless(s, step);
    case WakeStep(a, op) => ActivationIsFaultless(s, step);
    case _ =>
  }

  lemma {:induction false} StepKeepsInv(s: State, step: Step)
    requires Inv(s) && Enabled(s, step)
    ensures Inv(Apply(s, step))
  {
    StepKeepsControl(s, step);
    forall r ensures CountOk(Apply(s, step)) && PlacesOk(Apply(s, step), r) {
      StepKeepsCounts(s, step, r, Apply(s, step));
    }
    assert PlacesOk(Apply(s, step), 0);
    StepIsFaultless(s, step);
  }

  lemma {:induction false} RunKeepsInv(s: State, steps: seq<Step>)
    requires Inv(s) && IsRun(s, steps)
    ensures Inv(After(s, steps))
    decreases |steps|
  {
    if steps != [] {
      StepKeepsInv(s, steps[0]);
      RunKeepsInv(Apply(s, steps[0]), steps[1..]);
    }
  }

  /** A state of the executor, in any run. */
  ghost predicate Reachable(s: State) {
    exists n: nat, cap: nat, steps: seq<Step> :: n > 0 && IsRun(Boot(n, cap), steps) && s == After(Boot(n, cap), steps)
  }

  lemma {:induction false} ReachableIsOk(s: State)
    requires Reachable(s)
    ensures Inv(s)
  {
    var n: nat, cap: nat, steps: seq<Step> :| n > 0 && IsRun(Boot(n, cap), steps) && s == After(Boot(n, cap), steps);
    BootIsOk(n, cap);
    RunKeepsInv(Boot(n, cap), steps);
  }

  /** Each runnable is in exactly one place from when it is scheduled to when it finishes running. */
  lemma {:induction false} ExactlyOnePlace(s: State, r: Rid)
    requires Reachable(s)
    ensures Places(s, r) == if r in s.live then 1 else 0
  {
    ReachableIsOk(s);
    assert PlacesOk(s, r);
  }

  lemma {:induction false} InactiveIsBlank(s: State, i: nat)
    requires Inv(s) && i < |s.workers| && i !in s.active
    ensures s.workers[i] == Blank(s.workers[i].pc) && Sleeping(s.workers[i].pc)
  {
    assert WorkerOk(s, i) && Holds(s.workers[i]);
  }

  /** A worker whose bit is clear is parked, or about to park, and holds no runnable. */
  lemma {:induction false} InactiveHoldsNothing(s: State, i: nat)
    requires Reachable(s) && i < |s.workers| && i !in s.active
    ensures s.workers[i] == Blank(s.workers[i].pc) && Sleeping(s.workers[i].pc)
  {
    ReachableIsOk(s);
    InactiveIsBlank(s, i);
  }

  /** The search count is the number of workers searching, and of parked workers called to search. */
  lemma {:induction false} SearchCountIsExact(s: State)
    requires Reachable(s)
    ensures s.searching == Searchers(s.workers) + Called(s.claims) && !s.fault
  {
    ReachableIsOk(s);
  }

  lemma {:induction false} NothingLive(s: State, r: Rid)
    requires Inv(s) && |s.injector| == 0 && forall i :: 0 <= i < |s.workers| ==> s.workers[i] == Blank(s.workers[i].pc)
    ensures r !in s.live
  {
    NothingHeld(s.workers, r);
    assert PlacesOk(s, r);
  }

  lemma {:induction false} IdleIsEmpty(s: State)
    requires Inv(s) && (s.main.Check? || s.main.Waiting?) && s.active == {}
    ensures s.live == {} && s.injector == []
    ensures forall i :: 0 <= i < |s.workers| ==> s.workers[i] == Blank(s.workers[i].pc)
  {
    forall i | 0 <= i < |s.workers| ensures s.workers[i] == Blank(s.workers[i].pc) {
      InactiveIsBlank(s, i);
    }
    forall r ensures r !in s.live {
      NothingLive(s, r);
    }
  }

  /**
    While the executor waits for the pool in `run`, a pool with no active worker has no runnable
    left: not in the injector, in a local queue or in a fast slot, and none is running.
  */
  lemma {:induction false} IdleIsQuiescent(s: State)
    requires Reachable(s) && (s.main.Check? || s.main.Waiting?) && s.active == {}
    ensures s.live == {} && s.injector == []
    ensures forall i :: 0 <= i < |s.workers| ==> s.workers[i] == Blank(s.workers[i].pc)
  {
    ReachableIsOk(s);
    IdleIsEmpty(s);
  }

  /** Consequently, when `run` returns every runnable scheduled so far has finished running. */
  lemma {:induction false} RunReturnsWhenDone(s: State)
    requires Reachable(s) && s.main.Check? && Apply(s, MainStep(CheckIdle)).main.Idle?
    ensures s.live == {}
  {
    IdleIsQuiescent(s);
  }
}
