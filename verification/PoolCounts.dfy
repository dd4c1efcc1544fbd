/**
  The two quantities every step of the pool conserves: the search count, and the number of
  places that hold a runnable.
*/
module PoolCounts {
  import opened Options
  import opened Injector
  import opened PoolMachine
  import opened PoolSafety

  /** The worker was counted as searching and did not end its search. */
  predicate InSearch(pc: Pc) {
    pc.PopPeek? || pc.PopLock? || pc.PopFlag? || pc.Extend? || pc.Steal? || pc.GiveUp? || pc.EndSearch?
  }

  function Bit(b: bool): nat {
    if b then 1 else 0
  }

  /** The number of workers searching for tasks. */
  function Searchers(ws: seq<Worker>): nat {
    if |ws| == 0 then 0 else Searchers(ws[..|ws| - 1]) + Bit(InSearch(ws[|ws| - 1].pc))
  }

  /** The number of parked workers whose search was counted by the agent activating them. */
  function Called(cs: seq<Claim>): nat {
    if |cs| == 0 then 0
    else Called(cs[..|cs| - 1]) + Bit(cs[|cs| - 1].Counted? || cs[|cs| - 1].Token?)
  }

  predicate CountOk(s: State) {
    s.searching == Searchers(s.workers) + Called(s.claims)
  }

  lemma {:induction false} SearchersUpdate(ws: seq<Worker>, i: nat, w: Worker)
    requires i < |ws|
    ensures Searchers(ws[i := w]) + Bit(InSearch(ws[i].pc)) == Searchers(ws) + Bit(InSearch(w.pc))
  {
    var n := |ws| - 1;
    if i < n {
      SearchersUpdate(ws[..n], i, w);
      assert ws[i := w][..n] == ws[..n][i := w];
    } else {
      assert ws[i := w][..n] == ws[..n];
    }
  }

  lemma {:induction false} CalledUpdate(cs: seq<Claim>, k: nat, c: Claim)
    requires k < |cs|
    ensures Called(cs[k := c]) + Bit(cs[k].Counted? || cs[k].Token?) == Called(cs) + Bit(c.Counted? || c.Token?)
  {
    var n := |cs| - 1;
    if k < n {
      CalledUpdate(cs[..n], k, c);
      assert cs[k := c][..n] == cs[..n][k := c];
    } else {
      assert cs[k := c][..n] == cs[..n];
    }
  }

  /** How often worker `w` holds runnable `r`. */
  function Held(w: Worker, r: Rid): nat {
    multiset(w.local)[r] + One(w.fast, r) + One(w.running, r) + One(w.displaced, r) + multiset(w.bucket)[r]
  }

  function One(o: Option<Rid>, r: Rid): nat {
    Bit(o.Some? && o.value == r)
  }

  function Total(ws: seq<Worker>, r: Rid): nat {
    if |ws| == 0 then 0 else Total(ws[..|ws| - 1], r) + Held(ws[|ws| - 1], r)
  }

  /** The number of places of the pool that hold runnable `r`. */
  function Places(s: State, r: Rid): nat {
    Contents(s.injector)[r] + Total(s.workers, r)
  }

  /** A runnable is in exactly one place until it finishes running. */
  predicate PlacesOk(s: State, r: Rid) {
    Places(s, r) == Bit(r in s.live)
  }

  lemma {:induction false} TotalUpdate(ws: seq<Worker>, i: nat, w: Worker, r: Rid)
    requires i < |ws|
    ensures Total(ws[i := w], r) + Held(ws[i], r) == Total(ws, r) + Held(w, r)
  {
    var n := |ws| - 1;
    if i < n {
      TotalUpdate(ws[..n], i, w, r);
      assert ws[i := w][..n] == ws[..n][i := w];
    } else {
      assert ws[i := w][..n] == ws[..n];
    }
  }

  lemma {:induction false} Split(q: seq<Rid>, k: nat, r: Rid)
    requires k <= |q|
    ensures multiset(q)[r] == multiset(q[..k])[r] + multiset(q[k..])[r]
  {
    assert q == q[..k] + q[k..];
  }

  /** The step changed worker `i` only, if any. */
  predicate OnlyWorker(s: State, t: State, i: nat) {
    && |t.workers| == |s.workers|
    && (if i < |s.workers| then t.workers == s.workers[i := t.workers[i]] else t.workers == s.workers)
  }

  /** The step changed the claim on worker `k` only, if any. */
  predicate OnlyClaim(s: State, t: State, k: nat) {
    && |t.claims| == |s.claims|
    && (if k < |s.claims| then t.claims == s.claims[k := t.claims[k]] else t.claims == s.claims)
  }

  predicate IsCalled(c: Claim) {
    c.Counted? || c.Token?
  }

  function SearchBit(s: State, i: nat): nat {
    if i < |s.workers| then Bit(InSearch(s.workers[i].pc)) else 0
  }

  function CallBit(s: State, k: nat): nat {
    if k < |s.claims| then Bit(IsCalled(s.claims[k])) else 0
  }

  /** The search count follows the state of worker `i` and the claim on worker `k`. */
  predicate CountMoves(s: State, t: State, i: nat, k: nat) {
    && OnlyWorker(s, t, i) && OnlyClaim(s, t, k)
    && t.searching + SearchBit(s, i) + CallBit(s, k) == s.searching + SearchBit(t, i) + CallBit(t, k)
  }

  lemma {:induction false} MovesKeepCount(s: State, t: State, i: nat, k: nat)
    requires CountOk(s) && CountMoves(s, t, i, k)
    ensures CountOk(t)
  {
    if i < |s.workers| {
      SearchersUpdate(s.workers, i, t.workers[i]);
    }
    if k < |s.claims| {
      CalledUpdate(s.claims, k, t.claims[k]);
    }
  }

  /** What the step took from or added to the injector and the live runnables, worker `i` lost or gained. */
  predicate Balance(s: State, t: State, i: nat, r: Rid)
    requires i < |s.workers| && i < |t.workers|
  {
    Contents(t.injector)[r] + Held(t.workers[i], r) + Bit(r in s.live)
    == Contents(s.injector)[r] + Held(s.workers[i], r) + Bit(r in t.live)
  }

  lemma {:induction false} BalanceKeepsPlaces(s: State, t: State, i: nat, r: Rid)
    requires PlacesOk(s, r) && i < |s.workers| && OnlyWorker(s, t, i) && Balance(s, t, i, r)
    ensures PlacesOk(t, r)
  {
    TotalUpdate(s.workers, i, t.workers[i], r);
  }

  lemma {:induction false} WakeUpMoves(s: State, i: nat)
    requires EnabledIdle(s, i, WakeUp)
    ensures CountMoves(s, ApplyIdle(s, i, WakeUp), i, i)
  {
  }

  lemma {:induction false} IdleMoves(s: State, i: nat, op: IdleOp)
    requires EnabledIdle(s, i, op)
    ensures CountMoves(s, ApplyIdle(s, i, op), i, i)
  {
    if op.WakeUp? {
      WakeUpMoves(s, i);
    } else {
      assert ApplyIdle(s, i, op).claims == s.claims;
    }
  }

  lemma {:induction false} PopMoves(s: State, i: nat, op: PopOp)
    requires EnabledPop(s, i, op)
    ensures CountMoves(s, ApplyPop(s, i, op), i, i)
  {
  }

  lemma {:induction false} RunMoves(s: State, i: nat, op: RunOp)
    requires EnabledRun(s, i, op)
    ensures CountMoves(s, ApplyRun(s, i, op), i, i)
  {
  }

  lemma {:induction false} QueueMoves(s: State, i: nat, op: QueueOp)
    requires EnabledQueue(s, i, op)
    ensures CountMoves(s, ApplyQueue(s, i, op), i, i)
  {
  }

  lemma {:induction false} LookMoves(s: State, a: nat, op: LookOp)
    requires EnabledLook(s, a, op)
    ensures var t := ApplyLook(s, a, op); CountMoves(s, t, a, a)
  {
  }

  lemma {:induction false} ClaimMoves(s: State, a: nat, k: nat)
    requires |s.claims| == |s.workers| && EnabledClaim(s, a, k) && WorkerOk(s, k)
    ensures var t := ApplyClaim(s, a, k); CountMoves(s, t, a, k)
  {
  }

  lemma {:induction false} WakeMoves(s: State, a: nat, op: WakeOp)
    requires EnabledWake(s, a, op) && AgentOk(s, a)
    ensures var t := ApplyWake(s, a, op); CountMoves(s, t, a, ActOf(s, a).k)
  {
  }

  /** The step moved no runnable. */
  predicate OnlyControl(s: State, t: State, i: nat)
    requires i < |s.workers| && i < |t.workers|
  {
    t.injector == s.injector && t.live == s.live && t.workers[i] == s.workers[i].(pc := t.workers[i].pc)
  }

  lemma {:induction false} ControlBalance(s: State, t: State, i: nat, r: Rid)
    requires i < |s.workers| && i < |t.workers| && OnlyControl(s, t, i)
    ensures Balance(s, t, i, r)
  {
  }

  lemma {:induction false} IdleControl(s: State, i: nat, op: IdleOp)
    requires EnabledIdle(s, i, op)
    ensures OnlyControl(s, ApplyIdle(s, i, op), i)
  {
  }

  lemma {:induction false} PopControl(s: State, i: nat, op: PopOp)
    requires EnabledPop(s, i, op) && !op.PopBucket? && !op.ExtendLocal?
    ensures OnlyControl(s, ApplyPop(s, i, op), i)
  {
  }

  lemma {:induction false} TakeBalance(s: State, i: nat, op: PopOp, r: Rid)
    requires EnabledPop(s, i, op) && (op.PopBucket? || op.ExtendLocal?) && Holds(s.workers[i])
    ensures Balance(s, ApplyPop(s, i, op), i, r)
  {
    if op.PopBucket? && |s.injector| > 0 {
      var t := ApplyPop(s, i, op);
      assert Contents(s.injector)[r] == Contents(t.injector)[r] + multiset(t.workers[i].bucket)[r];
    }
  }

  lemma {:induction false} PopBalance(s: State, i: nat, op: PopOp, r: Rid)
    requires EnabledPop(s, i, op) && Holds(s.workers[i])
    ensures Balance(s, ApplyPop(s, i, op), i, r)
  {
    if op.PopBucket? || op.ExtendLocal? {
      TakeBalance(s, i, op, r);
    } else {
      PopControl(s, i, op);
      ControlBalance(s, ApplyPop(s, i, op), i, r);
    }
  }

  lemma {:induction false} TakeKeepsHeld(w: Worker, r: Rid)
    requires w.running.None? && (w.fast.Some? || |w.local| > 0)
    ensures Held(Take(w), r) == Held(w, r)
  {
    if w.fast.None? {
      Split(w.local, 1, r);
    }
  }

  lemma {:induction false} TakeTaskBalance(s: State, i: nat, r: Rid)
    requires EnabledRun(s, i, TakeTask) && Holds(s.workers[i])
    ensures Balance(s, ApplyRun(s, i, TakeTask), i, r)
  {
    TakeKeepsHeld(s.workers[i], r);
  }

  lemma {:induction false} ScheduleBalance(s: State, i: nat, op: RunOp, r: Rid)
    requires EnabledRun(s, i, op) && op.Schedule? && Holds(s.workers[i])
    ensures Balance(s, ApplyRun(s, i, op), i, r)
  {
  }

  lemma {:induction false} FinishBalance(s: State, i: nat, r: Rid)
    requires EnabledRun(s, i, Finish) && Holds(s.workers[i])
    requires s.workers[i].running == Some(r) ==> r in s.live
    ensures Balance(s, ApplyRun(s, i, Finish), i, r)
  {
  }

  lemma {:induction false} RunBalance(s: State, i: nat, op: RunOp, r: Rid)
    requires EnabledRun(s, i, op) && Holds(s.workers[i])
    requires s.workers[i].running == Some(r) ==> r in s.live
    ensures Balance(s, ApplyRun(s, i, op), i, r)
  {
    match op
    case TakeTask => TakeTaskBalance(s, i, r);
    case Schedule(_) => ScheduleBalance(s, i, op, r);
    case Finish => FinishBalance(s, i, r);
    case _ => ControlBalance(s, ApplyRun(s, i, op), i, r);
  }

  lemma {:induction false} DrainBalance(s: State, i: nat, op: QueueOp, r: Rid)
    requires EnabledQueue(s, i, op) && op.DrainLocal? && Holds(s.workers[i])
    ensures Balance(s, ApplyQueue(s, i, op), i, r)
  {
    Split(s.workers[i].local, op.k, r);
  }

  lemma {:induction false} BucketBalance(s: State, i: nat, r: Rid)
    requires EnabledQueue(s, i, PushBucket) && Holds(s.workers[i])
    ensures Balance(s, ApplyQueue(s, i, PushBucket), i, r)
  {
    ContentsPushed(s.injector, s.workers[i].bucket);
  }

  /** The displaced task moves to the injector. */
  lemma {:induction false} MoveBalance(s: State, t: State, i: nat, r: Rid)
    requires i < |s.workers| && i < |t.workers| && s.workers[i].displaced.Some? && t.live == s.live
    requires t.workers[i] == s.workers[i].(pc := t.workers[i].pc, displaced := None)
    requires Contents(t.injector) == Contents(s.injector) + multiset{s.workers[i].displaced.value}
    ensures Balance(s, t, i, r)
  {
  }

  lemma {:induction false} InsertBalance(s: State, i: nat, r: Rid)
    requires EnabledQueue(s, i, InsertTask) && Holds(s.workers[i])
    ensures Balance(s, ApplyQueue(s, i, InsertTask), i, r)
  {
    ContentsInserted(s.injector, s.cap, s.workers[i].displaced.value);
    MoveBalance(s, ApplyQueue(s, i, InsertTask), i, r);
  }

  lemma {:induction false} LocalBalance(s: State, i: nat, op: QueueOp, r: Rid)
    requires EnabledQueue(s, i, op) && !op.DrainLocal? && !op.PushBucket? && !op.InsertTask? && Holds(s.workers[i])
    ensures Balance(s, ApplyQueue(s, i, op), i, r)
  {
  }

  lemma {:induction false} QueueBalance(s: State, i: nat, op: QueueOp, r: Rid)
    requires EnabledQueue(s, i, op) && Holds(s.workers[i])
    ensures Balance(s, ApplyQueue(s, i, op), i, r)
  {
    match op
    case DrainLocal(_) => DrainBalance(s, i, op, r);
    case PushBucket => BucketBalance(s, i, r);
    case InsertTask => InsertBalance(s, i, r);
    case _ => LocalBalance(s, i, op, r);
  }

  lemma {:induction false} TwoUpdates(ws: seq<Worker>, us: seq<Worker>, j: nat, i: nat, r: Rid)
    requires |us| == |ws| && i < |ws| && j < |ws| && i != j && us == ws[j := us[j]][i := us[i]]
    ensures Total(us, r) + Held(ws[i], r) + Held(ws[j], r) == Total(ws, r) + Held(us[i], r) + Held(us[j], r)
    ensures Searchers(us) + Bit(InSearch(ws[i].pc)) + Bit(InSearch(ws[j].pc))
         == Searchers(ws) + Bit(InSearch(us[i].pc)) + Bit(InSearch(us[j].pc))
  {
    TotalUpdate(ws, j, us[j], r);
    TotalUpdate(ws[j := us[j]], i, us[i], r);
    SearchersUpdate(ws, j, us[j]);
    SearchersUpdate(ws[j := us[j]], i, us[i]);
  }

  /** The part stolen is what the queue loses. */
  lemma {:induction false} StolenPart(q: seq<Rid>, k: nat, m: nat, r: Rid)
    requires m < k <= |q|
    ensures multiset(q)[r] == multiset(q[..m])[r] + multiset([q[m]])[r] + multiset(q[m + 1..k])[r] + multiset(q[k..])[r]
  {
    Split(q, k, r);
    Split(q[..k], m, r);
    assert q[..k][..m] == q[..m];
    assert q[..k][m..] == [q[m]] + q[m + 1..k];
  }

  lemma {:induction false} StealKeepsHeld(s: State, i: nat, op: StealOp, r: Rid)
    requires EnabledSteal(s, i, op) && op.StealFrom? && Holds(s.workers[i])
    ensures var t := ApplySteal(s, i, op);
      Held(t.workers[i], r) + Held(t.workers[op.j], r) == Held(s.workers[i], r) + Held(s.workers[op.j], r)
  {
    StolenPart(s.workers[op.j].local, op.k, op.m, r);
  }

  /** A steal moves runnables from a worker to another, and is no other change. */
  lemma {:induction false} StealKeepsCounts(s: State, i: nat, op: StealOp, r: Rid)
    requires CountOk(s) && PlacesOk(s, r) && EnabledSteal(s, i, op) && op.StealFrom? && Holds(s.workers[i])
    ensures CountOk(ApplySteal(s, i, op)) && PlacesOk(ApplySteal(s, i, op), r)
  {
    var t := ApplySteal(s, i, op);
    StealKeepsHeld(s, i, op, r);
    TwoUpdates(s.workers, t.workers, op.j, i, r);
  }

  lemma {:induction false} StealMoves(s: State, i: nat, op: StealOp)
    requires EnabledSteal(s, i, op) && !op.StealFrom?
    ensures CountMoves(s, ApplySteal(s, i, op), i, i) && OnlyControl(s, ApplySteal(s, i, op), i)
  {
  }

  /** Activations move no runnable. */
  lemma {:induction false} LookControl(s: State, a: nat, op: LookOp)
    requires EnabledLook(s, a, op)
    ensures var t := ApplyLook(s, a, op); t.injector == s.injector && t.live == s.live
    ensures a < |s.workers| ==> OnlyControl(s, ApplyLook(s, a, op), a)
  {
  }

  lemma {:induction false} ClaimControl(s: State, a: nat, k: nat)
    requires EnabledClaim(s, a, k)
    ensures var t := ApplyClaim(s, a, k); t.injector == s.injector && t.live == s.live
    ensures a < |s.workers| ==> OnlyControl(s, ApplyClaim(s, a, k), a)
  {
  }

  lemma {:induction false} WakeControl(s: State, a: nat, op: WakeOp)
    requires EnabledWake(s, a, op)
    ensures var t := ApplyWake(s, a, op); t.injector == s.injector && t.live == s.live
    ensures a < |s.workers| ==> OnlyControl(s, ApplyWake(s, a, op), a)
  {
  }

  lemma {:induction false} MainKeepsCounts(s: State, op: MainOp, r: Rid)
    requires CountOk(s) && PlacesOk(s, r) && EnabledMain(s, op)
    ensures CountOk(ApplyMain(s, op)) && PlacesOk(ApplyMain(s, op), r)
  {
    if op.Spawn? {
      ContentsInserted(s.injector, s.cap, op.r);
    }
  }

  lemma {:induction false} TotalAtLeast(ws: seq<Worker>, i: nat, r: Rid)
    requires i < |ws|
    ensures Total(ws, r) >= Held(ws[i], r)
  {
    var n := |ws| - 1;
    if i < n {
      TotalAtLeast(ws[..n], i, r);
    }
  }

  lemma {:induction false} SearchersAtLeast(ws: seq<Worker>, i: nat)
    requires i < |ws| && InSearch(ws[i].pc)
    ensures Searchers(ws) >= 1
  {
    var n := |ws| - 1;
    if i < n {
      SearchersAtLeast(ws[..n], i);
    }
  }
}
