/**
  What becomes of the tasks of the pool: every task that is spawned or scheduled is executed before `run`
  returns, and the operations of the workers, taken alone, move tasks as they should.
*/
module PoolOutcomes {
  import opened Options
  import opened Injector
  import opened PoolMachine
  import opened PoolSafety
  import opened PoolCounts
  import opened PoolQuiescence

  // ----- What is scheduled is executed -----

  predicate Schedules(step: Step, r: Rid) {
    step == MainStep(Spawn(r)) || (step.RunStep? && step.run == Schedule(r))
  }

  /** A worker finishes running `r`. */
  predicate Executes(s: State, step: Step, r: Rid) {
    step.RunStep? && step.run.Finish? && step.i < |s.workers| && s.workers[step.i].running == Some(r)
  }

  lemma {:induction false} RunKeepsLive(s: State, i: nat, op: RunOp, r: Rid)
    requires EnabledRun(s, i, op)
    ensures r in ApplyRun(s, i, op).live <==>
      (r in s.live && !(op.Finish? && s.workers[i].running == Some(r))) || op == Schedule(r)
  {
  }

  lemma {:induction false} QueueKeepsLive(s: State, i: nat, op: QueueOp)
    requires EnabledQueue(s, i, op)
    ensures ApplyQueue(s, i, op).live == s.live
  {
  }

  lemma {:induction false} WakeKeepsLive(s: State, a: nat, op: WakeOp)
    requires EnabledWake(s, a, op)
    ensures ApplyWake(s, a, op).live == s.live
  {
  }

  lemma {:induction false} LookKeepsLive(s: State, a: nat, op: LookOp)
    requires EnabledLook(s, a, op)
    ensures ApplyLook(s, a, op).live == s.live
  {
  }

  /** A task is live from when it is scheduled to when it was executed. */
  lemma {:induction false} LiveExactly(s: State, step: Step, r: Rid)
    requires Enabled(s, step)
    ensures r in Apply(s, step).live <==> (r in s.live && !Executes(s, step, r)) || Schedules(step, r)
  {
    match step
    case RunStep(i, op) => RunKeepsLive(s, i, op, r);
    case QueueStep(i, op) => QueueKeepsLive(s, i, op);
    case WakeStep(a, op) => WakeKeepsLive(s, a, op);
    case LookStep(a, op) => LookKeepsLive(s, a, op);
    case _ =>
  }

  lemma {:induction false} LiveUntilExecuted(s: State, steps: seq<Step>, r: Rid) returns (j: nat)
    requires IsRun(s, steps) && r in s.live && r !in After(s, steps).live
    ensures j < |steps| && IsRun(s, steps[..j]) && Executes(After(s, steps[..j]), steps[j], r)
    decreases |steps|
  {
    LiveExactly(s, steps[0], r);
    if Executes(s, steps[0], r) {
      j := 0;
    } else {
      var i := LiveUntilExecuted(Apply(s, steps[0]), steps[1..], r);
      j := i + 1;
      assert steps[..j][1..] == steps[1..][..i];
    }
  }

  /** A task that is spawned, or scheduled by a running task, is executed before `run` returns. */
  lemma {:induction false} ScheduledIsExecuted(s: State, step: Step, r: Rid, steps: seq<Step>) returns (j: nat)
    requires Inv(s) && Enabled(s, step) && Schedules(step, r) && IsRun(Apply(s, step), steps)
    requires var t := After(Apply(s, step), steps); t.main.Check? && Apply(t, MainStep(CheckIdle)).main.Idle?
    ensures j < |steps| && IsRun(Apply(s, step), steps[..j])
    ensures Executes(After(Apply(s, step), steps[..j]), steps[j], r)
  {
    LiveExactly(s, step, r);
    StepKeepsInv(s, step);
    RunKeepsInv(Apply(s, step), steps);
    IdleIsEmpty(After(Apply(s, step), steps));
    j := LiveUntilExecuted(Apply(s, step), steps, r);
  }

  // ----- Operations taken alone -----

  lemma {:induction false} Then(s: State, step: Step, rest: seq<Step>)
    requires Enabled(s, step) && IsRun(Apply(s, step), rest)
    ensures IsRun(s, [step] + rest) && After(s, [step] + rest) == After(Apply(s, step), rest)
  {
    assert ([step] + rest)[1..] == rest;
  }

  lemma {:induction false} OneStep(s: State, step: Step)
    requires Enabled(s, step)
    ensures IsRun(s, [step]) && After(s, [step]) == Apply(s, step)
  {
    assert IsRun(Apply(s, step), []);
    Then(s, step, []);
    assert [step] + [] == [step];
  }

  /** The main thread spawns a task: it is in the injector, which is not marked as empty. */
  lemma {:induction false} SpawnsAlone(s: State, r: Rid)
    requires Inv(s) && s.main.Idle? && s.lock.None? && r !in s.live
    ensures IsRun(s, [MainStep(Spawn(r))] + [MainStep(SpawnUpdateFlag)])
    ensures var t := After(s, [MainStep(Spawn(r))] + [MainStep(SpawnUpdateFlag)]);
      && Contents(t.injector) == Contents(s.injector) + multiset{r} && t.main.Idle? && !t.empty && t.lock.None?
      && t.workers == s.workers
  {
    OneStep(Apply(s, MainStep(Spawn(r))), MainStep(SpawnUpdateFlag));
    Then(s, MainStep(Spawn(r)), [MainStep(SpawnUpdateFlag)]);
    ContentsInserted(s.injector, s.cap, r);
  }

  lemma {:induction false} TwoSteps(s: State, a: Step, b: Step)
    requires Enabled(s, a) && Enabled(Apply(s, a), b)
    ensures IsRun(s, [a, b]) && After(s, [a, b]) == Apply(Apply(s, a), b)
  {
    OneStep(Apply(s, a), b);
    Then(s, a, [b]);
    assert [a] + [b] == [a, b];
  }

  /** A worker takes the last bucket, and marks the injector as empty if it was the only one. */
  lemma {:induction false} PeeksAndPops(s: State, i: nat)
    requires i < |s.workers| && s.workers[i].pc.PopPeek? && s.lock.None? && |s.injector| > 0 && !s.empty
    ensures Enabled(s, PopStep(i, PeekFlag))
    ensures var t := Apply(s, PopStep(i, PeekFlag));
      && Enabled(t, PopStep(i, PopBucket))
      && var u := Apply(t, PopStep(i, PopBucket));
         && Enabled(u, PopStep(i, UpdateFlag))
         && var c := |s.injector| - 1;
            Apply(u, PopStep(i, UpdateFlag)) == s.(
              injector := s.injector[..c], empty := c == 0,
              workers := s.workers[i := s.workers[i].(pc := Extend, bucket := s.injector[c])])
  {
    var w, c := s.workers[i], |s.injector| - 1;
    assert s.workers[i := w.(pc := PopLock)][i := w.(pc := PopFlag(true), bucket := s.injector[c])]
                    [i := w.(pc := Extend, bucket := s.injector[c])]
        == s.workers[i := w.(pc := Extend, bucket := s.injector[c])];
  }

  /** The bucket goes to the end of the local queue, and the search ends. */
  lemma {:induction false} ExtendsQueue(s: State, i: nat)
    requires i < |s.workers| && s.workers[i].pc.Extend? && s.searching > 0
    ensures IsRun(s, [PopStep(i, ExtendLocal), StealStep(i, StopSearch)])
    ensures var w := s.workers[i];
      After(s, [PopStep(i, ExtendLocal), StealStep(i, StopSearch)]) == s.(
        searching := s.searching - 1,
        workers := s.workers[i := w.(pc := Drain, local := w.local + w.bucket, bucket := [])])
  {
    var w := s.workers[i];
    TwoSteps(s, PopStep(i, ExtendLocal), StealStep(i, StopSearch));
    assert s.workers[i := w.(pc := EndSearch, local := w.local + w.bucket, bucket := [])]
                    [i := w.(pc := Drain, local := w.local + w.bucket, bucket := [])]
        == s.workers[i := w.(pc := Drain, local := w.local + w.bucket, bucket := [])];
  }

  function SearchSteps(i: nat): seq<Step> {
    [PopStep(i, PeekFlag)]
    + ([PopStep(i, PopBucket)] + ([PopStep(i, UpdateFlag)] + [PopStep(i, ExtendLocal), StealStep(i, StopSearch)]))
  }

  /** A search that finds tasks in the injector moves its last bucket to the local queue. */
  lemma {:induction false} SearchTakesBucket(s: State, i: nat)
    requires Inv(s) && i < |s.workers| && s.workers[i].pc.PopPeek? && s.lock.None? && |s.injector| > 0
    ensures IsRun(s, SearchSteps(i))
    ensures var w, t, c := s.workers[i], After(s, SearchSteps(i)), |s.injector| - 1;
      && t.injector == s.injector[..c] && (t.empty <==> c == 0) && t.lock.None? && t.searching == s.searching - 1
      && t.workers == s.workers[i := w.(pc := Drain, local := s.injector[c])]
  {
    var w, c := s.workers[i], |s.injector| - 1;
    SearchersAreCounted(s, i);
    assert Holds(w) && WorkerOk(s, i);
    PeeksAndPops(s, i);
    var t := Apply(s, PopStep(i, PeekFlag));
    var u := Apply(t, PopStep(i, PopBucket));
    var v := Apply(u, PopStep(i, UpdateFlag));
    ExtendsQueue(v, i);
    Then(u, PopStep(i, UpdateFlag), [PopStep(i, ExtendLocal), StealStep(i, StopSearch)]);
    Then(t, PopStep(i, PopBucket), [PopStep(i, UpdateFlag)] + [PopStep(i, ExtendLocal), StealStep(i, StopSearch)]);
    Then(s, PopStep(i, PeekFlag),
         [PopStep(i, PopBucket)] + ([PopStep(i, UpdateFlag)] + [PopStep(i, ExtendLocal), StealStep(i, StopSearch)]));
    assert w.local + s.injector[c] == s.injector[c];
  }

  lemma {:induction false} SearchersAreCounted(s: State, i: nat)
    requires CountOk(s) && i < |s.workers| && InSearch(s.workers[i].pc)
    ensures s.searching > 0
  {
    SearcherIsCounted(s.workers, i);
  }

  lemma {:induction false} SearcherIsCounted(ws: seq<Worker>, i: nat)
    requires i < |ws| && InSearch(ws[i].pc)
    ensures Searchers(ws) > 0
  {
    if i < |ws| - 1 {
      SearcherIsCounted(ws[..|ws| - 1], i);
    }
  }

  /** A search that finds nothing goes on until its time is over, and then ends: the worker is about to go to sleep. */
  lemma {:induction false} SearchEnds(s: State, i: nat)
    requires Inv(s) && i < |s.workers| && s.workers[i].pc.Steal?
    ensures Enabled(s, StealStep(i, StealFail(false)))
    ensures Apply(s, StealStep(i, StealFail(false))) == Goto(s, i, PopPeek)
    ensures IsRun(s, [StealStep(i, StealFail(true)), StealStep(i, StopSearch)])
    ensures After(s, [StealStep(i, StealFail(true)), StealStep(i, StopSearch)])
         == Goto(s, i, Top).(searching := s.searching - 1)
  {
    SearchersAreCounted(s, i);
    var w := s.workers[i];
    TwoSteps(s, StealStep(i, StealFail(true)), StealStep(i, StopSearch));
    assert s.workers[i := w.(pc := GiveUp)][i := w.(pc := Top)] == s.workers[i := w.(pc := Top)];
  }

  /** A thief takes any number of tasks from the front of the queue of another worker, and runs one of them. */
  lemma {:induction false} StealsAlone(s: State, i: nat, j: nat, k: nat, m: nat, t: State)
    requires Inv(s) && i < |s.workers| && j < |s.workers| && i != j && s.workers[i].pc.Steal?
    requires m < k <= |s.workers[j].local| && t == Apply(s, StealStep(i, StealFrom(j, k, m)))
    ensures IsRun(t, [StealStep(i, StopSearch), RunStep(i, TakeTask)])
    ensures var u, q := After(t, [StealStep(i, StopSearch), RunStep(i, TakeTask)]), s.workers[j].local;
      && |u.workers| == |s.workers| && u.workers[j].local == q[k..] && u.searching == s.searching - 1
      && u.workers[i] == Worker(Run, q[..m] + q[m + 1..k], None, Some(q[m]), None, [])
  {
    var q := s.workers[j].local;
    assert WorkerOk(s, i) && Holds(s.workers[i]);
    assert t.workers[i] == Worker(EndSearch, q[..m] + q[m + 1..k], Some(q[m]), None, None, []) by {
      assert [] + q[..m] + q[m + 1..k] == q[..m] + q[m + 1..k];
    }
    TwoSteps(t, StealStep(i, StopSearch), RunStep(i, TakeTask));
  }

  /** A task scheduled while the fast slot is occupied takes the slot, and the one displaced goes to the local queue. */
  lemma {:induction false} SchedulesAlone(s: State, i: nat, r: Rid)
    requires i < |s.workers| && s.workers[i].pc.Run? && r !in s.live && s.workers[i].fast.Some?
    ensures IsRun(s, [RunStep(i, Schedule(r)), QueueStep(i, PushLocal)])
    ensures var w := s.workers[i];
      After(s, [RunStep(i, Schedule(r)), QueueStep(i, PushLocal)]) == s.(
        live := s.live + {r},
        workers := s.workers[i := w.(pc := CheckSearch, fast := Some(r), displaced := None,
                                     local := w.local + [w.fast.value])])
  {
    var w := s.workers[i];
    TwoSteps(s, RunStep(i, Schedule(r)), QueueStep(i, PushLocal));
    var v := w.(pc := CheckSearch, fast := Some(r), displaced := None, local := w.local + [w.fast.value]);
    assert s.workers[i := w.(pc := Push, fast := Some(r), displaced := w.fast)][i := v] == s.workers[i := v];
  }

  lemma {:induction false} ThreeSteps(s: State, a: Step, b: Step, c: Step)
    requires Enabled(s, a) && Enabled(Apply(s, a), b) && Enabled(Apply(Apply(s, a), b), c)
    ensures IsRun(s, [a, b, c]) && After(s, [a, b, c]) == Apply(Apply(Apply(s, a), b), c)
  {
    TwoSteps(Apply(s, a), b, c);
    Then(s, a, [b, c]);
    assert [a] + [b, c] == [a, b, c];
  }

  /** Part of a full local queue becomes a bucket of the injector. */
  lemma {:induction false} OverflowsAlone(s: State, i: nat, k: nat)
    requires i < |s.workers| && s.workers[i].pc.Push? && 0 < k <= |s.workers[i].local| && k <= s.cap && s.lock.None?
    ensures IsRun(s, [QueueStep(i, DrainLocal(k)), QueueStep(i, PushBucket), QueueStep(i, ClearFlag)])
    ensures var w := s.workers[i];
      After(s, [QueueStep(i, DrainLocal(k)), QueueStep(i, PushBucket), QueueStep(i, ClearFlag)]) == s.(
        injector := Pushed(s.injector, w.local[..k]), empty := false,
        workers := s.workers[i := w.(pc := Requeue, local := w.local[k..], bucket := [])])
  {
    var w := s.workers[i];
    ThreeSteps(s, QueueStep(i, DrainLocal(k)), QueueStep(i, PushBucket), QueueStep(i, ClearFlag));
    assert s.workers[i := w.(pc := BucketLock, local := w.local[k..], bucket := w.local[..k])]
                    [i := w.(pc := BucketFlag, local := w.local[k..], bucket := [])]
                    [i := w.(pc := Requeue, local := w.local[k..], bucket := [])]
        == s.workers[i := w.(pc := Requeue, local := w.local[k..], bucket := [])];
  }

  /** Then the displaced task goes to the local queue. */
  lemma {:induction false} RequeuesAlone(s: State, i: nat)
    requires i < |s.workers| && s.workers[i].pc.Requeue? && s.workers[i].displaced.Some?
    ensures Enabled(s, QueueStep(i, RequeueLocal))
    ensures var w := s.workers[i];
      Apply(s, QueueStep(i, RequeueLocal)) == s.(
        workers := s.workers[i := w.(pc := CheckSearch, local := w.local + [w.displaced.value], displaced := None)])
  {
  }

  /** If the local queue cannot be drained, the displaced task goes to the injector. */
  lemma {:induction false} InsertsAlone(s: State, i: nat)
    requires i < |s.workers| && s.workers[i].pc.Push? && s.workers[i].displaced.Some? && s.lock.None?
    ensures IsRun(s, [QueueStep(i, PushFails), QueueStep(i, InsertTask), QueueStep(i, ClearFlag)])
    ensures var w := s.workers[i];
      var t := After(s, [QueueStep(i, PushFails), QueueStep(i, InsertTask), QueueStep(i, ClearFlag)]);
      && Contents(t.injector) == Contents(s.injector) + multiset{w.displaced.value} && !t.empty && t.lock.None?
      && t.workers == s.workers[i := w.(pc := CheckSearch, displaced := None)] && t.live == s.live
  {
    var w := s.workers[i];
    ThreeSteps(s, QueueStep(i, PushFails), QueueStep(i, InsertTask), QueueStep(i, ClearFlag));
    assert s.workers[i := w.(pc := InsertLock)][i := w.(pc := InsertFlag, displaced := None)]
                    [i := w.(pc := CheckSearch, displaced := None)]
        == s.workers[i := w.(pc := CheckSearch, displaced := None)];
    ContentsInserted(s.injector, s.cap, w.displaced.value);
  }

  /** The steps by which worker `i` runs `n` tasks that schedule nothing. */
  function RunSteps(i: nat, n: nat): seq<Step> {
    if n == 0 then [] else [RunStep(i, TakeTask)] + ([RunStep(i, Finish)] + RunSteps(i, n - 1))
  }

  /** A worker runs the task of the fast slot first, then the first of its local queue. */
  lemma {:induction false} RunsOne(s: State, i: nat)
    requires i < |s.workers| && s.workers[i].pc.Drain? && (s.workers[i].fast.Some? || |s.workers[i].local| > 0)
    ensures Enabled(s, RunStep(i, TakeTask)) && Enabled(Apply(s, RunStep(i, TakeTask)), RunStep(i, Finish))
    ensures var w, t := s.workers[i], Apply(s, RunStep(i, TakeTask));
      var r := if w.fast.Some? then w.fast.value else w.local[0];
      && Executes(t, RunStep(i, Finish), r)
      && Apply(t, RunStep(i, Finish)) == s.(live := s.live - {r}, workers := s.workers[i := w.(
           pc := Drain, running := None, fast := None, local := if w.fast.Some? then w.local else w.local[1..])])
  {
    var v := Take(s.workers[i]);
    assert s.workers[i := v][i := v.(pc := Drain, running := None)] == s.workers[i := v.(pc := Drain, running := None)];
  }

  function Elements(q: seq<Rid>): set<Rid> {
    set r | r in q
  }

  /** The pool after worker `i`, which was `w`, ran `n` tasks of its local queue. */
  function Ran(s: State, i: nat, w: Worker, n: nat): State
    requires i < |s.workers| && n <= |w.local|
  {
    s.(live := s.live - Elements(w.local[..n]), workers := s.workers[i := w.(local := w.local[n..])])
  }

  lemma {:induction false} RanOneMore(s: State, i: nat, w: Worker, n: nat, u: State)
    requires i < |s.workers| && 0 < n <= |w.local|
    requires u == s.(live := s.live - {w.local[0]}, workers := s.workers[i := w.(local := w.local[1..])])
    ensures Ran(u, i, w.(local := w.local[1..]), n - 1) == Ran(s, i, w, n)
  {
    var q := w.local;
    assert q[..n] == [q[0]] + q[1..][..n - 1] && q[1..][n - 1..] == q[n..];
    assert s.live - {q[0]} - Elements(q[1..][..n - 1]) == s.live - Elements(q[..n]);
    assert u.workers[i := w.(local := q[n..])] == s.workers[i := w.(local := q[n..])];
  }

  /** A worker runs the tasks of its local queue, in order, once the fast slot is empty. */
  lemma {:induction false} RunsInOrder(s: State, i: nat, w: Worker, n: nat)
    requires i < |s.workers| && w == s.workers[i] && w.pc.Drain? && w.fast.None? && w.running.None? && n <= |w.local|
    ensures IsRun(s, RunSteps(i, n)) && After(s, RunSteps(i, n)) == Ran(s, i, w, n)
    decreases n
  {
    if n == 0 {
      assert w.local[0..] == w.local && s.workers[i := w] == s.workers && s.live - Elements([]) == s.live;
    } else {
      RunsOne(s, i);
      var t := Apply(s, RunStep(i, TakeTask));
      var u := Apply(t, RunStep(i, Finish));
      RunsInOrder(u, i, w.(local := w.local[1..]), n - 1);
      RanOneMore(s, i, w, n, u);
      Then(t, RunStep(i, Finish), RunSteps(i, n - 1));
      Then(s, RunStep(i, TakeTask), [RunStep(i, Finish)] + RunSteps(i, n - 1));
    }
  }

  // ----- Waking up -----

  lemma {:induction false} LoadsActive(s: State, a: nat)
    requires Acting(s, a) && ActOf(s, a).ActLoad?
    ensures Enabled(s, LookStep(a, LoadActive)) && Apply(s, LookStep(a, LoadActive)) == SetAct(s, a, ActOr(s.active))
  {
  }

  function WakeSteps(a: nat, k: nat): seq<Step> {
    [WakeStep(a, CountSearch)] + ([WakeStep(a, Unpark)] + [IdleStep(k, WakeUp)])
  }

  predicate IsLike(s: State, t: State, k: nat) {
    && |t.workers| == |s.workers| == |t.claims| && t.live == s.live && t.injector == s.injector
    && k < |s.workers| && t.workers[k].pc == s.workers[k].pc
  }

  lemma {:induction false} ClaimedState(s: State, t: State, a: nat, k: nat)
    requires |s.claims| == |s.workers| && Acting(s, a) && t == SetAct(s, a, ActOr(s.active))
    requires k < |s.workers| && k != a && k !in s.active
    ensures Enabled(t, ClaimStep(a, k))
    ensures var c := Apply(t, ClaimStep(a, k));
      && IsLike(s, c, k) && Acting(c, a) && ActOf(c, a) == ActBegin(k)
      && c.active == s.active + {k} && c.searching == s.searching
  {
  }

  lemma {:induction false} CountedState(c: State, a: nat, k: nat)
    requires |c.claims| == |c.workers| && Acting(c, a) && ActOf(c, a) == ActBegin(k) && k < |c.workers| && k != a
    ensures Enabled(c, WakeStep(a, CountSearch))
    ensures var d := Apply(c, WakeStep(a, CountSearch));
      && IsLike(c, d, k) && Acting(d, a) && ActOf(d, a) == ActUnpark(k)
      && d.active == c.active && d.searching == c.searching + 1
  {
  }

  lemma {:induction false} UnparkedState(d: State, a: nat, k: nat)
    requires |d.claims| == |d.workers| && Acting(d, a) && ActOf(d, a) == ActUnpark(k) && k < |d.workers| && k != a
    ensures Enabled(d, WakeStep(a, Unpark))
    ensures var e := Apply(d, WakeStep(a, Unpark));
      && IsLike(d, e, k) && !Acting(e, a) && e.claims[k].Token? && e.active == d.active && e.searching == d.searching
      && (a < |d.workers| ==> e.workers[a].pc.Run?) && (a == |d.workers| ==> e.main.Check?)
  {
  }

  lemma {:induction false} CompletesWake(c: State, a: nat, k: nat)
    requires |c.claims| == |c.workers| && Acting(c, a) && ActOf(c, a) == ActBegin(k) && k < |c.workers| && k != a
    requires c.workers[k].pc.Park?
    ensures IsRun(c, WakeSteps(a, k))
    ensures var u := After(c, WakeSteps(a, k));
      && |u.workers| == |c.workers| && u.active == c.active && u.searching == c.searching + 1
      && u.workers[k].pc.PopPeek? && u.live == c.live && u.injector == c.injector
      && (a < |c.workers| ==> u.workers[a].pc.Run?) && (a == |c.workers| ==> u.main.Check?)
  {
    CountedState(c, a, k);
    var d := Apply(c, WakeStep(a, CountSearch));
    UnparkedState(d, a, k);
    var e := Apply(d, WakeStep(a, Unpark));
    OneStep(e, IdleStep(k, WakeUp));
    Then(d, WakeStep(a, Unpark), [IdleStep(k, WakeUp)]);
    Then(c, WakeStep(a, CountSearch), [WakeStep(a, Unpark)] + [IdleStep(k, WakeUp)]);
  }

  /** An agent that looks for an idle worker wakes it: it claims its bit, counts its search and unparks it. */
  lemma {:induction false} WakesIdleWorker(s: State, a: nat, k: nat, t: State)
    requires Inv(s) && Acting(s, a) && ActOf(s, a).ActLoad? && k < |s.workers| && k != a && k !in s.active
    requires s.workers[k].pc.Park? && t == Apply(s, LookStep(a, LoadActive))
    ensures Enabled(t, ClaimStep(a, k))
    ensures IsRun(Apply(t, ClaimStep(a, k)), WakeSteps(a, k))
    ensures var u := After(Apply(t, ClaimStep(a, k)), WakeSteps(a, k));
      && |u.workers| == |s.workers| && u.active == s.active + {k} && u.searching == s.searching + 1
      && u.workers[k].pc.PopPeek? && u.live == s.live && u.injector == s.injector
      && (a < |s.workers| ==> u.workers[a].pc.Run?) && (a == |s.workers| ==> u.main.Check?)
  {
    LoadsActive(s, a);
    ClaimedState(s, t, a, k);
    CompletesWake(Apply(t, ClaimStep(a, k)), a, k);
  }

  /** The main thread may call `run` whenever it is idle, and is then about to activate a worker. */
  lemma {:induction false} RunActivates(s: State)
    requires Inv(s) && s.main.Idle?
    ensures Enabled(s, MainStep(StartRun)) && s.active == {}
    ensures var t := Apply(s, MainStep(StartRun));
      Inv(t) && Acting(t, |s.workers|) && ActOf(t, |s.workers|).ActLoad? && t.workers == s.workers && t.active == {}
  {
    StepKeepsInv(s, MainStep(StartRun));
  }

  /** After a task was queued, the worker wakes another one exactly if none is searching. */
  lemma {:induction false} ChecksSearch(s: State, i: nat)
    requires Inv(s) && i < |s.workers| && s.workers[i].pc.CheckSearch?
    ensures Enabled(s, RunStep(i, ReadSearching))
    ensures var t := Apply(s, RunStep(i, ReadSearching));
      && (Acting(t, i) && ActOf(t, i).ActLoad? <==> Searchers(s.workers) == 0 && Called(s.claims) == 0)
      && (!Acting(t, i) ==> t.workers[i].pc.Run?)
  {
  }

  lemma {:induction false} LookKeepsToken(s: State, a: nat, op: LookOp)
    requires EnabledLook(s, a, op)
    ensures ApplyLook(s, a, op).mainToken == s.mainToken
  {
  }

  lemma {:induction false} WakeKeepsToken(s: State, a: nat, op: WakeOp)
    requires EnabledWake(s, a, op)
    ensures ApplyWake(s, a, op).mainToken == s.mainToken
  {
  }

  lemma {:induction false} ActivationKeepsToken(s: State, step: Step)
    requires Enabled(s, step) && (step.LookStep? || step.ClaimStep? || step.WakeStep?)
    ensures Apply(s, step).mainToken == s.mainToken
  {
    match step
    case LookStep(a, op) => LookKeepsToken(s, a, op);
    case WakeStep(a, op) => WakeKeepsToken(s, a, op);
    case ClaimStep(a, k) =>
  }

  lemma {:induction false} QueueKeepsToken(s: State, i: nat, op: QueueOp)
    requires EnabledQueue(s, i, op)
    ensures ApplyQueue(s, i, op).mainToken == s.mainToken
  {
  }

  /** The main thread is unparked by the last worker only, and each park consumes what unparked it. */
  lemma {:induction false} MainTokenExactly(s: State, step: Step)
    requires Enabled(s, step)
    ensures Apply(s, step).mainToken <==>
      || (step.IdleStep? && step.idle.UnparkMain?)
      || (s.mainToken && !(step.MainStep? && (step.main.BootWake? || step.main.ParkMain?)))
  {
    match step
    case IdleStep(i, op) =>
    case PopStep(i, op) =>
    case StealStep(i, op) =>
    case RunStep(i, op) =>
    case QueueStep(i, op) => QueueKeepsToken(s, i, op);
    case MainStep(op) =>
    case _ => ActivationKeepsToken(s, step);
  }

  // ----- Start of the pool -----

  /** The pool while its workers go to sleep for the first time, one after the other. */
  function Falling(n: nat, cap: nat, k: nat): State {
    Boot(n, cap).(workers := seq(n, i => Blank(if i < k then Park else Top)), active := Ids(n) - Ids(k))
  }

  lemma {:induction false} FallsAsleep(n: nat, cap: nat, k: nat)
    requires k + 1 < n
    ensures Enabled(Falling(n, cap, k), IdleStep(k, TrySetInactive))
    ensures Apply(Falling(n, cap, k), IdleStep(k, TrySetInactive)) == Falling(n, cap, k + 1)
  {
    var s, t := Falling(n, cap, k), Falling(n, cap, k + 1);
    assert k in s.active && k + 1 in s.active;
    assert s.active - {k} == t.active;
    assert s.workers[k := Blank(Park)] == t.workers;
  }

  /** The steps of the last worker, which finds the pool idle and unparks the main thread. */
  function LastSteps(i: nat): seq<Step> {
    [IdleStep(i, TrySetInactive)] + ([IdleStep(i, ReadEmpty)] + [IdleStep(i, SetAllInactive), IdleStep(i, UnparkMain)])
  }

  lemma {:induction false} BecomesLast(s: State, i: nat)
    requires i < |s.workers| && s.workers[i].pc.Top? && s.active == {i} && s.empty
    ensures Enabled(s, IdleStep(i, TrySetInactive))
    ensures Enabled(Apply(s, IdleStep(i, TrySetInactive)), IdleStep(i, ReadEmpty))
    ensures Apply(Apply(s, IdleStep(i, TrySetInactive)), IdleStep(i, ReadEmpty)) == s.(
      last := Some(i), workers := s.workers[i := s.workers[i].(pc := AllInactive)])
  {
    var w := s.workers[i];
    assert s.workers[i := w.(pc := LastCheck)][i := w.(pc := AllInactive)] == s.workers[i := w.(pc := AllInactive)];
  }

  /** The last active worker of an empty pool clears the active workers, and unparks the main thread. */
  lemma {:induction false} LastNotifies(s: State, i: nat)
    requires i < |s.workers| && s.workers[i].pc.Top? && s.active == {i} && s.empty
    ensures IsRun(s, LastSteps(i))
    ensures After(s, LastSteps(i)) == s.(
      active := {}, last := None, mainToken := true, workers := s.workers[i := s.workers[i].(pc := Park)])
  {
    var w := s.workers[i];
    BecomesLast(s, i);
    var t := Apply(s, IdleStep(i, TrySetInactive));
    var u := Apply(t, IdleStep(i, ReadEmpty));
    TwoSteps(u, IdleStep(i, SetAllInactive), IdleStep(i, UnparkMain));
    Then(t, IdleStep(i, ReadEmpty), [IdleStep(i, SetAllInactive), IdleStep(i, UnparkMain)]);
    Then(s, IdleStep(i, TrySetInactive),
         [IdleStep(i, ReadEmpty)] + [IdleStep(i, SetAllInactive), IdleStep(i, UnparkMain)]);
    assert u.workers[i := w.(pc := NotifyMain)][i := w.(pc := Park)] == s.workers[i := w.(pc := Park)];
  }

  /** From when `k` workers sleep to when the last one has unparked the main thread. */
  function SleepSteps(n: nat, k: nat): seq<Step>
    requires k < n
    decreases n - k
  {
    if k + 1 == n then LastSteps(k) else [IdleStep(k, TrySetInactive)] + SleepSteps(n, k + 1)
  }

  lemma {:induction false} AllSleep(n: nat, cap: nat, k: nat)
    requires k < n
    ensures IsRun(Falling(n, cap, k), SleepSteps(n, k))
    ensures var t := After(Falling(n, cap, k), SleepSteps(n, k));
      t.active == {} && t.mainToken && t.main.Booting? && !t.fault
    decreases n - k
  {
    if k + 1 == n {
      assert Falling(n, cap, k).active == {k};
      LastNotifies(Falling(n, cap, k), k);
    } else {
      FallsAsleep(n, cap, k);
      AllSleep(n, cap, k + 1);
      Then(Falling(n, cap, k), IdleStep(k, TrySetInactive), SleepSteps(n, k + 1));
    }
  }

  /** The constructor of the executor can return: all workers go to sleep, and the main thread finds the pool idle. */
  lemma {:induction false} PoolStarts(n: nat, cap: nat)
    requires n > 0
    ensures IsRun(Boot(n, cap), SleepSteps(n, 0))
    ensures var t := After(Boot(n, cap), SleepSteps(n, 0));
      && IsRun(t, [MainStep(BootWake), MainStep(BootAssert)])
      && var u := After(t, [MainStep(BootWake), MainStep(BootAssert)]); u.main.Idle? && u.active == {} && !u.fault
  {
    assert Falling(n, cap, 0) == Boot(n, cap) by {
      assert Falling(n, cap, 0).workers == Boot(n, cap).workers && Ids(n) - Ids(0) == Ids(n);
    }
    AllSleep(n, cap, 0);
    TwoSteps(After(Boot(n, cap), SleepSteps(n, 0)), MainStep(BootWake), MainStep(BootAssert));
  }

  /** A worker that finds the injector empty, and unlocked, does not lock it. */
  lemma {:induction false} PeeksBeforeLocking(s: State, i: nat)
    requires Inv(s) && i < |s.workers| && s.workers[i].pc.PopPeek? && s.lock.None?
    ensures Enabled(s, PopStep(i, PeekFlag))
    ensures Apply(s, PopStep(i, PeekFlag)).workers[i].pc == if |s.injector| == 0 then Steal else PopLock
  {
  }

  // ----- Buckets -----

  /** A bucket on its way to the injector is neither empty nor over its capacity. */
  predicate BucketOk(w: Worker, cap: nat) {
    w.pc.BucketLock? ==> 0 < |w.bucket| <= cap
  }

  predicate BucketsOk(s: State) {
    s.cap >= 1 && Filled(s.injector, s.cap) && forall i :: 0 <= i < |s.workers| ==> BucketOk(s.workers[i], s.cap)
  }

  lemma {:induction false} QueueKeepsBuckets(s: State, i: nat, op: QueueOp)
    requires BucketsOk(s) && EnabledQueue(s, i, op)
    ensures BucketsOk(ApplyQueue(s, i, op))
  {
    assert BucketOk(s.workers[i], s.cap);
  }

  lemma {:induction false} PopKeepsBuckets(s: State, i: nat, op: PopOp)
    requires BucketsOk(s) && EnabledPop(s, i, op)
    ensures BucketsOk(ApplyPop(s, i, op))
  {
  }

  lemma {:induction false} RunKeepsBuckets(s: State, i: nat, op: RunOp)
    requires BucketsOk(s) && EnabledRun(s, i, op)
    ensures BucketsOk(ApplyRun(s, i, op))
  {
  }

  lemma {:induction false} StealKeepsBuckets(s: State, i: nat, op: StealOp)
    requires BucketsOk(s) && EnabledSteal(s, i, op)
    ensures BucketsOk(ApplySteal(s, i, op))
  {
  }

  lemma {:induction false} IdleKeepsBuckets(s: State, i: nat, op: IdleOp)
    requires BucketsOk(s) && EnabledIdle(s, i, op)
    ensures BucketsOk(ApplyIdle(s, i, op))
  {
  }

  lemma {:induction false} LookKeepsBuckets(s: State, a: nat, op: LookOp)
    requires BucketsOk(s) && EnabledLook(s, a, op)
    ensures BucketsOk(ApplyLook(s, a, op))
  {
  }

  lemma {:induction false} ClaimKeepsBuckets(s: State, a: nat, k: nat)
    requires BucketsOk(s) && EnabledClaim(s, a, k)
    ensures BucketsOk(ApplyClaim(s, a, k))
  {
  }

  lemma {:induction false} WakeKeepsBuckets(s: State, a: nat, op: WakeOp)
    requires BucketsOk(s) && EnabledWake(s, a, op)
    ensures BucketsOk(ApplyWake(s, a, op))
  {
  }

  lemma {:induction false} StepKeepsBuckets(s: State, step: Step)
    requires BucketsOk(s) && Enabled(s, step)
    ensures BucketsOk(Apply(s, step))
  {
    match step
    case IdleStep(i, op) => IdleKeepsBuckets(s, i, op);
    case PopStep(i, op) => PopKeepsBuckets(s, i, op);
    case StealStep(i, op) => StealKeepsBuckets(s, i, op);
    case RunStep(i, op) => RunKeepsBuckets(s, i, op);
    case QueueStep(i, op) => QueueKeepsBuckets(s, i, op);
    case LookStep(a, op) => LookKeepsBuckets(s, a, op);
    case ClaimStep(a, k) => ClaimKeepsBuckets(s, a, k);
    case WakeStep(a, op) => WakeKeepsBuckets(s, a, op);
    case MainStep(op) =>
  }

  lemma {:induction false} RunKeepsAllBuckets(s: State, steps: seq<Step>)
    requires BucketsOk(s) && IsRun(s, steps)
    ensures BucketsOk(After(s, steps))
    decreases |steps|
  {
    if steps != [] {
      StepKeepsBuckets(s, steps[0]);
      RunKeepsAllBuckets(Apply(s, steps[0]), steps[1..]);
    }
  }

  /** In every run each bucket of the injector holds at least one task and at most its capacity. */
  lemma {:induction false} BucketsAreFilled(n: nat, cap: nat, steps: seq<Step>)
    requires cap >= 1 && IsRun(Boot(n, cap), steps)
    ensures Filled(After(Boot(n, cap), steps).injector, After(Boot(n, cap), steps).cap)
  {
    RunKeepsAllBuckets(Boot(n, cap), steps);
  }

  // ----- What counts as a fault -----

  predicate IsFaulty(s: State, step: Step)
    requires Enabled(s, step)
  {
    || (step.IdleStep? && step.idle.TrySetInactive? && step.i !in s.active)
    || (step.StealStep? && step.steal.StealFrom? && s.workers[step.i].fast.Some?)
    || (step.StealStep? && step.steal.StopSearch? && s.searching <= 0)
    || (step.MainStep? && step.main.BootAssert? && s.active != {})
  }

  lemma {:induction false} QueueKeepsFault(s: State, i: nat, op: QueueOp)
    requires EnabledQueue(s, i, op)
    ensures ApplyQueue(s, i, op).fault == s.fault
  {
  }

  lemma {:induction false} LookKeepsFault(s: State, a: nat, op: LookOp)
    requires EnabledLook(s, a, op)
    ensures ApplyLook(s, a, op).fault == s.fault
  {
  }

  lemma {:induction false} WakeKeepsFault(s: State, a: nat, op: WakeOp)
    requires EnabledWake(s, a, op)
    ensures ApplyWake(s, a, op).fault == s.fault
  {
  }

  lemma {:induction false} OthersKeepFault(s: State, step: Step)
    requires Enabled(s, step)
    requires step.RunStep? || step.QueueStep? || step.LookStep? || step.ClaimStep? || step.WakeStep?
    ensures Apply(s, step).fault == s.fault
  {
    match step
    case RunStep(i, op) =>
    case QueueStep(i, op) => QueueKeepsFault(s, i, op);
    case LookStep(a, op) => LookKeepsFault(s, a, op);
    case WakeStep(a, op) => WakeKeepsFault(s, a, op);
    case ClaimStep(a, k) =>
  }

  /** The fault flag is set by exactly the assertions of the source and an underflow of the search count. */
  lemma {:induction false} FaultsExactly(s: State, step: Step)
    requires Enabled(s, step)
    ensures Apply(s, step).fault <==> s.fault || IsFaulty(s, step)
  {
    match step
    case IdleStep(i, op) =>
    case PopStep(i, op) =>
    case StealStep(i, op) =>
    case MainStep(op) =>
    case _ => OthersKeepFault(s, step);
  }
}
