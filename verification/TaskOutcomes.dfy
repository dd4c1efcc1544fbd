/**
  What becomes of a task: a cancelled task is not polled any more and loses its future, and a task that
  completes hands its output to the promise.
*/
module TaskOutcomes {
  import opened TaskMachine
  import opened TaskSafety

  // ----- Cancelled tasks are not polled -----

  /** The runnable has read the state word, and found no reason not to poll. */
  predicate IsCommitted(s: State) {
    s.run.Loaded? && !s.run.seen
  }

  /** The task was cancelled or closed, or its future has completed. */
  predicate IsOver(s: State) {
    s.w.closed || !s.w.polling
  }

  /** The number of polls that start in a run. */
  function PollsStarted(s: State, steps: seq<Step>): nat
    requires IsRun(s, steps)
    decreases |steps|
  {
    if steps == [] then 0
    else
      (if !s.run.Polling? && Apply(s, steps[0]).run.Polling? then 1 else 0)
      + PollsStarted(Apply(s, steps[0]), steps[1..])
  }

  /** The steps of the runnable. */
  predicate IsRunStep(step: Step) {
    || step.HandOver? || step.BeginRun? || step.DropRunnable? || step.EnterLoop? || step.PollPending?
    || step.PollReady? || step.PollPanic? || step.SubtractWakes? || step.StoreOutput? || step.Publish?
    || step.DiscardOutput? || step.ClearPolling? || step.CancelFuture? || step.Close?
  }

  lemma {:induction false} OverHandleStep(s: State, step: Step)
    requires Inv(s) && IsOver(s) && Enabled(s, step) && !IsRunStep(step)
    ensures IsOver(Apply(s, step)) && Apply(s, step).run == s.run
  {
  }

  lemma {:induction false} OverLoopStep(s: State, step: Step)
    requires Inv(s) && IsOver(s) && Enabled(s, step)
    requires step.BeginRun? || step.EnterLoop? || step.SubtractWakes?
    ensures var t := Apply(s, step); IsOver(t) && !IsCommitted(t) && (t.run.Polling? ==> IsCommitted(s))
  {
  }

  lemma {:induction false} OverEndStep(s: State, step: Step)
    requires Inv(s) && IsOver(s) && Enabled(s, step) && IsRunStep(step)
    requires !step.BeginRun? && !step.EnterLoop? && !step.SubtractWakes?
    ensures var t := Apply(s, step); IsOver(t) && !t.run.Loaded? && !t.run.Polling?
  {
  }

  lemma {:induction false} OverStep(s: State, step: Step)
    requires Inv(s) && IsOver(s) && Enabled(s, step)
    ensures var t := Apply(s, step);
      && IsOver(t)
      && (IsCommitted(t) ==> IsCommitted(s))
      && (t.run.Polling? ==> s.run.Polling? || (IsCommitted(s) && !IsCommitted(t)))
  {
    if step.BeginRun? || step.EnterLoop? || step.SubtractWakes? {
      OverLoopStep(s, step);
    } else if IsRunStep(step) {
      OverEndStep(s, step);
    } else {
      OverHandleStep(s, step);
    }
  }

  /** Once the task is over, no poll starts, but for the one that the runnable is committed to. */
  lemma {:induction false} OverIsNotPolled(s: State, steps: seq<Step>)
    requires Inv(s) && IsOver(s) && IsRun(s, steps)
    ensures PollsStarted(s, steps) <= if IsCommitted(s) then 1 else 0
    ensures After(s, steps).run.Polling? ==> s.run.Polling? || IsCommitted(s)
    decreases |steps|
  {
    if steps != [] {
      OverStep(s, steps[0]);
      StepKeepsInv(s, steps[0]);
      OverIsNotPolled(Apply(s, steps[0]), steps[1..]);
    }
  }

  /**
    In every run, after the cancellation of a task at most one poll starts, and none if the runnable had not
    yet read the state word: in particular a task cancelled before its runnable runs is never polled.
  */
  lemma {:induction false} CancelledIsNotPolled(withPromise: bool, before: seq<Step>, after: seq<Step>)
    requires IsRun(Spawned(withPromise), before)
    requires var s := After(Spawned(withPromise), before);
      Enabled(s, CancelToken) && IsRun(Apply(s, CancelToken), after)
    ensures var s := After(Spawned(withPromise), before);
      var t := After(Apply(s, CancelToken), after);
      && PollsStarted(Apply(s, CancelToken), after) <= (if IsCommitted(s) then 1 else 0)
      && (!s.run.Polling? && !IsCommitted(s) ==> !t.run.Polling?)
  {
    SpawnedIsSafe(withPromise);
    RunKeepsInv(Spawned(withPromise), before);
    var s := After(Spawned(withPromise), before);
    StepKeepsInv(s, CancelToken);
    OverIsNotPolled(Apply(s, CancelToken), after);
  }

  // ----- What the handles do when they go on alone -----

  /** The steps by which the runnable of a closed task retires, if a poll under way returns `Pending`. */
  function PathToEnd(t: State): (steps: seq<Step>)
    ensures |steps| <= 6
  {
    match t.run
    case Handing => [HandOver, BeginRun, EnterLoop, CancelFuture, Close]
    case Scheduled => [BeginRun, EnterLoop, CancelFuture, Close]
    case Loaded(_, seen) =>
      if seen then [EnterLoop, CancelFuture, Close]
      else [EnterLoop, PollPending, SubtractWakes, EnterLoop, CancelFuture, Close]
    case Polling(_) => [PollPending, SubtractWakes, EnterLoop, CancelFuture, Close]
    case Subtracting(_) => [SubtractWakes, EnterLoop, CancelFuture, Close]
    case Completing => [StoreOutput, Publish, DiscardOutput, ClearPolling]
    case Publishing => [Publish, DiscardOutput, ClearPolling]
    case Refused => [DiscardOutput, ClearPolling]
    case Clearing => [ClearPolling]
    case Cancelling => [CancelFuture, Close]
    case Closing => [Close]
    case NoRun => []
  }

  predicate IsRunning(t: State) {
    t.alloc && t.free == NoFree && t.run != NoRun && t.w.closed
  }

  lemma {:induction false} PollRetires(t: State, step: Step)
    requires Inv(t) && IsRunning(t) && step == PathToEnd(t)[0]
    requires step.HandOver? || step.BeginRun? || step.EnterLoop? || step.PollPending? || step.SubtractWakes?
    ensures Enabled(t, step) && Apply(t, step).outputMoves == t.outputMoves && IsRunning(Apply(t, step))
    ensures PathToEnd(Apply(t, step)) == PathToEnd(t)[1..]
  {
  }

  lemma {:induction false} OutputRetires(t: State, step: Step)
    requires Inv(t) && IsRunning(t) && step == PathToEnd(t)[0]
    requires step.StoreOutput? || step.Publish? || step.DiscardOutput? || step.ClearPolling?
    ensures Enabled(t, step) && Apply(t, step).outputMoves == t.outputMoves
    ensures |PathToEnd(t)| > 1 ==> IsRunning(Apply(t, step))
    ensures PathToEnd(Apply(t, step)) == PathToEnd(t)[1..]
  {
  }

  lemma {:induction false} CancelRetires(t: State, step: Step)
    requires Inv(t) && IsRunning(t) && step == PathToEnd(t)[0] && (step.CancelFuture? || step.Close?)
    ensures Enabled(t, step) && Apply(t, step).outputMoves == t.outputMoves
    ensures |PathToEnd(t)| > 1 ==> IsRunning(Apply(t, step))
    ensures PathToEnd(Apply(t, step)) == PathToEnd(t)[1..]
  {
  }

  lemma {:induction false} RetireStep(t: State, step: Step)
    requires Inv(t) && IsRunning(t) && step == PathToEnd(t)[0]
    ensures Enabled(t, step) && Apply(t, step).outputMoves == t.outputMoves
    ensures |PathToEnd(t)| > 1 ==> IsRunning(Apply(t, step))
    ensures PathToEnd(Apply(t, step)) == PathToEnd(t)[1..]
  {
    if step.HandOver? || step.BeginRun? || step.EnterLoop? || step.PollPending? || step.SubtractWakes? {
      PollRetires(t, step);
    } else if step.CancelFuture? || step.Close? {
      CancelRetires(t, step);
    } else {
      OutputRetires(t, step);
    }
  }

  /** The runnable of a closed task needs no help to drop the future, or the output, and to retire. */
  lemma {:induction false} ClosedRunnableRetires(t: State)
    requires Inv(t) && IsRunning(t)
    ensures IsRun(t, PathToEnd(t))
    ensures var u := After(t, PathToEnd(t));
      u.run == NoRun && u.core == Vacant && u.futureDrops == 1 && u.outputMoves == t.outputMoves && !u.w.polling
    decreases |PathToEnd(t)|
  {
    var p := PathToEnd(t);
    RetireStep(t, p[0]);
    StepKeepsInv(t, p[0]);
    if |p| > 1 {
      ClosedRunnableRetires(Apply(t, p[0]));
    } else {
      assert p[1..] == [];
    }
  }

  lemma {:induction false} Then(s: State, step: Step, rest: seq<Step>)
    requires Enabled(s, step) && IsRun(Apply(s, step), rest)
    ensures IsRun(s, [step] + rest) && After(s, [step] + rest) == After(Apply(s, step), rest)
  {
    assert ([step] + rest)[1..] == rest;
  }

  lemma {:induction false} TwoSteps(s: State, a: Step, b: Step)
    requires Enabled(s, a) && Enabled(Apply(s, a), b)
    ensures IsRun(s, [a, b]) && After(s, [a, b]) == Apply(Apply(s, a), b)
  {
    assert IsRun(Apply(Apply(s, a), b), []);
    Then(Apply(s, a), b, []);
    Then(s, a, [b] + []);
    assert [a] + ([b] + []) == [a, b];
  }

  lemma {:induction false} ThreeSteps(s: State, a: Step, b: Step, c: Step)
    requires Enabled(s, a) && Enabled(Apply(s, a), b) && Enabled(Apply(Apply(s, a), b), c)
    ensures IsRun(s, [a, b, c]) && After(s, [a, b, c]) == Apply(Apply(Apply(s, a), b), c)
  {
    TwoSteps(Apply(s, a), b, c);
    Then(s, a, [b, c]);
    assert [a] + [b, c] == [a, b, c];
  }

  lemma {:induction false} CancellingRetires(t: State)
    requires Inv(t) && t.run == Cancelling
    ensures IsRun(t, [CancelFuture, Close])
    ensures var u := After(t, [CancelFuture, Close]);
      u.run == NoRun && u.core == Vacant && u.futureDrops == 1 && u.w == t.w.(closed := true, polling := false)
  {
    TwoSteps(t, CancelFuture, Close);
  }

  /** A runnable that is dropped without being run, or whose poll panics, drops the future and retires. */
  lemma {:induction false} DroppedRunnableRetires(t: State, step: Step)
    requires Inv(t) && ((t.run == Scheduled && step == DropRunnable) || (t.run.Polling? && step == PollPanic))
    ensures IsRun(t, [step] + [CancelFuture, Close])
    ensures var u := After(t, [step] + [CancelFuture, Close]);
      u.run == NoRun && u.core == Vacant && u.futureDrops == 1 && u.w == t.w.(closed := true, polling := false)
  {
    StepKeepsInv(t, step);
    CancellingRetires(Apply(t, step));
    Then(t, step, [CancelFuture, Close]);
  }

  /** A poll that returns `Ready` leaves the output for the promise, if the task is open and has a handle left. */
  lemma {:induction false} CompletesAlone(t: State)
    requires Inv(t) && t.run.Polling? && !t.w.closed && t.w.refs > 0
    ensures IsRun(t, [PollReady, StoreOutput, Publish])
    ensures After(t, [PollReady, StoreOutput, Publish]) ==
      t.(run := NoRun, core := Output, futureDrops := 1, outputsMade := 1, w := t.w.(polling := false))
  {
    ThreeSteps(t, PollReady, StoreOutput, Publish);
  }

  /** A poll of the promise moves the output out exactly if there is one; otherwise it changes nothing. */
  lemma {:induction false} PromiseReceives(t: State)
    requires Inv(t) && t.promise == PromiseHeld
    ensures Enabled(t, PollPromise)
    ensures !t.w.polling && !t.w.closed ==>
      && IsRun(t, [PollPromise, TakeOutput])
      && After(t, [PollPromise, TakeOutput]) == t.(core := Vacant, outputMoves := 1, w := t.w.(closed := true))
    ensures t.w.polling || t.w.closed ==> Apply(t, PollPromise) == t
  {
    if !t.w.polling && !t.w.closed {
      TwoSteps(t, PollPromise, TakeOutput);
    }
  }

  /** The token of an idle task drops the future itself. */
  lemma {:induction false} IdleCancelDropsFuture(t: State)
    requires Inv(t) && t.token == TokenHeld && t.w.polling && t.run == NoRun && t.free == NoFree && t.alloc
    ensures IsRun(t, [CancelToken, TokenDropFuture, TokenRelease])
    ensures var u := After(t, [CancelToken, TokenDropFuture, TokenRelease]);
      && u.core == Vacant && u.futureDrops == 1 && u.token == NoToken && u.run == NoRun
      && u.w == t.w.(closed := true, polling := false, refs := t.w.refs - 1)
      && u.free == if t.w.refs == 1 then FreeMemory else NoFree
  {
    ThreeSteps(t, CancelToken, TokenDropFuture, TokenRelease);
  }

  // ----- Wakers -----

  /** A waker that is cloned and dropped leaves no trace. */
  lemma {:induction false} CloneThenDrop(t: State, x: nat, y: nat)
    requires Inv(t) && x in t.wakers && y !in t.wakers
    ensures IsRun(t, [CloneWaker(x, y), DropWaker(y)]) && After(t, [CloneWaker(x, y), DropWaker(y)]) == t
  {
    TwoSteps(t, CloneWaker(x, y), DropWaker(y));
    assert t.wakers + {y} - {y} == t.wakers;
  }

  /** The combined addition of `wake_by_val` is a wake followed by a drop. */
  lemma {:induction false} WakeByValIsWakeAndDrop(t: State, x: nat)
    requires Inv(t) && x in t.wakers
    ensures Enabled(t, WakeByVal(x)) && IsRun(t, [WakeByRef(x), DropWaker(x)])
    ensures Apply(t, WakeByVal(x)) == After(t, [WakeByRef(x), DropWaker(x)])
  {
    TwoSteps(t, WakeByRef(x), DropWaker(x));
  }

  /** A wake through the context of a poll is a wake through a clone of its waker. */
  lemma {:induction false} ContextWakes(t: State, y: nat)
    requires Inv(t) && t.run.Polling? && y !in t.wakers
    ensures Enabled(t, WakeContext) && IsRun(t, [CloneContext(y), WakeByVal(y)])
    ensures After(t, [CloneContext(y), WakeByVal(y)]) == Apply(t, WakeContext)
  {
    TwoSteps(t, CloneContext(y), WakeByVal(y));
    assert t.wakers + {y} - {y} == t.wakers;
  }

  /** The wakes issued in a run. */
  function WakesIssued(steps: seq<Step>): nat {
    if steps == [] then 0 else (if IsWake(steps[0]) then 1 else 0) + WakesIssued(steps[1..])
  }

  /** The wakes that the runnables took note of in a run. */
  function WakesServed(s: State, steps: seq<Step>): nat
    requires IsRun(s, steps)
    decreases |steps|
  {
    if steps == [] then 0
    else (if steps[0].SubtractWakes? then s.run.wc else 0) + WakesServed(Apply(s, steps[0]), steps[1..])
  }

  lemma {:induction false} WakeIsCounted(s: State, step: Step)
    requires Inv(s) && Enabled(s, step) && IsWake(step)
    ensures Apply(s, step).w.wake == s.w.wake + 1
  {
  }

  lemma {:induction false} HandleKeepsCount(s: State, step: Step)
    requires Inv(s) && Enabled(s, step) && !IsWake(step) && !IsRunStep(step)
    ensures Apply(s, step).w.wake == s.w.wake
  {
  }

  lemma {:induction false} RunKeepsCount(s: State, step: Step)
    requires Inv(s) && Enabled(s, step) && IsRunStep(step)
    ensures Apply(s, step).w.wake + (if step.SubtractWakes? then s.run.wc else 0) == s.w.wake
  {
  }

  /** Every wake is counted once, and taken from the count once. */
  lemma {:induction false} WakesAreConserved(s: State, steps: seq<Step>)
    requires Inv(s) && IsRun(s, steps)
    ensures After(s, steps).w.wake + WakesServed(s, steps) == s.w.wake + WakesIssued(steps)
    decreases |steps|
  {
    if steps != [] {
      if IsWake(steps[0]) {
        WakeIsCounted(s, steps[0]);
      } else if IsRunStep(steps[0]) {
        RunKeepsCount(s, steps[0]);
      } else {
        HandleKeepsCount(s, steps[0]);
      }
      StepKeepsInv(s, steps[0]);
      WakesAreConserved(Apply(s, steps[0]), steps[1..]);
    }
  }

  // ----- From the spawn to the promise -----

  /** A spawned task is polled by its runnable. */
  lemma {:induction false} SpawnedIsPolled(withPromise: bool)
    ensures IsRun(Spawned(withPromise), [BeginRun, EnterLoop])
    ensures var t := After(Spawned(withPromise), [BeginRun, EnterLoop]);
      Inv(t) && t.run.Polling? && !t.w.closed && t.w.refs > 0 && t.promise == Spawned(withPromise).promise
  {
    var s := Spawned(withPromise);
    SpawnedIsSafe(withPromise);
    TwoSteps(s, BeginRun, EnterLoop);
    RunKeepsInv(s, [BeginRun, EnterLoop]);
  }

  /** The output of a spawned task that completes at its first poll reaches the promise. */
  lemma {:induction false} OutputReachesPromise(t: State, u: State)
    requires IsRun(Spawned(true), [BeginRun, EnterLoop]) && t == After(Spawned(true), [BeginRun, EnterLoop])
    requires IsRun(t, [PollReady, StoreOutput, Publish]) && u == After(t, [PollReady, StoreOutput, Publish])
    ensures IsRun(u, [PollPromise, TakeOutput])
    ensures After(u, [PollPromise, TakeOutput]).outputMoves == 1 && After(u, [PollPromise, TakeOutput]).core == Vacant
  {
    SpawnedIsPolled(true);
    CompletesAlone(t);
    RunKeepsInv(t, [PollReady, StoreOutput, Publish]);
    PromiseReceives(u);
  }

  // ----- A task can always be freed -----

  function RunRank(run: RunPc): nat {
    match run
    case NoRun => 0
    case Subtracting(_) => 30
    case Handing => 27
    case Scheduled => 24
    case Loaded(_, _) => 21
    case Polling(_) => 18
    case Completing => 15
    case Publishing => 12
    case Refused => 9
    case Clearing => 6
    case Cancelling => 9
    case Closing => 6
  }

  function HandleRank(t: State): nat {
    20 * |t.wakers|
    + (match t.promise case NoPromise => 0 case PromiseHeld => 20 case PromiseTaking => 21)
    + (match t.token case NoToken => 0 case TokenHeld => 20 case TokenDropping => 22 case TokenReleasing => 21)
  }

  function FreeRank(free: FreePc): nat {
    match free
    case NoFree => 0
    case FreeMemory => 1
    case _ => 2
  }

  /** How far a task is from being freed, if nobody wakes it and its poll returns `Ready`. */
  function Rank(t: State): nat {
    RunRank(t.run) + HandleRank(t) + FreeRank(t.free)
  }

  lemma {:induction false} RunRankFalls(t: State, step: Step)
    requires Inv(t) && t.alloc && t.free == NoFree && t.run != NoRun && step == AvailableStep(t)
    ensures Enabled(t, step) && Rank(Apply(t, step)) < Rank(t)
  {
  }

  lemma {:induction false} FreeRankFalls(t: State)
    requires Inv(t) && t.alloc && t.free != NoFree
    ensures Enabled(t, Free) && Rank(Apply(t, Free)) < Rank(t)
  {
  }

  lemma {:induction false} HandleRankFalls(t: State, step: Step)
    requires Inv(t) && t.alloc && t.free == NoFree && t.run == NoRun && Enabled(t, step)
    requires step.DropPromise? || step.TakeOutput? || step.DropToken? || step.TokenDropFuture? || step.TokenRelease?
    ensures Rank(Apply(t, step)) < Rank(t)
  {
  }

  lemma {:induction false} WakerRankFalls(t: State, x: nat)
    requires Inv(t) && t.alloc && t.free == NoFree && t.run == NoRun && x in t.wakers
    ensures Enabled(t, DropWaker(x)) && Rank(Apply(t, DropWaker(x))) < Rank(t)
  {
    assert |t.wakers - {x}| == |t.wakers| - 1;
  }

  lemma {:induction false} RankFalls(t: State) returns (step: Step)
    requires Inv(t) && t.alloc
    ensures Enabled(t, step) && Rank(Apply(t, step)) < Rank(t)
  {
    AllocatedIsNeverStuck(t);
    step := AvailableStep(t);
    if t.free != NoFree {
      FreeRankFalls(t);
    } else if t.run != NoRun {
      RunRankFalls(t, step);
    } else if step.DropWaker? {
      WakerRankFalls(t, step.x);
    } else {
      HandleRankFalls(t, step);
    }
  }

  /** From wherever it is, a task can still be brought to its end, with its future dropped and its memory freed. */
  lemma {:induction false} CanAlwaysBeFreed(t: State) returns (steps: seq<Step>)
    requires Inv(t)
    ensures IsRun(t, steps)
    ensures !After(t, steps).alloc && After(t, steps).futureDrops == 1 && After(t, steps).deallocs == 1
    decreases Rank(t)
  {
    steps := [];
    if t.alloc {
      var step := RankFalls(t);
      StepKeepsInv(t, step);
      var rest := CanAlwaysBeFreed(Apply(t, step));
      Then(t, step, rest);
      steps := [step] + rest;
    }
  }

  // ----- What counts as a fault -----

  /** The step uses the memory of the task. */
  predicate UsesMemory(s: State, step: Step) {
    !step.DropRunnable? && !step.PollPending? && !step.PollReady? && !step.PollPanic?
    && (step.EnterLoop? && s.run.Loaded? ==> !s.run.seen)
  }

  predicate NeedsFuture(s: State, step: Step) {
    || step.TokenDropFuture? || step.StoreOutput? || step.CancelFuture?
    || (step.EnterLoop? && s.run.Loaded? && !s.run.seen) || (step.Free? && s.free == FreeFuture)
  }

  predicate NeedsOutput(s: State, step: Step) {
    step.TakeOutput? || step.DiscardOutput? || (step.Free? && s.free == FreeOutput)
  }

  /** The step gives a reference up. */
  predicate GivesUpReference(s: State, step: Step) {
    || step.WakeByVal? || step.DropWaker? || step.DropPromise? || step.DropToken? || step.TokenRelease?
    || (step.CancelToken? && (!s.w.polling || RunnableExists(s.w)))
  }

  /** The step creates a runnable. */
  predicate CreatesRunnable(s: State, step: Step) {
    IsWake(step) && s.w.polling && !s.w.closed && s.w.wake == 0
  }

  /** The step starts the teardown of the task. */
  predicate StartsTeardown(s: State, step: Step) {
    || (GivesUpReference(s, step) && !step.WakeByVal? && s.w.refs == 1 && !RunnableExists(s.w))
    || (step.TokenRelease? && s.w.refs == 1)
    || (step.WakeByVal? && s.w.refs == 1 && !s.w.polling)
    || ((step.ClearPolling? || step.Close?) && s.w.refs == 0)
    || (step.SubtractWakes? && s.run.Subtracting? && s.w.wake == s.run.wc && !s.w.closed && s.w.refs == 0)
  }

  predicate IsFaulty(s: State, step: Step) {
    || (UsesMemory(s, step) && !s.alloc)
    || (NeedsFuture(s, step) && s.core != Future)
    || (NeedsOutput(s, step) && s.core != Output)
    || (GivesUpReference(s, step) && s.w.refs == 0)
    || (CreatesRunnable(s, step) && s.run != NoRun)
    || (StartsTeardown(s, step) && s.free != NoFree)
    || (step.SubtractWakes? && s.run.Subtracting? && s.w.wake < s.run.wc)
  }

  lemma {:induction false} WakerFaults(s: State, step: Step)
    requires Enabled(s, step) && (IsWake(step) || step.CloneWaker? || step.CloneContext? || step.DropWaker?)
    ensures Apply(s, step).fault <==> s.fault || IsFaulty(s, step)
  {
  }

  lemma {:induction false} HandleFaults(s: State, step: Step)
    requires Enabled(s, step)
    requires step.PollPromise? || step.TakeOutput? || step.DropPromise? || step.DropToken? || step.Free?
    ensures Apply(s, step).fault <==> s.fault || IsFaulty(s, step)
  {
  }

  lemma {:induction false} CancelFaults(s: State, step: Step)
    requires Enabled(s, step) && (step.CancelToken? || step.TokenDropFuture? || step.TokenRelease?)
    ensures Apply(s, step).fault <==> s.fault || IsFaulty(s, step)
  {
  }

  lemma {:induction false} LoopFaults(s: State, step: Step)
    requires Enabled(s, step)
    requires step.BeginRun? || step.EnterLoop? || step.SubtractWakes? || step.HandOver? || step.DropRunnable?
    ensures Apply(s, step).fault <==> s.fault || IsFaulty(s, step)
  {
  }

  lemma {:induction false} PollFaults(s: State, step: Step)
    requires Enabled(s, step)
    requires step.PollPending? || step.PollReady? || step.PollPanic? || step.CancelFuture? || step.Close?
    ensures Apply(s, step).fault <==> s.fault || IsFaulty(s, step)
  {
  }

  lemma {:induction false} OutputFaults(s: State, step: Step)
    requires Enabled(s, step) && (step.StoreOutput? || step.Publish? || step.DiscardOutput? || step.ClearPolling?)
    ensures Apply(s, step).fault <==> s.fault || IsFaulty(s, step)
  {
  }

  /**
    The fault flag is set by exactly these: a use of freed memory, a drop or poll of a future or an output that is
    not there, a reference given up that is not held, a second runnable, a second teardown and an underflow.
  */
  lemma {:induction false} FaultsExactly(s: State, step: Step)
    requires Enabled(s, step)
    ensures Apply(s, step).fault <==> s.fault || IsFaulty(s, step)
  {
    match step
    case CancelToken => CancelFaults(s, step);
    case TokenDropFuture => CancelFaults(s, step);
    case TokenRelease => CancelFaults(s, step);
    case PollPromise => HandleFaults(s, step);
    case TakeOutput => HandleFaults(s, step);
    case DropPromise => HandleFaults(s, step);
    case DropToken => HandleFaults(s, step);
    case Free => HandleFaults(s, step);
    case BeginRun => LoopFaults(s, step);
    case EnterLoop => LoopFaults(s, step);
    case SubtractWakes => LoopFaults(s, step);
    case HandOver => LoopFaults(s, step);
    case DropRunnable => LoopFaults(s, step);
    case PollPending => PollFaults(s, step);
    case PollReady => PollFaults(s, step);
    case PollPanic => PollFaults(s, step);
    case CancelFuture => PollFaults(s, step);
    case Close => PollFaults(s, step);
    case StoreOutput => OutputFaults(s, step);
    case Publish => OutputFaults(s, step);
    case DiscardOutput => OutputFaults(s, step);
    case ClearPolling => OutputFaults(s, step);
    case _ => WakerFaults(s, step);
  }
}
