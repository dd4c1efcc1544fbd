/** What every run of the task machine keeps, and what it guarantees. */
module TaskSafety {
  import opened TaskMachine

  /** The number of handles that account for a reference. */
  function Held(s: State): nat {
    |s.wakers| + (if s.promise == NoPromise then 0 else 1) + (if s.token == NoToken then 0 else 1)
  }

  /** Future, output and memory are accounted for. */
  predicate Ledger(s: State) {
    && !s.fault
    && s.futureDrops == (if s.core == Future then 0 else 1)
    && s.outputsMade <= s.futureDrops
    && s.outputsMade == s.outputDrops + s.outputMoves + (if s.core == Output then 1 else 0)
    && s.deallocs == (if s.alloc then 0 else 1)
  }

  /** Neither the promise nor the token is in the middle of an operation on the core. */
  predicate HandlesAtRest(s: State) {
    s.promise != PromiseTaking && s.token != TokenDropping && s.token != TokenReleasing
  }

  /** What holds while a runnable is live. */
  predicate RunOk(s: State) {
    && RunnableExists(s.w)
    && HandlesAtRest(s)
    && match s.run
       case NoRun => false
       case Handing => s.core == Future && s.w.wake > 0
       case Scheduled => s.core == Future && s.w.wake > 0
       case Loaded(wc, seen) => s.core == Future && s.w.wake >= wc && (seen ==> s.w.closed) && (wc > 0 || seen)
       case Polling(wc) => s.core == Future && s.w.wake >= wc > 0 && (s.unserviced ==> s.w.wake > wc)
       case Subtracting(wc) => s.core == Future && s.w.wake >= wc > 0 && (s.unserviced ==> s.w.wake > wc)
       case Completing => s.core == Future
       case Publishing => s.core == Output
       case Refused => s.core == Output && (s.w.closed || s.w.refs == 0)
       case Clearing => s.core == Vacant && (s.w.closed || s.w.refs == 0)
       case Cancelling => s.core == Future
       case Closing => s.core == Vacant
  }

  /** What holds during the final teardown. */
  predicate FreeOk(s: State) {
    && s.run == NoRun
    && s.w.refs == 0
    && match s.free
       case NoFree => false
       case FreeFuture => s.core == Future
       case FreeOutput => s.core == Output
       case FreeMemory => s.core == Vacant
  }

  /** A live task without runnable and without teardown. */
  predicate Resting(s: State) {
    && s.w.refs > 0
    && if s.w.polling then
         s.w.wake == 0 && !s.w.closed && s.core == Future && HandlesAtRest(s) && !s.unserviced
       else if s.promise == PromiseTaking then
         s.w.closed && s.core == Output && (s.token == NoToken || s.token == TokenHeld)
       else if s.token == TokenDropping then
         s.w.closed && s.core == Future
       else
         s.core == (if s.w.closed then Vacant else Output) && (s.token == TokenReleasing ==> s.w.closed)
  }

  predicate Stage(s: State) {
    if !s.alloc then s.w.refs == 0 && s.core == Vacant && s.run == NoRun && s.free == NoFree
    else if s.free != NoFree then FreeOk(s)
    else if s.run != NoRun then RunOk(s)
    else Resting(s)
  }

  predicate Inv(s: State) {
    s.w.refs == Held(s) && Ledger(s) && Stage(s)
  }

  lemma {:induction false} SpawnedIsSafe(withPromise: bool)
    ensures Inv(Spawned(withPromise))
  {
  }

  lemma {:induction false} CloneKeepsInv(s: State, step: Step)
    requires Inv(s) && Enabled(s, step) && (step.CloneWaker? || step.CloneContext?)
    ensures Inv(Apply(s, step))
  {
  }

  lemma {:induction false} WakeKeepsInv(s: State, step: Step)
    requires Inv(s) && Enabled(s, step) && (step.WakeByRef? || step.WakeContext?)
    ensures Inv(Apply(s, step))
  {
  }

  lemma {:induction false} WakeByValWhilePolling(s: State, x: nat)
    requires Inv(s) && Enabled(s, WakeByVal(x)) && s.w.polling
    ensures Inv(Apply(s, WakeByVal(x)))
  {
  }

  lemma {:induction false} WakeByValAfterPolling(s: State, x: nat)
    requires Inv(s) && Enabled(s, WakeByVal(x)) && !s.w.polling
    ensures Inv(Apply(s, WakeByVal(x)))
  {
  }

  lemma {:induction false} WakeByValKeepsInv(s: State, x: nat)
    requires Inv(s) && Enabled(s, WakeByVal(x))
    ensures Inv(Apply(s, WakeByVal(x)))
  {
    if s.w.polling {
      WakeByValWhilePolling(s, x);
    } else {
      WakeByValAfterPolling(s, x);
    }
  }

  lemma {:induction false} DropWakerKeepsInv(s: State, x: nat)
    requires Inv(s) && Enabled(s, DropWaker(x))
    ensures Inv(Apply(s, DropWaker(x)))
  {
  }

  lemma {:induction false} PromiseStepKeepsInv(s: State, step: Step)
    requires Inv(s) && Enabled(s, step)
    requires step.PollPromise? || step.TakeOutput? || step.DropPromise?
    ensures Inv(Apply(s, step))
  {
  }

  lemma {:induction false} CancelKeepsInv(s: State)
    requires Inv(s) && Enabled(s, CancelToken)
    ensures Inv(Apply(s, CancelToken))
  {
  }

  lemma {:induction false} TokenStepKeepsInv(s: State, step: Step)
    requires Inv(s) && Enabled(s, step)
    requires step.TokenDropFuture? || step.TokenRelease? || step.DropToken?
    ensures Inv(Apply(s, step))
  {
  }

  lemma {:induction false} PollStepKeepsInv(s: State, step: Step)
    requires Inv(s) && Enabled(s, step)
    requires step.HandOver? || step.BeginRun? || step.DropRunnable? || step.EnterLoop?
          || step.PollPending? || step.PollReady? || step.PollPanic? || step.SubtractWakes?
    ensures Inv(Apply(s, step))
  {
  }

  lemma {:induction false} EndStepKeepsInv(s: State, step: Step)
    requires Inv(s) && Enabled(s, step)
    requires step.StoreOutput? || step.Publish? || step.DiscardOutput? || step.ClearPolling?
    ensures Inv(Apply(s, step))
  {
  }

  lemma {:induction false} CloseStepKeepsInv(s: State, step: Step)
    requires Inv(s) && Enabled(s, step)
    requires step.CancelFuture? || step.Close? || step.Free?
    ensures Inv(Apply(s, step))
  {
  }

  lemma {:induction false} StepKeepsInv(s: State, step: Step)
    requires Inv(s) && Enabled(s, step)
    ensures Inv(Apply(s, step))
  {
    match step
    case CloneWaker(_, _) => CloneKeepsInv(s, step);
    case CloneContext(_) => CloneKeepsInv(s, step);
    case WakeByVal(x) => WakeByValKeepsInv(s, x);
    case WakeByRef(_) => WakeKeepsInv(s, step);
    case WakeContext => WakeKeepsInv(s, step);
    case DropWaker(x) => DropWakerKeepsInv(s, x);
    case PollPromise => PromiseStepKeepsInv(s, step);
    case TakeOutput => PromiseStepKeepsInv(s, step);
    case DropPromise => PromiseStepKeepsInv(s, step);
    case CancelToken => CancelKeepsInv(s);
    case TokenDropFuture => TokenStepKeepsInv(s, step);
    case TokenRelease => TokenStepKeepsInv(s, step);
    case DropToken => TokenStepKeepsInv(s, step);
    case HandOver => PollStepKeepsInv(s, step);
    case BeginRun => PollStepKeepsInv(s, step);
    case DropRunnable => PollStepKeepsInv(s, step);
    case EnterLoop => PollStepKeepsInv(s, step);
    case PollPending => PollStepKeepsInv(s, step);
    case PollReady => PollStepKeepsInv(s, step);
    case PollPanic => PollStepKeepsInv(s, step);
    case SubtractWakes => PollStepKeepsInv(s, step);
    case StoreOutput => EndStepKeepsInv(s, step);
    case Publish => EndStepKeepsInv(s, step);
    case DiscardOutput => EndStepKeepsInv(s, step);
    case ClearPolling => EndStepKeepsInv(s, step);
    case CancelFuture => CloseStepKeepsInv(s, step);
    case Close => CloseStepKeepsInv(s, step);
    case Free => CloseStepKeepsInv(s, step);
  }

  lemma {:induction false} RunKeepsInv(s: State, steps: seq<Step>)
    requires Inv(s) && IsRun(s, steps)
    ensures Inv(After(s, steps))
    decreases |steps|
  {
    if steps != [] {
      StepKeepsInv(s, steps[0]);
      RunKeepsInv(Apply(s, steps[0]), steps[1..]);
    }
  }

  // The guarantees, for every run of a spawned task.

  /**
    No run faults, so there is never a second runnable, and outside the final teardown a
    runnable is live exactly when the word says so; the word also tells what the core holds.
  */
  lemma {:induction false} PhaseTable(withPromise: bool, steps: seq<Step>)
    requires IsRun(Spawned(withPromise), steps)
    ensures var t := After(Spawned(withPromise), steps);
            && !t.fault
            && (t.alloc && t.free == NoFree ==>
                  && (t.run != NoRun <==> RunnableExists(t.w))
                  && (t.run == NoRun && HandlesAtRest(t) ==>
                        t.core == if t.w.polling then Future else if t.w.closed then Vacant else Output))
  {
    SpawnedIsSafe(withPromise);
    RunKeepsInv(Spawned(withPromise), steps);
  }

  /**
    The future is dropped once, an output is moved out or dropped but not both, the memory is
    freed once, and nothing is left in it when it is freed.
  */
  lemma {:induction false} ExactlyOnce(withPromise: bool, steps: seq<Step>)
    requires IsRun(Spawned(withPromise), steps)
    ensures var t := After(Spawned(withPromise), steps);
            && t.futureDrops <= 1 && t.outputDrops + t.outputMoves <= t.outputsMade <= 1 && t.deallocs <= 1
            && (!t.alloc ==> t.futureDrops == 1 && t.outputDrops + t.outputMoves == t.outputsMade && t.deallocs == 1)
  {
    SpawnedIsSafe(withPromise);
    RunKeepsInv(Spawned(withPromise), steps);
  }

  /** A step that some handle or the runnable of an allocated task can take. */
  ghost function AvailableStep(t: State): Step {
    if t.free != NoFree then Free
    else match t.run
      case Handing => HandOver
      case Scheduled => BeginRun
      case Loaded(_, _) => EnterLoop
      case Polling(_) => PollReady
      case Subtracting(_) => SubtractWakes
      case Completing => StoreOutput
      case Publishing => Publish
      case Refused => DiscardOutput
      case Clearing => ClearPolling
      case Cancelling => CancelFuture
      case Closing => Close
      case NoRun =>
        if t.promise == PromiseHeld then DropPromise
        else if t.promise == PromiseTaking then TakeOutput
        else if t.token == TokenHeld then DropToken
        else if t.token == TokenDropping then TokenDropFuture
        else if t.token == TokenReleasing then TokenRelease
        else if t.wakers != {} then var x :| x in t.wakers; DropWaker(x)
        else Free
  }

  lemma {:induction false} AllocatedIsNeverStuck(t: State)
    requires Inv(t) && t.alloc
    ensures Enabled(t, AvailableStep(t))
  {
    if t.free == NoFree && t.run == NoRun && t.promise == NoPromise && t.token == NoToken {
      assert t.wakers != {};
    }
  }

  /**
    Nothing leaks: an allocated task is held by a reference, by a runnable or by the handle that
    tears it down, so a run that cannot go on has freed it and dropped its future.
  */
  lemma {:induction false} NothingLeaks(withPromise: bool, steps: seq<Step>)
    requires IsRun(Spawned(withPromise), steps)
    ensures var t := After(Spawned(withPromise), steps);
            && (t.alloc ==> t.w.refs > 0 || t.run != NoRun || t.free != NoFree)
            && t.w.refs == Held(t)
            && ((forall step :: !Enabled(t, step)) ==> !t.alloc && t.futureDrops == 1 && t.deallocs == 1)
  {
    SpawnedIsSafe(withPromise);
    RunKeepsInv(Spawned(withPromise), steps);
    var t := After(Spawned(withPromise), steps);
    if t.alloc {
      AllocatedIsNeverStuck(t);
    }
  }

  predicate IsWake(step: Step) {
    step.WakeByVal? || step.WakeByRef? || step.WakeContext?
  }

  /** The step that starts a poll of the future. */
  predicate StartsPoll(s: State, step: Step) {
    step.EnterLoop? && s.run.Loaded? && !s.run.seen
  }

  predicate PollStarts(s: State, steps: seq<Step>)
    requires IsRun(s, steps)
    decreases |steps|
  {
    steps != [] && (StartsPoll(s, steps[0]) || PollStarts(Apply(s, steps[0]), steps[1..]))
  }

  lemma {:induction false} StepKeepsUnserviced(s: State, step: Step)
    requires Enabled(s, step) && s.unserviced && !StartsPoll(s, step)
    ensures Apply(s, step).unserviced
  {
  }

  /** An unserviced wake stays so until a poll starts. */
  lemma {:induction false} UnservicedPersists(s: State, steps: seq<Step>)
    requires IsRun(s, steps) && s.unserviced && !PollStarts(s, steps)
    ensures After(s, steps).unserviced
    decreases |steps|
  {
    if steps != [] {
      StepKeepsUnserviced(s, steps[0]);
      UnservicedPersists(Apply(s, steps[0]), steps[1..]);
    }
  }

  /** The runnable will poll again before it can retire, unless the future is done or cancelled. */
  predicate WillPoll(t: State) {
    match t.run
    case Handing => true
    case Scheduled => true
    case Loaded(_, seen) => true
    case Polling(wc) => t.w.wake > wc
    case Subtracting(wc) => t.w.wake > wc
    case _ => false
  }

  /** The future is complete, or cancelled, or about to be. */
  predicate Ended(t: State) {
    || !t.alloc || !t.w.polling || t.w.closed || t.free != NoFree
    || t.run == Completing || t.run == Publishing || t.run == Refused || t.run == Clearing
    || t.run == Cancelling || t.run == Closing
  }

  /**
    No lost wake-up: after a wake issued in the Polling phase, either a poll starts later in the
    run, or the task has ended, or a runnable is live that must poll before it retires. In
    particular an idle task has no unserviced wake.
  */
  lemma {:induction false} NoLostWakeUp(withPromise: bool, before: seq<Step>, wake: Step, after: seq<Step>)
    requires IsRun(Spawned(withPromise), before)
    requires var s := After(Spawned(withPromise), before);
             IsWake(wake) && Enabled(s, wake) && s.w.polling && !s.w.closed && IsRun(Apply(s, wake), after)
    ensures var s := Apply(After(Spawned(withPromise), before), wake);
            var t := After(s, after);
            PollStarts(s, after) || Ended(t) || WillPoll(t)
  {
    SpawnedIsSafe(withPromise);
    RunKeepsInv(Spawned(withPromise), before);
    var s := After(Spawned(withPromise), before);
    StepKeepsInv(s, wake);
    RunKeepsInv(Apply(s, wake), after);
    if !PollStarts(Apply(s, wake), after) {
      UnservicedPersists(Apply(s, wake), after);
    }
  }

  /** The steps by which the runnable alone gets from `t` to the start of a poll. */
  function PathToPoll(t: State): (steps: seq<Step>)
    ensures |steps| <= 3
  {
    match t.run
    case Handing => [HandOver, BeginRun, EnterLoop]
    case Scheduled => [BeginRun, EnterLoop]
    case Loaded(_, _) => [EnterLoop]
    case Polling(_) => [PollPending, SubtractWakes, EnterLoop]
    case Subtracting(_) => [SubtractWakes, EnterLoop]
    case _ => []
  }

  /** `WillPoll` means what it says: without help from any other handle the runnable polls next. */
  lemma {:induction false} WillPollPolls(t: State)
    requires Inv(t) && WillPoll(t) && !Ended(t)
    ensures IsRun(t, PathToPoll(t)) && PollStarts(t, PathToPoll(t))
    ensures After(t, PathToPoll(t)).run.Polling? && !After(t, PathToPoll(t)).unserviced
    decreases |PathToPoll(t)|
  {
    var p := PathToPoll(t);
    if !t.run.Loaded? {
      PollStepKeepsInv(t, p[0]);
      assert PathToPoll(Apply(t, p[0])) == p[1..];
      WillPollPolls(Apply(t, p[0]));
    } else {
      assert p[1..] == [];
    }
  }
}
