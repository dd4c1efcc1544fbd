/**
  The shared state of one task of the executor and every atomic step that its handles can
  take on it: any number of wakers, a promise, a cancel token and the runnables that poll
  the future.

  Each step is one atomic access to the state word, or one of the non-atomic effects that
  follow it (dropping the future or the output, moving the output out, deallocating). Steps
  are total: a second live runnable, a second teardown, an access to freed memory, the drop
  of something that is not there, a counter underflow or a poll without a future is not
  excluded but recorded in `fault`.
*/
module TaskMachine {

  /** The four fields packed in the state word. */
  datatype Word = Word(wake: nat, refs: nat, closed: bool, polling: bool)

  predicate RunnableExists(w: Word) {
    w.polling && (w.wake != 0 || w.closed)
  }

  /** What the task's union holds. */
  datatype Core = Future | Output | Vacant

  datatype PromisePc = NoPromise | PromiseHeld | PromiseTaking

  datatype TokenPc = NoToken | TokenHeld | TokenDropping | TokenReleasing

  /** Where a runnable is; `wc` is its local copy of the wake count. */
  datatype RunPc =
    | NoRun
    | Handing                        // created by a wake, not passed to the scheduler yet
    | Scheduled
    | Loaded(wc: nat, seen: bool)    // at the loop head, `seen` is the CLOSED flag it read
    | Polling(wc: nat)
    | Subtracting(wc: nat)           // the poll returned Pending
    | Completing                     // the poll returned Ready
    | Publishing                     // the output is stored
    | Refused                        // the output could not be published
    | Clearing                       // the output was dropped
    | Cancelling                     // the future is to be dropped
    | Closing                        // the future was dropped

  /** What the handle that found itself last has still to do. */
  datatype FreePc = NoFree | FreeFuture | FreeOutput | FreeMemory

  datatype State = State(
    w: Word,
    alloc: bool,
    core: Core,
    wakers: set<nat>,
    promise: PromisePc,
    token: TokenPc,
    run: RunPc,
    free: FreePc,
    // A wake was issued in the Polling phase after the latest poll started.
    unserviced: bool,
    futureDrops: nat,
    outputsMade: nat,
    outputDrops: nat,
    outputMoves: nat,
    deallocs: nat,
    fault: bool)

  datatype Step =
    | CloneWaker(x: nat, y: nat)
    | CloneContext(y: nat)
    | WakeByVal(x: nat)
    | WakeByRef(x: nat)
    | WakeContext
    | DropWaker(x: nat)
    | PollPromise
    | TakeOutput
    | DropPromise
    | CancelToken
    | TokenDropFuture
    | TokenRelease
    | DropToken
    | HandOver
    | BeginRun
    | DropRunnable
    | EnterLoop
    | PollPending
    | PollReady
    | PollPanic
    | SubtractWakes
    | StoreOutput
    | Publish
    | DiscardOutput
    | ClearPolling
    | CancelFuture
    | Close
    | Free

  /** The task as `spawn` (with a promise) or `spawn_and_forget` (without) leaves it. */
  function Spawned(withPromise: bool): State {
    State(Word(1, if withPromise then 2 else 1, false, true), true, Future,
          {}, if withPromise then PromiseHeld else NoPromise, TokenHeld,
          Scheduled, NoFree, false, 0, 0, 0, 0, 0, false)
  }

  // Effects on the memory of the task.

  function Touch(s: State): State {
    if s.alloc then s else s.(fault := true)
  }

  function LoseFuture(s: State): State {
    if s.alloc && s.core == Future then s.(core := Vacant, futureDrops := s.futureDrops + 1)
    else s.(fault := true)
  }

  function LoseOutput(s: State): State {
    if s.alloc && s.core == Output then s.(core := Vacant, outputDrops := s.outputDrops + 1)
    else s.(fault := true)
  }

  function Deallocate(s: State): State {
    if s.alloc then s.(alloc := false, deallocs := s.deallocs + 1) else s.(fault := true)
  }

  function Flag(s: State, bad: bool): State {
    if bad then s.(fault := true) else s
  }

  // Atomic accesses shared by several handles.

  /** One reference less. */
  function LessRef(w: Word): Word {
    if w.refs == 0 then w else w.(refs := w.refs - 1)
  }

  /** The caller starts the teardown of the task. */
  function TearDown(s: State, pc: FreePc): State {
    Flag(s, s.free != NoFree).(free := pc)
  }

  /** `fetch_sub(REF_INC)` of a waker, promise or token being dropped. */
  function ReleaseRef(s: State): State {
    var w := s.w;
    var t := Flag(Touch(s), w.refs == 0).(w := LessRef(w));
    if w.refs == 1 && !RunnableExists(w) then
      TearDown(t, if w.polling then FreeFuture else if !w.closed then FreeOutput else FreeMemory)
    else t
  }

  /** The part of `wake` that counts the wake and creates the runnable of an idle task. */
  function CountWake(s: State): State {
    var w := s.w;
    var t := Touch(s).(w := w.(wake := w.wake + 1), unserviced := s.unserviced || (w.polling && !w.closed));
    if w.polling && !w.closed && w.wake == 0 then Flag(t, t.run != NoRun).(run := Handing) else t
  }

  /** `wake_by_val`: one wake more and one reference less in a single addition. */
  function WakeAndRelease(s: State): State {
    var w := s.w;
    var t := CountWake(s);
    var u := Flag(t, w.refs == 0).(w := LessRef(t.w));
    if w.refs == 1 && !w.polling then TearDown(u, if !w.closed then FreeOutput else FreeMemory) else u
  }

  /** The runnable is gone; it deallocates the task if no reference was left. */
  function RetireAndFree(s: State): State {
    if s.w.refs == 0 then TearDown(s, FreeMemory).(run := NoRun) else s.(run := NoRun)
  }

  /** The three-way update of `cancel_token::cancel`. */
  function Cancel(s: State): State {
    var w := s.w;
    var t := Touch(s);
    if !w.polling then
      var u := Flag(t, w.refs == 0).(w := LessRef(w), token := NoToken);
      if w.refs == 1 then TearDown(u, if !w.closed then FreeOutput else FreeMemory) else u
    else if RunnableExists(w) then
      Flag(t, w.refs == 0).(w := LessRef(w).(closed := true), token := NoToken)
    else
      t.(w := w.(closed := true, polling := false), token := TokenDropping)
  }

  /** The decrement that ends a cancellation which dropped the future itself. */
  function FinishCancel(s: State): State {
    var t := Flag(Touch(s), s.w.refs == 0).(w := LessRef(s.w), token := NoToken);
    if s.w.refs == 1 then TearDown(t, FreeMemory) else t
  }

  /** `fetch_sub(wake_count)` after a pending poll, and the tests that follow it. */
  function Subtract(s: State, wc: nat): State {
    var w := s.w;
    if w.wake < wc then Touch(s).(fault := true)
    else
      var left := w.wake - wc;
      var t := Touch(s).(w := w.(wake := left));
      if left == 0 && !w.closed then
        if w.refs == 0 then TearDown(t, FreeFuture).(run := NoRun) else t.(run := NoRun)
      else t.(run := Loaded(left, w.closed))
  }

  predicate Enabled(s: State, step: Step) {
    match step
    case CloneWaker(x, y) => x in s.wakers && y !in s.wakers
    case CloneContext(y) => s.run.Polling? && y !in s.wakers
    case WakeByVal(x) => x in s.wakers
    case WakeByRef(x) => x in s.wakers
    case WakeContext => s.run.Polling?
    case DropWaker(x) => x in s.wakers
    case PollPromise => s.promise == PromiseHeld
    case TakeOutput => s.promise == PromiseTaking
    case DropPromise => s.promise == PromiseHeld
    case CancelToken => s.token == TokenHeld
    case TokenDropFuture => s.token == TokenDropping
    case TokenRelease => s.token == TokenReleasing
    case DropToken => s.token == TokenHeld
    case HandOver => s.run == Handing
    case BeginRun => s.run == Scheduled
    case DropRunnable => s.run == Scheduled
    case EnterLoop => s.run.Loaded?
    case PollPending => s.run.Polling?
    case PollReady => s.run.Polling?
    case PollPanic => s.run.Polling?
    case SubtractWakes => s.run.Subtracting?
    case StoreOutput => s.run == Completing
    case Publish => s.run == Publishing
    case DiscardOutput => s.run == Refused
    case ClearPolling => s.run == Clearing
    case CancelFuture => s.run == Cancelling
    case Close => s.run == Closing
    case Free => s.free != NoFree
  }

  function Apply(s: State, step: Step): State
    requires Enabled(s, step)
  {
    match step
    case CloneWaker(x, y) => Touch(s).(w := s.w.(refs := s.w.refs + 1), wakers := s.wakers + {y})
    case CloneContext(y) => Touch(s).(w := s.w.(refs := s.w.refs + 1), wakers := s.wakers + {y})
    case WakeByVal(x) => WakeAndRelease(s).(wakers := s.wakers - {x})
    case WakeByRef(x) => CountWake(s)
    case WakeContext => CountWake(s)
    case DropWaker(x) => ReleaseRef(s).(wakers := s.wakers - {x})
    case PollPromise =>
      if !s.w.polling && !s.w.closed
      then Touch(s).(w := s.w.(closed := true), promise := PromiseTaking)
      else Touch(s)
    case TakeOutput =>
      if s.alloc && s.core == Output
      then s.(core := Vacant, outputMoves := s.outputMoves + 1, promise := PromiseHeld)
      else s.(fault := true)
    case DropPromise => ReleaseRef(s).(promise := NoPromise)
    case CancelToken => Cancel(s)
    case TokenDropFuture => LoseFuture(s).(token := TokenReleasing)
    case TokenRelease => FinishCancel(s)
    case DropToken => ReleaseRef(s).(token := NoToken)
    case HandOver => Touch(s).(run := Scheduled)
    case BeginRun => Touch(s).(run := Loaded(s.w.wake, s.w.closed))
    case DropRunnable => s.(run := Cancelling)
    case EnterLoop =>
      if s.run.seen then s.(run := Cancelling)
      else Flag(s, !s.alloc || s.core != Future).(run := Polling(s.run.wc)).(unserviced := false)
    case PollPending => s.(run := Subtracting(s.run.wc))
    case PollReady => s.(run := Completing)
    case PollPanic => s.(run := Cancelling)
    case SubtractWakes => Subtract(s, s.run.wc)
    case StoreOutput => LoseFuture(s).(core := Output, outputsMade := s.outputsMade + 1).(run := Publishing)
    case Publish =>
      if s.w.closed || s.w.refs == 0 then Touch(s).(run := Refused)
      else Touch(s).(run := NoRun, w := s.w.(polling := false))
    case DiscardOutput => LoseOutput(s).(run := Clearing)
    case ClearPolling => RetireAndFree(Touch(s)).(w := s.w.(polling := false))
    case CancelFuture => LoseFuture(s).(run := Closing)
    case Close => RetireAndFree(Touch(s)).(w := s.w.(closed := true, polling := false))
    case Free =>
      match s.free
      case FreeFuture => LoseFuture(s).(free := FreeMemory)
      case FreeOutput => LoseOutput(s).(free := FreeMemory)
      case FreeMemory => Deallocate(s).(free := NoFree)
  }

  /** A run: every step is enabled where it is taken. */
  predicate IsRun(s: State, steps: seq<Step>)
    decreases |steps|
  {
    steps == [] || (Enabled(s, steps[0]) && IsRun(Apply(s, steps[0]), steps[1..]))
  }

  function After(s: State, steps: seq<Step>): State
    requires IsRun(s, steps)
    decreases |steps|
  {
    if steps == [] then s else After(Apply(s, steps[0]), steps[1..])
  }
}
