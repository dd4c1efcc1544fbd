/**
  A broadcast future and its task set together: the polls of the parent, one access to shared state
  at a time, while any number of threads wake the tasks of the sender futures.

  The waker of the parent is registered with a wake sink. A notification wakes the parent if a waker
  is registered, and unregisters it.
*/
module BroadcastMachine {
  import opened Options
  import opened Broadcast
  import TaskSet

  /** What the parent does next. */
  datatype Pc =
    | Unpolled
    | Loading                                                   // reads the head before discarding
    | Discarding                                                // takes the scheduled tasks to discard them
    | Dropping(g: nat, removed: Option<nat>, failing: bool)     // drops iterator `g`; the removed task sleeps
    | First(i: nat)                                             // polls future `i` for the first time
    | Checking                                                  // reads whether tasks are scheduled
    | Registering
    | Taking                                                    // takes the scheduled tasks
    | Iterating(g: nat)
    | Polling(g: nat, t: nat)                                   // polls the yielded future `t`
    | Parked                                                    // returned `Pending`
    | Finished(ok: bool)                                        // returned `Ready`

  datatype State<R> = State(
    tasks: TaskSet.State,
    join: Join<R>,
    pc: Pc,
    registered: bool,
    // auxiliary
    woken: bool,               // the parent was woken since it was last polled
    owed: set<nat>,            // the tasks woken since their future was last polled
    called: Join<R>,           // the join when the parent was last polled
    initial: bool,             // whether that was the first poll
    batches: seq<seq<nat>>,    // what each exhausted iterator yielded since then
    current: seq<nat>)         // what the current iterator yielded

  datatype Step =
    | Wake(step: TaskSet.Step)  // of any other thread
    | Call                      // the parent is polled
    | LoadHead
    | Discard
    | DropNext
    | DropSleep
    | EndDrop
    | PollFirst
    | EndFirst
    | Check
    | Register
    | Take
    | Yield
    | PollYielded
    | EndBatch

  /** A new future on a task set that earlier broadcasts may have used. */
  function New<R>(s: TaskSet.State, registered: bool): State<R> {
    var j := Join(seq(s.count, i => None), seq(s.count, i => 0), false);
    State(s, j, Unpolled, registered, false, {}, j, true, [], [])
  }

  /** The iterator `g` has no task left. */
  predicate Exhausted<R>(s: State<R>, g: nat) {
    g < |s.tasks.iters| && s.tasks.iters[g] == TaskSet.EMPTY
  }

  predicate Enabled<R>(s: State<R>, step: Step) {
    && |s.join.outputs| == |s.join.polls| == s.tasks.count
    && match step
       case Wake(w) => TaskSet.IsWake(w) && TaskSet.Enabled(s.tasks, w)
       case Call => s.pc.Unpolled? || s.pc.Parked?
       case LoadHead => s.pc.Loading?
       case Discard => s.pc.Discarding? && TaskSet.Enabled(s.tasks, TaskSet.Take(0))
       case DropNext => s.pc.Dropping? && s.pc.removed.None? && TaskSet.Enabled(s.tasks, TaskSet.DropNext(s.pc.g))
       case DropSleep =>
         s.pc.Dropping? && s.pc.removed.Some? && TaskSet.Enabled(s.tasks, TaskSet.DropSleep(s.pc.removed.value))
       case EndDrop => s.pc.Dropping? && s.pc.removed.None? && Exhausted(s, s.pc.g)
       case PollFirst => s.pc.First? && s.pc.i < s.tasks.count
       case EndFirst => s.pc.First? && s.pc.i == s.tasks.count
       case Check => s.pc.Checking?
       case Register => s.pc.Registering?
       case Take => s.pc.Taking? && TaskSet.Enabled(s.tasks, TaskSet.Take(1))
       case Yield => s.pc.Iterating? && TaskSet.Enabled(s.tasks, TaskSet.Next(s.pc.g))
       case PollYielded => s.pc.Polling? && s.pc.t < s.tasks.count
       case EndBatch => s.pc.Iterating? && Exhausted(s, s.pc.g)
  }

  /** The task that a thread wakes, if the step is the one that finds it scheduled or schedules it. */
  function Woken(w: TaskSet.Step): set<nat> {
    if w.Begin? || w.Confirm? then {w.t} else {}
  }

  function ApplyWake<R>(s: State<R>, w: TaskSet.Step): State<R>
    requires Enabled(s, Wake(w))
  {
    var t := s.(tasks := TaskSet.Apply(s.tasks, w), owed := s.owed + Woken(w));
    if w.Notify? then t.(woken := s.woken || s.registered, registered := false) else t
  }

  function ApplyCall<R>(s: State<R>): State<R>
    requires Enabled(s, Call)
  {
    s.(pc := if s.pc.Unpolled? then Loading else Checking,
       woken := false, called := s.join, initial := s.pc.Unpolled?, batches := [], current := [])
  }

  /** The end of a pass over the futures: the join is complete, or another pass follows. */
  function EndOfPass<R>(join: Join<R>): Pc {
    if Missing(join.outputs) == 0 then Finished(true) else Checking
  }

  /** Polls future `t`; the parent goes on with `next`, or with `failure` if it returns an error. */
  function ApplyPoll<R>(s: State<R>, t: nat, next: Pc, failure: Pc, replies: (nat, nat) -> ChildPoll<R>): State<R>
    requires t < |s.join.outputs| == |s.join.polls|
  {
    var j := PollOne(s.join, t, replies);
    s.(join := j, owed := s.owed - {t}, pc := if j.failed then failure else next)
  }

  /** Takes the scheduled tasks; the parent goes on with `none` if there are none. */
  function ApplyTake<R>(s: State<R>, n: nat, some: Pc, none: Pc): State<R>
    requires TaskSet.Enabled(s.tasks, TaskSet.Take(n))
  {
    s.(tasks := TaskSet.ApplyOwner(s.tasks, TaskSet.Take(n)),
       pc := if s.tasks.head.index != TaskSet.EMPTY then some else none)
  }

  /** The next task of an iterator: inactive ones are skipped, and futures that replied are not polled. */
  function ApplyYield<R>(s: State<R>): State<R>
    requires Enabled(s, Yield)
  {
    var t := s.tasks.iters[s.pc.g];
    var u := s.(tasks := TaskSet.ApplyOwner(s.tasks, TaskSet.Next(s.pc.g)));
    if t >= s.tasks.count then u
    else if s.join.outputs[t].Some? then u.(current := s.current + [t])
    else u.(pc := Polling(s.pc.g, t))
  }

  function Apply<R>(s: State<R>, step: Step, replies: (nat, nat) -> ChildPoll<R>): State<R>
    requires Enabled(s, step)
  {
    match step
    case Wake(w) => ApplyWake(s, w)
    case Call => ApplyCall(s)
    case LoadHead => s.(pc := if s.tasks.head == TaskSet.Head(TaskSet.EMPTY, 0) then First(0) else Discarding)
    case Discard => ApplyTake(s, 0, Dropping(|s.tasks.iters|, None, false), First(0))
    case DropNext =>
      s.(tasks := TaskSet.ApplyOwner(s.tasks, TaskSet.DropNext(s.pc.g)),
         pc := Dropping(s.pc.g, Some(s.tasks.iters[s.pc.g]), s.pc.failing))
    case DropSleep =>
      s.(tasks := TaskSet.ApplyOwner(s.tasks, TaskSet.DropSleep(s.pc.removed.value)),
         pc := Dropping(s.pc.g, None, s.pc.failing))
    case EndDrop => s.(pc := if s.pc.failing then Finished(false) else First(0))
    case PollFirst => ApplyPoll(s, s.pc.i, First(s.pc.i + 1), Finished(false), replies)
    case EndFirst => s.(pc := EndOfPass(s.join))
    case Check => s.(pc := if s.tasks.head.index == TaskSet.EMPTY then Registering else Taking)
    case Register => s.(pc := Taking, registered := true)
    case Take => ApplyTake(s, 1, Iterating(|s.tasks.iters|), Parked)
    case Yield => ApplyYield(s)
    case PollYielded =>
      ApplyPoll(s, s.pc.t, Iterating(s.pc.g), Dropping(s.pc.g, None, true), replies).(current := s.current + [s.pc.t])
    case EndBatch => s.(pc := EndOfPass(s.join), batches := s.batches + [s.current], current := [])
  }

  predicate IsRun<R>(s: State<R>, steps: seq<Step>, replies: (nat, nat) -> ChildPoll<R>)
    decreases |steps|
  {
    steps == [] || (Enabled(s, steps[0]) && IsRun(Apply(s, steps[0], replies), steps[1..], replies))
  }

  function After<R>(s: State<R>, steps: seq<Step>, replies: (nat, nat) -> ChildPoll<R>): State<R>
    requires IsRun(s, steps, replies)
    decreases |steps|
  {
    if steps == [] then s else After(Apply(s, steps[0], replies), steps[1..], replies)
  }
}
