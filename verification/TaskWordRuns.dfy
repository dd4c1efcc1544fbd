/** Runs of a task on its packed state word: the word follows the four fields of the task machine. */
module TaskWordRuns {
  import opened Options
  import opened Words
  import opened TaskWord
  import TaskMachine
  import TaskSafety

  type Task = TaskMachine.State
  type Step = TaskMachine.Step

  /** The wake count that the runnable subtracts, as it keeps it: still shifted. */
  function Subtrahend(s: Task): nat {
    if s.run.Subtracting? then s.run.wc * WAKE_INC else 0
  }

  /** The access to the word that a step makes, if it may change it. */
  function AccessOf(s: Task, step: Step): Option<Access> {
    match step
    case CloneWaker(_, _) => Some(AddReference)
    case CloneContext(_) => Some(AddReference)
    case WakeByVal(_) => Some(AddWakeLessReference)
    case WakeByRef(_) => Some(AddWake)
    case WakeContext => Some(AddWake)
    case DropWaker(_) => Some(SubtractReference)
    case PollPromise => Some(TakeOutput)
    case DropPromise => Some(SubtractReference)
    case CancelToken => Some(CancelTask)
    case TokenRelease => Some(SubtractReference)
    case DropToken => Some(SubtractReference)
    case SubtractWakes => Some(SubtractWakeCount(Subtrahend(s)))
    case Publish => Some(PublishOutput)
    case ClearPolling => Some(EndPolling)
    case Close => Some(CloseTask)
    case _ => None
  }

  /** The word after a step. */
  function WordAfter(x: nat, s: Task, step: Step): nat
    requires x < U64 && Subtrahend(s) <= U64
  {
    match AccessOf(s, step)
    case None => x
    case Some(access) => Updated(x, access)
  }

  /** The counters are below their maximum. */
  predicate IsBelow(s: Task) {
    s.w.wake < MAX_COUNT && s.w.refs < MAX_COUNT
  }

  predicate IsRelease(step: Step) {
    step.DropWaker? || step.DropPromise? || step.DropToken? || step.TokenRelease?
  }

  predicate IsCount(step: Step) {
    step.CloneWaker? || step.CloneContext? || step.WakeByVal? || step.WakeByRef? || step.WakeContext? || IsRelease(step)
  }

  /** What the steps that count do to the fields. */
  lemma {:induction false} Releases(s: Task, step: Step)
    requires TaskMachine.Enabled(s, step) && !TaskMachine.Apply(s, step).fault && IsRelease(step)
    ensures s.w.refs > 0 && TaskMachine.Apply(s, step).w == s.w.(refs := s.w.refs - 1)
  {
  }

  lemma {:induction false} Counts(s: Task, step: Step)
    requires TaskMachine.Enabled(s, step) && !TaskMachine.Apply(s, step).fault && IsCount(step) && !IsRelease(step)
    ensures step.WakeByVal? ==> s.w.refs > 0
    ensures TaskMachine.Apply(s, step).w ==
            if step.CloneWaker? || step.CloneContext? then s.w.(refs := s.w.refs + 1)
            else if step.WakeByVal? then s.w.(wake := s.w.wake + 1, refs := s.w.refs - 1)
            else s.w.(wake := s.w.wake + 1)
  {
  }

  lemma {:induction false} CountRefines(x: nat, s: Task, step: Step)
    requires TaskMachine.Enabled(s, step) && !TaskMachine.Apply(s, step).fault && IsCount(step)
    requires IsWord(x, s.w) && IsBelow(s) && Subtrahend(s) <= U64
    ensures IsWord(WordAfter(x, s, step), TaskMachine.Apply(s, step).w)
  {
    if IsRelease(step) {
      Releases(s, step);
    } else {
      Counts(s, step);
    }
    UnpackRoundTrip(x);
    CountChanges(x, s.w);
  }

  lemma {:induction false} PublishRefines(x: nat, s: Task, step: Step)
    requires TaskMachine.Enabled(s, step) && (step.PollPromise? || step.Publish?)
    requires IsWord(x, s.w) && Subtrahend(s) <= U64
    ensures IsWord(WordAfter(x, s, step), TaskMachine.Apply(s, step).w)
  {
    if step.PollPromise? {
      OutputTaken(x, s.w);
    } else {
      OutputPublished(x, s.w);
    }
  }

  lemma {:induction false} EndRefines(x: nat, s: Task, step: Step)
    requires TaskMachine.Enabled(s, step) && (step.ClearPolling? || step.Close?)
    requires IsWord(x, s.w) && Subtrahend(s) <= U64
    ensures IsWord(WordAfter(x, s, step), TaskMachine.Apply(s, step).w)
  {
    if step.ClearPolling? {
      PollingEnded(x, s.w);
    } else {
      TaskClosed(x, s.w);
    }
  }

  lemma {:induction false} CancelRefines(x: nat, s: Task)
    requires TaskMachine.Enabled(s, TaskMachine.CancelToken) && !TaskMachine.Apply(s, TaskMachine.CancelToken).fault
    requires IsWord(x, s.w) && s.w.refs > 0
    ensures IsWord(Updated(x, CancelTask), TaskMachine.Apply(s, TaskMachine.CancelToken).w)
  {
    Changes(x, s.w);
    Decisions(x, s.w);
    Changes(SetClosed(x), s.w.(closed := true));
    TaskClosed(x, s.w);
  }

  lemma {:induction false} SubtractRefines(x: nat, s: Task)
    requires TaskMachine.Enabled(s, TaskMachine.SubtractWakes) && !TaskMachine.Apply(s, TaskMachine.SubtractWakes).fault
    requires IsWord(x, s.w)
    ensures Subtrahend(s) <= U64
    ensures IsWord(Updated(x, SubtractWakeCount(Subtrahend(s))), TaskMachine.Apply(s, TaskMachine.SubtractWakes).w)
  {
    UnpackRoundTrip(x);
    SubWakes(s.w, s.run.wc);
    PackRoundTrip(s.w.(wake := s.w.wake - s.run.wc));
  }

  lemma {:induction false} SubtrahendFits(s: Task)
    requires TaskSafety.Inv(s) && IsBelow(s)
    ensures Subtrahend(s) <= U64
  {
    if s.run.Subtracting? {
      assert s.run.wc <= s.w.wake;
    }
  }

  /** Every step does to the word what the machine does to its fields. */
  lemma {:induction false} StepRefines(x: nat, s: Task, step: Step)
    requires TaskSafety.Inv(s) && TaskMachine.Enabled(s, step) && IsWord(x, s.w) && IsBelow(s)
    ensures Subtrahend(s) <= U64 && IsWord(WordAfter(x, s, step), TaskMachine.Apply(s, step).w)
  {
    SubtrahendFits(s);
    TaskSafety.StepKeepsInv(s, step);
    if IsCount(step) {
      CountRefines(x, s, step);
    } else if step.PollPromise? || step.Publish? {
      PublishRefines(x, s, step);
    } else if step.ClearPolling? || step.Close? {
      EndRefines(x, s, step);
    } else if step.CancelToken? {
      CancelRefines(x, s);
    } else if step.SubtractWakes? {
      SubtractRefines(x, s);
    } else {
      OthersKeepWord(s, step);
    }
  }

  lemma {:induction false} OthersKeepWord(s: Task, step: Step)
    requires TaskMachine.Enabled(s, step) && !IsCount(step)
    requires !step.PollPromise? && !step.Publish? && !step.ClearPolling?
    requires !step.Close? && !step.CancelToken? && !step.SubtractWakes?
    ensures TaskMachine.Apply(s, step).w == s.w
  {
  }

  /** The word follows a run: `words` are its values, each computed from the one before. */
  ghost predicate IsWordRun(words: seq<nat>, s: Task, steps: seq<Step>)
    requires TaskMachine.IsRun(s, steps)
    decreases |steps|
  {
    && |words| == |steps| + 1 && words[0] < U64
    && (steps != [] ==>
          && Subtrahend(s) <= U64 && words[1] == WordAfter(words[0], s, steps[0])
          && IsWordRun(words[1..], TaskMachine.Apply(s, steps[0]), steps[1..]))
  }

  /** The counters stay below their maximum. */
  predicate StaysBelow(s: Task, steps: seq<Step>)
    requires TaskMachine.IsRun(s, steps)
    decreases |steps|
  {
    IsBelow(s) && (steps != [] ==> StaysBelow(TaskMachine.Apply(s, steps[0]), steps[1..]))
  }

  /**
    Over every run of the handles of a task in which the counters stay below their maximum, the word
    computed by the masks and wrapping additions of the source packs the fields of the machine.
  */
  lemma {:induction false} RunRefines(words: seq<nat>, s: Task, steps: seq<Step>)
    requires TaskSafety.Inv(s) && TaskMachine.IsRun(s, steps) && StaysBelow(s, steps)
    requires IsWordRun(words, s, steps) && IsWord(words[0], s.w)
    ensures IsWord(words[|steps|], TaskMachine.After(s, steps).w)
    decreases |steps|
  {
    if steps != [] {
      StepRefines(words[0], s, steps[0]);
      TaskSafety.StepKeepsInv(s, steps[0]);
      RunRefines(words[1..], TaskMachine.Apply(s, steps[0]), steps[1..]);
    }
  }

  /** Such a sequence of words exists for every run. */
  lemma {:induction false} WordRunExists(x: nat, s: Task, steps: seq<Step>) returns (words: seq<nat>)
    requires TaskSafety.Inv(s) && TaskMachine.IsRun(s, steps) && StaysBelow(s, steps) && IsWord(x, s.w)
    ensures IsWordRun(words, s, steps) && words[0] == x
    decreases |steps|
  {
    if steps == [] {
      words := [x];
    } else {
      StepRefines(x, s, steps[0]);
      TaskSafety.StepKeepsInv(s, steps[0]);
      var rest := WordRunExists(WordAfter(x, s, steps[0]), TaskMachine.Apply(s, steps[0]), steps[1..]);
      words := [x] + rest;
      assert words[1..] == rest;
    }
  }
}
