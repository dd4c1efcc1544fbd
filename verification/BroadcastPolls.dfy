/**
  Each poll of the machine is a call of `BroadcastFuture.Poll` with what the task set yielded: the
  join of the futures advances as the polls say, whatever the threads do meanwhile.
*/
module BroadcastPolls {
  import opened Options
  import opened Broadcast
  import opened BroadcastMachine
  import TaskSet
  import BroadcastRuns

  predicate AllInRange(batches: seq<seq<nat>>, n: nat) {
    forall i :: 0 <= i < |batches| ==> InRange(batches[i], n)
  }

  lemma {:induction false} BatchesAppend<R>(j: Join<R>, batches: seq<seq<nat>>, batch: seq<nat>,
                                            replies: (nat, nat) -> ChildPoll<R>)
    requires |j.outputs| == |j.polls| && AllInRange(batches, |j.outputs|) && InRange(batch, |j.outputs|)
    ensures AllInRange(batches + [batch], |j.outputs|)
    ensures var m := PollBatches(j, batches, replies);
      PollBatches(j, batches + [batch], replies) == if Done(m) then m else PollEach(m, batch, replies)
    decreases |batches|
  {
    var more := batches + [batch];
    if |batches| == 0 {
      assert more[1..] == [];
    } else if !Done(j) {
      BatchesAppend(PollEach(j, batches[0], replies), batches[1..], batch, replies);
      assert more[1..] == batches[1..] + [batch];
    }
  }

  /** The part of a state that a poll works on, for `n` futures. */
  datatype Log<R> = Log(n: nat, join: Join<R>, called: Join<R>, initial: bool, batches: seq<seq<nat>>,
                        current: seq<nat>)

  function LogOf<R>(s: State<R>): Log<R> {
    Log(s.tasks.count, s.join, s.called, s.initial, s.batches, s.current)
  }

  predicate IsShaped<R>(l: Log<R>) {
    && |l.join.outputs| == |l.join.polls| == |l.called.outputs| == |l.called.polls| == l.n
    && AllInRange(l.batches, l.n) && InRange(l.current, l.n)
  }

  /** The join when the last poll of the parent reached its loop. */
  function Begun<R>(l: Log<R>, replies: (nat, nat) -> ChildPoll<R>): Join<R>
    requires IsShaped(l)
  {
    Started(l.called, if l.initial then Uninit else InProgress, replies)
  }

  /** The join after the batches that were polled entirely. */
  function Before<R>(l: Log<R>, replies: (nat, nat) -> ChildPoll<R>): Join<R>
    requires IsShaped(l)
  {
    PollBatches(Begun(l, replies), l.batches, replies)
  }

  /** All that the task set yielded since the parent was last polled. */
  function Yielded<R>(l: Log<R>): (r: seq<seq<nat>>)
    requires IsShaped(l)
    ensures AllInRange(r, l.n)
  {
    if l.current == [] then l.batches else l.batches + [l.current]
  }

  /** Where a poll is, as far as the join is concerned. */
  datatype Phase = Beginning(i: nat) | Between | Within | Over(ok: bool)

  function PhaseOf(pc: Pc): Phase {
    match pc
    case First(i) => Beginning(i)
    case Checking => Between
    case Registering => Between
    case Taking => Between
    case Parked => Between
    case Iterating(_) => Within
    case Polling(_, _) => Within
    case Finished(ok) => Over(ok)
    case Dropping(_, _, failing) => if failing then Over(false) else Beginning(0)
    case _ => Beginning(0)
  }

  /** The join at each point of a poll. */
  ghost predicate Fits<R>(phase: Phase, l: Log<R>, replies: (nat, nat) -> ChildPoll<R>) {
    && IsShaped(l) && JoinOk(l.called, l.n, replies) && !l.called.failed
    && match phase
       case Beginning(i) => IsBeginning(l, i, replies)
       case Between => IsBetween(l, replies)
       case Within => IsWithin(l, replies)
       case Over(ok) => IsOver(l, replies) && (ok <==> !l.join.failed)
  }

  /** The first `i` futures were polled by the first call. */
  ghost predicate IsBeginning<R>(l: Log<R>, i: nat, replies: (nat, nat) -> ChildPoll<R>)
    requires IsShaped(l)
  {
    && i <= l.n && l.join == PollEach(l.called, Indices(l.n)[..i], replies) && !l.join.failed
    && l.initial && l.batches == [] && l.current == []
  }

  /** Between two batches. */
  ghost predicate IsBetween<R>(l: Log<R>, replies: (nat, nat) -> ChildPoll<R>)
    requires IsShaped(l)
  {
    l.current == [] && l.join == Before(l, replies) && !Done(l.join)
  }

  /** Within a batch. */
  ghost predicate IsWithin<R>(l: Log<R>, replies: (nat, nat) -> ChildPoll<R>)
    requires IsShaped(l)
  {
    !Done(Before(l, replies)) && l.join == PollEach(Before(l, replies), l.current, replies) && !l.join.failed
  }

  ghost predicate IsOver<R>(l: Log<R>, replies: (nat, nat) -> ChildPoll<R>)
    requires IsShaped(l)
  {
    Done(l.join) && l.join == PollBatches(Begun(l, replies), Yielded(l), replies)
  }

  ghost predicate Follows<R>(s: State<R>, replies: (nat, nat) -> ChildPoll<R>) {
    Fits(PhaseOf(s.pc), LogOf(s), replies)
  }

  lemma {:induction false} Becomes<R>(s: State<R>, phase: Phase, l: Log<R>, replies: (nat, nat) -> ChildPoll<R>)
    requires PhaseOf(s.pc) == phase && LogOf(s) == l && Fits(phase, l, replies)
    ensures Follows(s, replies)
  {
  }

  // ----- Steps -----

  lemma {:induction false} FirstCallFits<R>(l: Log<R>, replies: (nat, nat) -> ChildPoll<R>)
    requires Fits(Beginning(0), l, replies)
    ensures Fits(Beginning(0), Log(l.n, l.join, l.join, true, [], []), replies)
  {
    assert Indices(l.n)[..0] == [];
  }

  lemma {:induction false} CallFits<R>(l: Log<R>, replies: (nat, nat) -> ChildPoll<R>)
    requires Fits(Between, l, replies)
    ensures Fits(Between, Log(l.n, l.join, l.join, false, [], []), replies)
  {
    BegunIsOk(l, replies);
    PollBatchesKeepsJoin(Begun(l, replies), l.n, l.batches, replies);
  }

  lemma {:induction false} BegunIsOk<R>(l: Log<R>, replies: (nat, nat) -> ChildPoll<R>)
    requires IsShaped(l) && JoinOk(l.called, l.n, replies)
    ensures JoinOk(Begun(l, replies), l.n, replies)
  {
    PollEachKeepsJoin(l.called, l.n, Indices(l.n), replies);
  }

  lemma {:induction false} PollFirstFits<R>(i: nat, l: Log<R>, replies: (nat, nat) -> ChildPoll<R>)
    requires Fits(Beginning(i), l, replies) && i < l.n
    ensures var j := PollOne(l.join, i, replies);
      Fits(if j.failed then Over(false) else Beginning(i + 1), l.(join := j), replies)
  {
    var all := Indices(l.n);
    assert all[..i + 1][..i] == all[..i];
    assert PollEach(l.called, all[..i + 1], replies) == PollOne(l.join, i, replies);
    FailedStays(l.called, all, i + 1, replies);
  }

  lemma {:induction false} EndFirstFits<R>(l: Log<R>, replies: (nat, nat) -> ChildPoll<R>)
    requires Fits(Beginning(l.n), l, replies)
    ensures Fits(PhaseOf(EndOfPass(l.join)), l, replies)
  {
    assert Indices(l.n)[..l.n] == Indices(l.n);
  }

  /** A yielded task joins the batch, whether or not its future is polled. */
  lemma {:induction false} BatchGrows<R>(j: Join<R>, ts: seq<nat>, t: nat, replies: (nat, nat) -> ChildPoll<R>)
    requires |j.outputs| == |j.polls| && InRange(ts, |j.outputs|) && t < |j.outputs|
    ensures InRange(ts + [t], |j.outputs|)
    ensures PollEach(j, ts + [t], replies) == PollOne(PollEach(j, ts, replies), t, replies)
  {
    assert (ts + [t])[..|ts|] == ts;
  }

  lemma {:induction false} SkipFits<R>(t: nat, l: Log<R>, replies: (nat, nat) -> ChildPoll<R>)
    requires Fits(Within, l, replies) && t < l.n && l.join.outputs[t].Some?
    ensures Fits(Within, l.(current := l.current + [t]), replies)
  {
    BatchGrows(Before(l, replies), l.current, t, replies);
  }

  lemma {:induction false} PollFits<R>(t: nat, l: Log<R>, replies: (nat, nat) -> ChildPoll<R>)
    requires Fits(Within, l, replies) && t < l.n
    ensures var j := PollOne(l.join, t, replies);
      Fits(if j.failed then Over(false) else Within, l.(join := j, current := l.current + [t]), replies)
  {
    BatchGrows(Before(l, replies), l.current, t, replies);
    BatchesAppend(Begun(l, replies), l.batches, l.current + [t], replies);
  }

  lemma {:induction false} EndBatchFits<R>(l: Log<R>, replies: (nat, nat) -> ChildPoll<R>)
    requires Fits(Within, l, replies)
    ensures Fits(PhaseOf(EndOfPass(l.join)), l.(batches := l.batches + [l.current], current := []), replies)
  {
    BatchesAppend(Begun(l, replies), l.batches, l.current, replies);
  }

  /** Steps that leave the log as it is. */
  predicate IsSilent(step: Step) {
    !step.Call? && !step.PollFirst? && !step.EndFirst? && !step.Yield? && !step.PollYielded? && !step.EndBatch?
  }

  lemma {:induction false} WakeKeepsLog<R>(s: State<R>, w: TaskSet.Step)
    requires Enabled(s, Wake(w))
    ensures LogOf(ApplyWake(s, w)) == LogOf(s) && ApplyWake(s, w).pc == s.pc
  {
  }

  lemma {:induction false} SilentKeepsLog<R>(s: State<R>, step: Step, replies: (nat, nat) -> ChildPoll<R>)
    requires Enabled(s, step) && IsSilent(step) && !step.Wake?
    ensures LogOf(Apply(s, step, replies)) == LogOf(s)
    ensures var a, b := PhaseOf(s.pc), PhaseOf(Apply(s, step, replies).pc); a == b || (a.Between? && b.Within?)
  {
  }

  lemma {:induction false} BatchBegins<R>(l: Log<R>, replies: (nat, nat) -> ChildPoll<R>)
    requires Fits(Between, l, replies)
    ensures Fits(Within, l, replies)
  {
  }

  lemma {:induction false} SilentFollows<R>(s: State<R>, step: Step, replies: (nat, nat) -> ChildPoll<R>)
    requires Follows(s, replies) && Enabled(s, step) && IsSilent(step)
    ensures Follows(Apply(s, step, replies), replies)
  {
    if step.Wake? {
      WakeKeepsLog(s, step.step);
    } else {
      SilentKeepsLog(s, step, replies);
      if PhaseOf(s.pc).Between? {
        BatchBegins(LogOf(s), replies);
      }
    }
  }

  lemma {:induction false} YieldLog<R>(s: State<R>, t: nat)
    requires Enabled(s, Yield) && t == s.tasks.iters[s.pc.g]
    ensures PhaseOf(ApplyYield(s).pc).Within?
    ensures LogOf(ApplyYield(s)) ==
            if t < s.tasks.count && s.join.outputs[t].Some? then LogOf(s).(current := s.current + [t]) else LogOf(s)
  {
  }

  lemma {:induction false} YieldFollows<R>(s: State<R>, replies: (nat, nat) -> ChildPoll<R>)
    requires Follows(s, replies) && Enabled(s, Yield)
    ensures Follows(ApplyYield(s), replies)
  {
    var t := s.tasks.iters[s.pc.g];
    if t < s.tasks.count && s.join.outputs[t].Some? {
      SkipFits(t, LogOf(s), replies);
    }
    YieldLog(s, t);
    Becomes(ApplyYield(s), Within, LogOf(ApplyYield(s)), replies);
  }

  lemma {:induction false} CallFollows<R>(s: State<R>, replies: (nat, nat) -> ChildPoll<R>)
    requires Follows(s, replies) && Enabled(s, Call)
    ensures Follows(ApplyCall(s), replies)
  {
    if s.pc.Unpolled? {
      FirstCallFits(LogOf(s), replies);
    } else {
      CallFits(LogOf(s), replies);
    }
  }

  lemma {:induction false} PollFirstFollows<R>(s: State<R>, replies: (nat, nat) -> ChildPoll<R>)
    requires Follows(s, replies) && Enabled(s, PollFirst)
    ensures Follows(Apply(s, PollFirst, replies), replies)
  {
    var j := PollOne(s.join, s.pc.i, replies);
    PollFirstFits(s.pc.i, LogOf(s), replies);
    Becomes(Apply(s, PollFirst, replies), if j.failed then Over(false) else Beginning(s.pc.i + 1),
            LogOf(s).(join := j), replies);
  }

  lemma {:induction false} PollYieldedLog<R>(s: State<R>, replies: (nat, nat) -> ChildPoll<R>)
    requires Enabled(s, PollYielded) && |s.join.outputs| == |s.join.polls| == s.tasks.count
    ensures var j, u := PollOne(s.join, s.pc.t, replies), Apply(s, PollYielded, replies);
      && PhaseOf(u.pc) == (if j.failed then Over(false) else Within)
      && LogOf(u) == LogOf(s).(join := j, current := s.current + [s.pc.t])
  {
  }

  lemma {:induction false} PollYieldedFollows<R>(s: State<R>, replies: (nat, nat) -> ChildPoll<R>)
    requires Follows(s, replies) && Enabled(s, PollYielded)
    ensures Follows(Apply(s, PollYielded, replies), replies)
  {
    var j := PollOne(s.join, s.pc.t, replies);
    PollFits(s.pc.t, LogOf(s), replies);
    PollYieldedLog(s, replies);
    Becomes(Apply(s, PollYielded, replies), if j.failed then Over(false) else Within,
            LogOf(s).(join := j, current := s.current + [s.pc.t]), replies);
  }

  lemma {:induction false} EndFollows<R>(s: State<R>, step: Step, replies: (nat, nat) -> ChildPoll<R>)
    requires Follows(s, replies) && Enabled(s, step) && (step.EndFirst? || step.EndBatch?)
    ensures Follows(Apply(s, step, replies), replies)
  {
    if step.EndFirst? {
      EndFirstFits(LogOf(s), replies);
    } else {
      EndBatchFits(LogOf(s), replies);
    }
  }

  lemma {:induction false} StepFollows<R>(s: State<R>, step: Step, replies: (nat, nat) -> ChildPoll<R>)
    requires Follows(s, replies) && Enabled(s, step)
    ensures Follows(Apply(s, step, replies), replies)
  {
    if IsSilent(step) {
      SilentFollows(s, step, replies);
    } else if step.Call? {
      CallFollows(s, replies);
    } else if step.PollFirst? {
      PollFirstFollows(s, replies);
    } else if step.PollYielded? {
      PollYieldedFollows(s, replies);
    } else if step.Yield? {
      YieldFollows(s, replies);
    } else {
      EndFollows(s, step, replies);
    }
  }

  lemma {:induction false} RunFollows<R>(s: State<R>, steps: seq<Step>, replies: (nat, nat) -> ChildPoll<R>)
    requires Follows(s, replies) && IsRun(s, steps, replies)
    ensures Follows(After(s, steps, replies), replies)
    decreases |steps|
  {
    if steps != [] {
      StepFollows(s, steps[0], replies);
      RunFollows(Apply(s, steps[0], replies), steps[1..], replies);
    }
  }

  /**
    Whenever the parent returned, its state is that of `BroadcastFuture.Poll` called on the state before
    with what the task set yielded meanwhile, and the result is the same.
  */
  lemma {:induction false} PollOfMachine<R(!new)>(s: State<R>, replies: (nat, nat) -> ChildPoll<R>)
    requires BroadcastRuns.Reachable(s, replies) && (s.pc.Parked? || s.pc.Finished?)
    ensures IsShaped(LogOf(s)) && s.join == PollBatches(Begun(LogOf(s), replies), Yielded(LogOf(s)), replies)
    ensures JoinOk(s.join, s.tasks.count, replies)
    ensures s.pc == if s.join.failed then Finished(false)
      else if Missing(s.join.outputs) == 0 then Finished(true)
      else Parked
  {
    var tasks: TaskSet.State, registered: bool, steps: seq<Step> :|
      BroadcastRuns.IsHistory(tasks, registered, steps, s, replies);
    NewFollows(tasks, registered, replies);
    RunFollows(New(tasks, registered), steps, replies);
    Returned(s.pc, LogOf(s), replies);
  }

  lemma {:induction false} Returned<R>(pc: Pc, l: Log<R>, replies: (nat, nat) -> ChildPoll<R>)
    requires Fits(PhaseOf(pc), l, replies) && (pc.Parked? || pc.Finished?)
    ensures l.join == PollBatches(Begun(l, replies), Yielded(l), replies) && JoinOk(l.join, l.n, replies)
    ensures pc == if l.join.failed then Finished(false)
      else if Missing(l.join.outputs) == 0 then Finished(true)
      else Parked
  {
    BegunIsOk(l, replies);
    PollBatchesKeepsJoin(Begun(l, replies), l.n, Yielded(l), replies);
  }

  lemma {:induction false} NewFollows<R>(tasks: TaskSet.State, registered: bool, replies: (nat, nat) -> ChildPoll<R>)
    ensures Follows(New(tasks, registered), replies)
  {
    assert Indices(tasks.count)[..0] == [];
  }
}
