/** What the calls of the queue do: taken alone from any state of a run, and after the queue was closed. */
module MpscCalls {
  import opened MpscQueue
  import opened MpscRuns

  predicate IsAtRest(pc: Producer) {
    pc.Idle? || pc.PushedOk? || pc.PushedFull? || pc.PushedClosed?
  }

  lemma {:induction false} Then(s: State, step: Step, rest: seq<Step>)
    requires Enabled(s, step) && IsRun(Apply(s, step), rest)
    ensures IsRun(s, [step] + rest) && After(s, [step] + rest) == After(Apply(s, step), rest)
  {
    assert ([step] + rest)[1..] == rest;
  }

  lemma {:induction false} OneStep(s: State, step: Step)
    requires Enabled(s, step)
    ensures IsRun(s, [step]) && After(s, [step]) == Apply(s, step)
  {
    assert IsRun(Apply(s, step), []);
    Then(s, step, []);
    assert [step] + [] == [step];
  }

  // ----- Calls taken alone -----

  /** The steps of the calls leave what is not theirs. */
  predicate OnlyProducer(s: State, t: State, p: nat) {
    && |t.producers| == |s.producers|
    && (forall q :: 0 <= q < |s.producers| && q != p ==> t.producers[q] == s.producers[q])
    && t.deq == s.deq && t.closed == s.closed && t.consumer == s.consumer && t.popped == s.popped && !t.fault
    && |t.slots| == |s.slots| && forall i :: 0 <= i < |s.slots| && i != s.enq.idx ==> t.slots[i] == s.slots[i]
  }

  lemma {:induction false} RefusedPush(s: State, p: nat, m: Msg) returns (steps: seq<Step>)
    requires Inv(s) && p < |s.producers| && IsAtRest(s.producers[p]) && s.closed
    ensures IsRun(s, steps) && After(s, steps) == s.(producers := s.producers[p := PushedClosed])
  {
    var t := Apply(s, Call(p, m));
    OneStep(t, LoadPos(p));
    Then(s, Call(p, m), [LoadPos(p)]);
    steps := [Call(p, m)] + [LoadPos(p)];
    assert s.producers[p := Calling(m)][p := PushedClosed] == s.producers[p := PushedClosed];
  }

  lemma {:induction false} FullPush(s: State, p: nat, m: Msg) returns (steps: seq<Step>)
    requires Inv(s) && p < |s.producers| && IsAtRest(s.producers[p]) && !s.closed && !s.slots[s.enq.idx].phase.Open?
    ensures IsRun(s, steps) && After(s, steps) == s.(producers := s.producers[p := PushedFull])
  {
    assert SlotOk(s, s.enq.idx);
    var t := Apply(s, Call(p, m));
    var u := Apply(t, LoadPos(p));
    assert u.producers[p] == Loaded(s.enq, m);
    OneStep(u, LoadStamp(p));
    Then(t, LoadPos(p), [LoadStamp(p)]);
    Then(s, Call(p, m), [LoadPos(p)] + [LoadStamp(p)]);
    steps := [Call(p, m)] + ([LoadPos(p)] + [LoadStamp(p)]);
    assert s.producers[p := Calling(m)][p := Loaded(s.enq, m)][p := PushedFull] == s.producers[p := PushedFull];
  }

  /** Up to the reservation of the slot. */
  lemma {:induction false} Reserves(s: State, p: nat, m: Msg) returns (steps: seq<Step>)
    requires Inv(s) && p < |s.producers| && IsAtRest(s.producers[p]) && !s.closed && s.slots[s.enq.idx].phase.Open?
    ensures IsRun(s, steps)
    ensures var i := s.enq.idx; After(s, steps) == s.(
      producers := s.producers[p := Writing(s.enq, m)], enq := Next(s.enq, |s.slots|), log := s.log + [m],
      slots := s.slots[i := s.slots[i].(phase := Reserved(s.enq.lap, p), ticket := |s.log|)])
  {
    assert SlotOk(s, s.enq.idx);
    var t := Apply(s, Call(p, m));
    var u := Apply(t, LoadPos(p));
    assert u.producers[p] == Loaded(s.enq, m);
    var v := Apply(u, LoadStamp(p));
    assert v.producers[p] == Matched(s.enq, m);
    OneStep(v, Cas(p, false));
    Then(u, LoadStamp(p), [Cas(p, false)]);
    Then(t, LoadPos(p), [LoadStamp(p)] + [Cas(p, false)]);
    Then(s, Call(p, m), [LoadPos(p)] + ([LoadStamp(p)] + [Cas(p, false)]));
    steps := [Call(p, m)] + ([LoadPos(p)] + ([LoadStamp(p)] + [Cas(p, false)]));
    assert s.producers[p := Calling(m)][p := Loaded(s.enq, m)][p := Matched(s.enq, m)][p := Writing(s.enq, m)]
        == s.producers[p := Writing(s.enq, m)];
  }

  lemma {:induction false} Concat(s: State, a: seq<Step>, b: seq<Step>)
    requires IsRun(s, a) && IsRun(After(s, a), b)
    ensures IsRun(s, a + b) && After(s, a + b) == After(After(s, a), b)
    decreases |a|
  {
    if a == [] {
      assert a + b == b;
    } else {
      Concat(Apply(s, a[0]), a[1..], b);
      assert (a + b)[1..] == a[1..] + b;
    }
  }

  lemma {:induction false} AcceptedPush(s: State, p: nat, m: Msg) returns (steps: seq<Step>)
    requires Inv(s) && p < |s.producers| && IsAtRest(s.producers[p]) && !s.closed && s.slots[s.enq.idx].phase.Open?
    ensures IsRun(s, steps)
    ensures var i := s.enq.idx; After(s, steps) == s.(
      producers := s.producers[p := PushedOk], enq := Next(s.enq, |s.slots|), log := s.log + [m],
      slots := s.slots[i := Slot(Stamp(s.enq.lap, true), Populated(m), Ready(s.enq.lap), |s.log|)])
  {
    var first := Reserves(s, p, m);
    var t := After(s, first);
    assert SlotOk(s, s.enq.idx);
    var u := Apply(t, Write(p));
    OneStep(u, Publish(p));
    Then(t, Write(p), [Publish(p)]);
    Concat(s, first, [Write(p)] + [Publish(p)]);
    steps := first + ([Write(p)] + [Publish(p)]);
    assert t.producers[p := Stamping(s.enq, m)][p := PushedOk] == s.producers[p := PushedOk];
  }

  /**
    A push taken alone, in any state of a run: it is refused if the queue is closed, appends the message to
    the messages pushed and makes it ready if the slot at the enqueue position is open, and otherwise
    reports a full queue.
  */
  lemma {:induction false} PushAlone(s: State, p: nat, m: Msg) returns (steps: seq<Step>)
    requires Inv(s) && p < |s.producers| && IsAtRest(s.producers[p])
    ensures IsRun(s, steps) && OnlyProducer(s, After(s, steps), p)
    ensures var t, i := After(s, steps), s.enq.idx;
      if s.closed then t.producers[p].PushedClosed? && t.log == s.log && t.enq == s.enq && t.slots[i] == s.slots[i]
      else if s.slots[i].phase.Open? then
        t.producers[p].PushedOk? && t.log == s.log + [m] && t.slots[i].phase.Ready? && t.slots[i].box == Populated(m)
      else t.producers[p].PushedFull? && t.log == s.log && t.enq == s.enq && t.slots[i] == s.slots[i]
  {
    if s.closed {
      steps := RefusedPush(s, p, m);
    } else if s.slots[s.enq.idx].phase.Open? {
      steps := AcceptedPush(s, p, m);
    } else {
      steps := FullPush(s, p, m);
    }
  }

  // ----- A push that goes on alone -----

  /** How a push of `m` may end, from where it is: in an open queue, as the slot at the enqueue position says. */
  predicate Ends(s: State, t: State, p: nat, m: Msg) {
    && p < |t.producers| && s.enq.idx < |s.slots|
    && (if !s.closed && s.slots[s.enq.idx].phase.Open? then t.producers[p].PushedOk? && t.log == s.log + [m]
        else
          && t.log == s.log && t.enq == s.enq
          && (t.producers[p].PushedFull? || (s.closed && t.producers[p].PushedClosed?))
          && (t.producers[p].PushedFull? ==> !s.slots[s.enq.idx].phase.Open?))
  }

  lemma {:induction false} MatchedEnds(s: State, p: nat, m: Msg) returns (steps: seq<Step>)
    requires Inv(s) && p < |s.producers| && s.producers[p] == Matched(s.enq, m) && s.slots[s.enq.idx].phase.Open?
    ensures IsRun(s, steps) && Ends(s, After(s, steps), p, m)
  {
    assert SlotOk(s, s.enq.idx);
    if s.closed {
      OneStep(s, Cas(p, false));
      steps := [Cas(p, false)];
    } else {
      var t := Apply(s, Cas(p, false));
      var u := Apply(t, Write(p));
      OneStep(u, Publish(p));
      Then(t, Write(p), [Publish(p)]);
      Then(s, Cas(p, false), [Write(p)] + [Publish(p)]);
      steps := [Cas(p, false)] + ([Write(p)] + [Publish(p)]);
    }
  }

  /** A producer that read the current position goes on from there. */
  lemma {:induction false} LoadedEnds(s: State, p: nat, m: Msg) returns (steps: seq<Step>)
    requires Inv(s) && p < |s.producers| && s.producers[p] == Loaded(s.enq, m)
    ensures IsRun(s, steps) && Ends(s, After(s, steps), p, m)
  {
    assert SlotOk(s, s.enq.idx);
    var t := Apply(s, LoadStamp(p));
    if s.slots[s.enq.idx].phase.Open? {
      StepKeepsInv(s, LoadStamp(p));
      var rest := MatchedEnds(t, p, m);
      Then(s, LoadStamp(p), rest);
      steps := [LoadStamp(p)] + rest;
    } else {
      OneStep(s, LoadStamp(p));
      steps := [LoadStamp(p)];
    }
  }

  lemma {:induction false} CallingEnds(s: State, p: nat, m: Msg) returns (steps: seq<Step>)
    requires Inv(s) && p < |s.producers| && s.producers[p] == Calling(m)
    ensures IsRun(s, steps) && Ends(s, After(s, steps), p, m)
  {
    var t := Apply(s, LoadPos(p));
    if s.closed {
      OneStep(s, LoadPos(p));
      steps := [LoadPos(p)];
    } else {
      StepKeepsInv(s, LoadPos(p));
      var rest := LoadedEnds(t, p, m);
      Then(s, LoadPos(p), rest);
      steps := [LoadPos(p)] + rest;
    }
  }

  /** A producer that lost the race for a slot reads the position again. */
  lemma {:induction false} StaleMatchedEnds(s: State, p: nat, m: Msg) returns (steps: seq<Step>)
    requires Inv(s) && p < |s.producers| && s.producers[p].Matched? && s.producers[p].m == m
    requires s.enq != s.producers[p].e
    ensures IsRun(s, steps) && Ends(s, After(s, steps), p, m)
  {
    assert ProducerOk(s, p);
    var t := Apply(s, Cas(p, false));
    if s.closed {
      OneStep(s, Cas(p, false));
      steps := [Cas(p, false)];
    } else {
      StepKeepsInv(s, Cas(p, false));
      var rest := LoadedEnds(t, p, m);
      Then(s, Cas(p, false), rest);
      steps := [Cas(p, false)] + rest;
    }
  }

  lemma {:induction false} StaleLoadedEnds(s: State, p: nat, m: Msg) returns (steps: seq<Step>)
    requires Inv(s) && p < |s.producers| && s.producers[p].Loaded? && s.producers[p].m == m
    requires s.enq != s.producers[p].e
    ensures IsRun(s, steps) && Ends(s, After(s, steps), p, m)
  {
    assert ProducerOk(s, p) && SlotOk(s, s.producers[p].e.idx);
    var t := Apply(s, LoadStamp(p));
    StepKeepsInv(s, LoadStamp(p));
    var rest;
    if t.producers[p].Matched? {
      rest := StaleMatchedEnds(t, p, m);
    } else {
      rest := CallingEnds(t, p, m);
    }
    Then(s, LoadStamp(p), rest);
    steps := [LoadStamp(p)] + rest;
  }

  /**
    A push that has not reserved its slot, wherever it is and whatever it read before, goes on alone to the end that
    the state calls for: in an open queue it succeeds if and only if the slot at the enqueue position is open.
  */
  lemma {:induction false} PushEndsAlone(s: State, p: nat, m: Msg) returns (steps: seq<Step>)
    requires Inv(s) && p < |s.producers|
    requires var pc := s.producers[p]; (pc.Calling? || pc.Loaded? || pc.Matched?) && pc.m == m
    ensures IsRun(s, steps) && Ends(s, After(s, steps), p, m)
  {
    var pc := s.producers[p];
    assert ProducerOk(s, p);
    if pc.Calling? {
      steps := CallingEnds(s, p, m);
    } else if pc.Loaded? {
      if pc.e == s.enq {
        steps := LoadedEnds(s, p, m);
      } else {
        steps := StaleLoadedEnds(s, p, m);
      }
    } else {
      if pc.e == s.enq {
        steps := MatchedEnds(s, p, m);
      } else {
        steps := StaleMatchedEnds(s, p, m);
      }
    }
  }

  /** The next message was popped from slot `i` and is held. */
  predicate Popped(s: State, t: State, i: nat)
    requires i < |s.slots|
  {
    && !t.fault && t.consumer.GotMessage? && |s.popped| < |s.log| && t.popped == s.popped + [s.log[|s.popped|]]
    && t.slots == s.slots[i := s.slots[i].(box := NoBox, phase := Held(s.deq.lap))]
    && t.producers == s.producers && t.enq == s.enq && t.closed == s.closed && t.log == s.log
  }

  /**
    A pop taken alone, in any state of a run in which the consumer is not in a pop: it takes the next of the
    messages pushed if that message is ready, fails if the slot is still borrowed, and otherwise says
    whether the queue is closed and drained.
  */
  lemma {:induction false} PopAlone(s: State) returns (steps: seq<Step>)
    requires Inv(s) && !s.consumer.Taking? && !s.consumer.Checking?
    ensures IsRun(s, steps)
    ensures var t, i := After(s, steps), s.deq.idx;
      if s.slots[i].phase.Ready? then Popped(s, t, i)
      else if IsBorrowed(s.slots[i]) then t.fault
      else t == s.(consumer := if s.closed && s.popped == s.log then GotClosed else GotEmpty)
  {
    assert SlotOk(s, s.deq.idx);
    StepKeepsInv(s, PopStart);
    var t := Apply(s, PopStart);
    if s.slots[s.deq.idx].phase.Ready? {
      OneStep(t, PopTake);
      Then(s, PopStart, [PopTake]);
      steps := [PopStart] + [PopTake];
    } else if IsBorrowed(s.slots[s.deq.idx]) {
      OneStep(s, PopStart);
      steps := [PopStart];
    } else {
      OneStep(t, PopCheck);
      Then(s, PopStart, [PopCheck]);
      steps := [PopStart] + [PopCheck];
    }
  }

  /** A message held by the consumer is given back: its slot is open for the next lap, and nothing else changes. */
  lemma {:induction false} GiveBackAlone(s: State, i: nat) returns (steps: seq<Step>)
    requires Inv(s) && i < |s.slots| && s.slots[i].phase.Held?
    ensures IsRun(s, steps)
    ensures var lap := s.slots[i].phase.lap + 1;
      After(s, steps)
      == s.(slots := s.slots[i := s.slots[i].(stamp := Stamp(lap, false), box := Vacated, phase := Open(lap))])
  {
    var t := Apply(s, DropBox(i));
    OneStep(t, Release(i));
    Then(s, DropBox(i), [Release(i)]);
    steps := [DropBox(i)] + [Release(i)];
  }

  /** From an empty and open queue with room, what is pushed is popped. */
  lemma {:induction false} PushThenPop(s: State, p: nat, m: Msg) returns (steps: seq<Step>)
    requires Inv(s) && p < |s.producers| && IsAtRest(s.producers[p]) && !s.consumer.Taking? && !s.consumer.Checking?
    requires !s.closed && s.popped == s.log && s.slots[s.enq.idx].phase.Open?
    ensures IsRun(s, steps)
    ensures After(s, steps).consumer.GotMessage? && After(s, steps).popped == s.popped + [m]
  {
    var first := AcceptedPush(s, p, m);
    var t := After(s, first);
    RunKeepsInv(s, first);
    assert SlotOk(s, s.enq.idx);
    assert s.enq == s.deq;
    var second := PopAlone(t);
    Concat(s, first, second);
    steps := first + second;
  }

  // ----- Closing -----

  lemma {:induction false} NothingAfterFault(s: State, steps: seq<Step>)
    requires s.fault && IsRun(s, steps)
    ensures steps == []
  {
  }

  /** The step that closes the queue may be taken at any time, and is the only one that closes it. */
  lemma {:induction false} ClosesExactly(s: State, steps: seq<Step>)
    requires Inv(s) && IsRun(s, steps)
    ensures Enabled(s, Close)
    ensures After(s, steps).closed <==> s.closed || Close in steps
    decreases |steps|
  {
    if steps != [] {
      var t := Apply(s, steps[0]);
      StepKeepsInv(s, steps[0]);
      assert steps == [steps[0]] + steps[1..];
      if t.fault {
        NothingAfterFault(t, steps[1..]);
      } else {
        ClosesExactly(t, steps[1..]);
      }
    }
  }

  /** The producer was not past the test of the flag when the queue was closed. */
  predicate IsTooLate(pc: Producer) {
    pc.Calling? || pc.PushedClosed?
  }

  lemma {:induction false} ClosedStep(s: State, step: Step, p: nat)
    requires s.closed && Enabled(s, step)
    ensures var t := Apply(s, step);
      && t.closed && t.log == s.log && t.enq == s.enq && |t.producers| == |s.producers|
      && (p < |s.producers| && IsTooLate(s.producers[p]) ==> IsTooLate(t.producers[p]))
  {
  }

  lemma {:induction false} ClosedRun(s: State, steps: seq<Step>, p: nat)
    requires s.closed && IsRun(s, steps)
    ensures var t := After(s, steps);
      && t.closed && t.log == s.log && t.enq == s.enq && |t.producers| == |s.producers|
      && (p < |s.producers| && IsTooLate(s.producers[p]) ==> IsTooLate(t.producers[p]))
    decreases |steps|
  {
    if steps != [] {
      ClosedStep(s, steps[0], p);
      ClosedRun(Apply(s, steps[0]), steps[1..], p);
    }
  }

  /** Whatever happens after the queue is closed, no further message is pushed. */
  lemma {:induction false} ClosedTakesNoMore(s: State, steps: seq<Step>)
    requires Enabled(s, Close) && IsRun(Apply(s, Close), steps)
    ensures var t := After(Apply(s, Close), steps); t.closed && t.log == s.log
  {
    ClosedRun(Apply(s, Close), steps, 0);
  }

  /** A push called after the queue was closed can only end refused, and does so when it goes on alone. */
  lemma {:induction false} PushAfterCloseIsRefused(s: State, before: seq<Step>, p: nat, m: Msg, after: seq<Step>)
    requires Enabled(s, Close) && IsRun(Apply(s, Close), before)
    requires var u := After(Apply(s, Close), before); Enabled(u, Call(p, m)) && IsRun(Apply(u, Call(p, m)), after)
    ensures var t := After(Apply(After(Apply(s, Close), before), Call(p, m)), after);
      && p < |t.producers| && (t.producers[p].Calling? || t.producers[p].PushedClosed?)
      && (t.producers[p].Calling? && Enabled(t, LoadPos(p)) ==> Apply(t, LoadPos(p)).producers[p].PushedClosed?)
  {
    ClosedRun(Apply(s, Close), before, p);
    var u := After(Apply(s, Close), before);
    ClosedStep(u, Call(p, m), p);
    ClosedRun(Apply(u, Call(p, m)), after, p);
  }

  /** Once all messages pushed before are popped, a pop after the closing returns `Closed`. */
  lemma {:induction false} PopAfterCloseIsClosed(s: State, steps: seq<Step>)
    requires Inv(s) && IsRun(Apply(s, Close), steps)
    requires var u := After(Apply(s, Close), steps); Enabled(u, PopCheck)
    ensures var u := After(Apply(s, Close), steps);
      Apply(u, PopCheck).consumer.GotClosed? <==> u.popped == s.log
  {
    StepKeepsInv(s, Close);
    RunKeepsInv(Apply(s, Close), steps);
    ClosedTakesNoMore(s, steps);
  }

  // ----- What counts as a fault -----

  /** What sets the fault flag: the arms that the source declares unreachable, and its assertion on the stamp. */
  lemma {:induction false} FaultsExactly(s: State, step: Step)
    requires Enabled(s, step)
    ensures Apply(s, step).fault <==>
      || (step.Write? && !s.slots[s.producers[step.p].e.idx].box.Vacated?)
      || (step.PopTake? && !s.slots[s.deq.idx].box.Populated?)
      || (step.PopStart? && s.slots[s.deq.idx].stamp.lap != s.deq.lap)
  {
  }
}
