/** What the invariant of the queue means for every run. */
module MpscRuns {
  import opened MpscQueue

  ghost predicate Inv(s: State) {
    && !s.fault && PositionsOk(s)
    && (forall i :: 0 <= i < |s.slots| ==> SlotOk(s, i))
    && (forall p :: 0 <= p < |s.producers| ==> ProducerOk(s, p))
  }

  predicate IsBorrowed(slot: Slot) {
    slot.phase.Held? || slot.phase.Vacating?
  }

  lemma {:induction false} NewIsOk(capacity: nat, producers: nat)
    requires capacity >= 1
    ensures Inv(New(capacity, producers))
  {
  }

  /** Every step keeps the invariant, except a pop of a slot still borrowed. */
  lemma {:induction false} StepKeepsInv(s: State, step: Step)
    requires Inv(s) && Enabled(s, step)
    ensures var t := Apply(s, step); t.fault <==> step.PopStart? && IsBorrowed(s.slots[s.deq.idx])
    ensures var t := Apply(s, step); !t.fault ==> Inv(t)
  {
    var t := Apply(s, step);
    assert SlotOk(s, s.deq.idx) && SlotOk(s, s.enq.idx);
    if IsProducerStep(step) {
      assert ProducerOk(s, step.p);
    }
    FaultsExactlyOnBorrowedSlot(s, step);
    if !t.fault {
      if IsProducerStep(step) {
        ProducerKeepsPositions(s, step);
      } else {
        ConsumerKeepsPositions(s, step);
      }
      forall i | 0 <= i < |t.slots| ensures SlotOk(t, i) {
        if IsProducerStep(step) {
          ProducerKeepsSlot(s, step, i);
        } else {
          ConsumerKeepsSlot(s, step, i);
        }
      }
      forall q | 0 <= q < |t.producers| ensures ProducerOk(t, q) {
        if IsProducerStep(step) {
          ProducerKeepsProducer(s, step, q);
        } else {
          ConsumerKeepsProducer(s, step, q);
        }
      }
    }
  }

  lemma {:induction false} RunKeepsInv(s: State, steps: seq<Step>)
    requires Inv(s) && IsRun(s, steps) && !After(s, steps).fault
    ensures Inv(After(s, steps))
    decreases |steps|
  {
    if steps != [] {
      StepKeepsInv(s, steps[0]);
      if |steps| == 1 {
        assert After(s, steps) == Apply(s, steps[0]);
      } else {
        assert Enabled(Apply(s, steps[0]), steps[1..][0]);
      }
      RunKeepsInv(Apply(s, steps[0]), steps[1..]);
    }
  }

  /** A state of a run in which nothing failed. */
  ghost predicate Reachable(s: State) {
    exists capacity: nat, producers: nat, steps: seq<Step> ::
      capacity >= 1 && IsRun(New(capacity, producers), steps) && s == After(New(capacity, producers), steps) && !s.fault
  }

  lemma {:induction false} ReachableIsOk(s: State)
    requires Reachable(s)
    ensures Inv(s)
  {
    var capacity: nat, producers: nat, steps: seq<Step> :|
      && capacity >= 1 && IsRun(New(capacity, producers), steps)
      && s == After(New(capacity, producers), steps) && !s.fault;
    NewIsOk(capacity, producers);
    RunKeepsInv(New(capacity, producers), steps);
  }

  /** First in, first out: the messages popped are a prefix of the messages pushed. */
  lemma {:induction false} PoppedIsPrefix(s: State)
    requires Reachable(s)
    ensures s.popped <= s.log && |s.log| - |s.popped| == Len(s) && 0 <= Len(s) <= |s.slots|
  {
    ReachableIsOk(s);
  }

  /** The stamp at the dequeue position is that position, or one more; it fails exactly on a borrowed slot. */
  lemma {:induction false} PopSeesItsPosition(s: State)
    requires Reachable(s)
    ensures s.deq.idx < |s.slots|
    ensures var stamp := s.slots[s.deq.idx].stamp;
      stamp.lap == s.deq.lap <==> !IsBorrowed(s.slots[s.deq.idx])
    ensures Enabled(s, PopStart) ==> (Apply(s, PopStart).fault <==> IsBorrowed(s.slots[s.deq.idx]))
  {
    ReachableIsOk(s);
    assert SlotOk(s, s.deq.idx);
    if Enabled(s, PopStart) {
      StepKeepsInv(s, PopStart);
    }
  }

  /** A producer writes only to a slot whose box was given back: no message is overwritten. */
  lemma {:induction false} NeverOverwrites(s: State, p: nat)
    requires Reachable(s) && Enabled(s, Write(p))
    ensures s.slots[s.producers[p].e.idx].box.Vacated? && !Apply(s, Write(p)).fault
  {
    ReachableIsOk(s);
    assert ProducerOk(s, p) && SlotOk(s, s.producers[p].e.idx);
  }

  /** `len` is exact: once no push is in progress, it counts the slots that can be popped. */
  lemma {:induction false} QuiescentLenCountsMessages(s: State, i: nat)
    requires Reachable(s) && i < |s.slots|
    requires forall j :: 0 <= j < |s.slots| ==> !s.slots[j].phase.Reserved? && !s.slots[j].phase.Written?
    ensures s.slots[i].phase.Ready? <==> Distance(s.deq, i, |s.slots|) < Len(s)
    ensures var rank := |s.popped| + Distance(s.deq, i, |s.slots|);
      s.slots[i].phase.Ready? ==> 0 <= rank < |s.log| && s.slots[i].box == Populated(s.log[rank])
  {
    ReachableIsOk(s);
    assert SlotOk(s, i);
  }

  predicate IsClosedForGood(s: State) {
    s.closed && s.enq == s.deq && s.popped == s.log
  }

  /** `Closed` is returned exactly if the queue was closed and every push that succeeded was popped. */
  lemma {:induction false} ClosedMeansDrained(s: State, p: nat)
    requires Reachable(s) && Enabled(s, PopCheck)
    ensures Apply(s, PopCheck).consumer.GotClosed? <==> s.closed && s.popped == s.log
    ensures Apply(s, PopCheck).consumer.GotClosed? ==> IsClosedForGood(Apply(s, PopCheck))
    ensures Apply(s, PopCheck).consumer.GotClosed? && p < |s.producers| ==>
      !s.producers[p].Writing? && !s.producers[p].Stamping?
  {
    ReachableIsOk(s);
    if s.closed && s.enq == s.deq && p < |s.producers| && (s.producers[p].Writing? || s.producers[p].Stamping?) {
      assert ProducerOk(s, p) && SlotOk(s, s.producers[p].e.idx);
      assert false;
    }
  }

  /** And no push ever succeeds again. */
  lemma {:induction false} ClosedIsForGood(s: State, steps: seq<Step>)
    requires Inv(s) && IsClosedForGood(s) && IsRun(s, steps) && !After(s, steps).fault
    ensures var t := After(s, steps); IsClosedForGood(t) && t.log == s.log && t.enq == s.enq
    decreases |steps|
  {
    if steps != [] {
      var t := Apply(s, steps[0]);
      assert SlotOk(s, s.deq.idx);
      StepKeepsInv(s, steps[0]);
      if |steps| > 1 {
        assert Enabled(t, steps[1..][0]);
      }
      ClosedIsForGood(t, steps[1..]);
    }
  }

  /** The position at which a slot that is open or borrowed was last popped, if any. */
  predicate LastPopped(slot: Slot, i: nat, pos: Pos) {
    && pos.idx == i
    && (IsBorrowed(slot) ==> pos.lap == slot.phase.lap)
    && (slot.phase.Open? ==> pos.lap + 1 == slot.phase.lap)
  }

  /** Messages are given back in the order in which they were popped. */
  ghost predicate ReleasedInOrder(s: State) {
    forall i, j, a, b ::
      (&& 0 <= i < |s.slots| && 0 <= j < |s.slots| && s.slots[i].phase.Open? && IsBorrowed(s.slots[j])
       && LastPopped(s.slots[i], i, a) && LastPopped(s.slots[j], j, b))
      ==> AtMost(a, b)
  }

  predicate NoRoom(s: State) {
    forall i :: 0 <= i < |s.slots| ==> !s.slots[i].phase.Open?
  }

  /** A push that returns `Full` looked at the current enqueue position, whose slot is not open. */
  lemma {:induction false} FullIsFresh(s: State, p: nat)
    requires Inv(s) && Enabled(s, LoadStamp(p)) && Apply(s, LoadStamp(p)).producers[p].PushedFull?
    ensures s.producers[p].e == s.enq && !s.slots[s.enq.idx].phase.Open?
    ensures Busy(s.slots[s.enq.idx].phase) ==> Len(s) == |s.slots|
    ensures IsBorrowed(s.slots[s.enq.idx]) ==> s.slots[s.enq.idx].phase.lap + 1 == s.enq.lap
  {
    assert ProducerOk(s, p) && SlotOk(s, s.producers[p].e.idx);
  }

  /** A push that looks at the current enqueue position returns `Full` exactly if its slot is not open. */
  lemma {:induction false} FullIfSlotNotOpen(s: State, p: nat)
    requires Inv(s) && Enabled(s, LoadStamp(p)) && s.producers[p].e == s.enq
    ensures var pc := Apply(s, LoadStamp(p)).producers[p];
      if s.slots[s.enq.idx].phase.Open? then pc.Matched? else pc.PushedFull?
  {
    assert SlotOk(s, s.enq.idx);
  }

  lemma {:induction false} OpenWasPoppedLater(s: State, i: nat)
    requires Inv(s) && i < |s.slots| && s.slots[i].phase.Open? && IsBorrowed(s.slots[s.enq.idx])
    requires s.slots[s.enq.idx].phase.lap + 1 == s.enq.lap
    ensures s.slots[i].phase.lap > 0
    ensures !AtMost(Pos(s.slots[i].phase.lap - 1, i), Pos(s.enq.lap - 1, s.enq.idx))
  {
    assert SlotOk(s, i) && SlotOk(s, s.enq.idx);
  }

  /**
    A push returns `Full` exactly when every slot is reserved, populated or borrowed, if and only
    if messages are given back in the order in which they were popped.
  */
  lemma {:induction false} FullIsExact(s: State, p: nat)
    requires Inv(s) && Enabled(s, LoadStamp(p)) && Apply(s, LoadStamp(p)).producers[p].PushedFull?
    ensures NoRoom(s) <==> ReleasedInOrder(s)
  {
    FullIsFresh(s, p);
    forall i | 0 <= i < |s.slots| && s.slots[i].phase.Open? ensures !ReleasedInOrder(s) {
      assert SlotOk(s, i) && SlotOk(s, s.enq.idx);
      if IsBorrowed(s.slots[s.enq.idx]) {
        OpenWasPoppedLater(s, i);
        var a, b := Pos(s.slots[i].phase.lap - 1, i), Pos(s.enq.lap - 1, s.enq.idx);
        assert LastPopped(s.slots[i], i, a) && LastPopped(s.slots[s.enq.idx], s.enq.idx, b);
      }
    }
  }

  // ----- A consumer that holds at most one message, as the receiver of a channel does -----

  predicate NoBorrow(s: State) {
    forall i :: 0 <= i < |s.slots| ==> !IsBorrowed(s.slots[i])
  }

  /** Pops start only once the message popped before was given back. */
  predicate IsSerialRun(s: State, steps: seq<Step>)
    requires IsRun(s, steps)
    decreases |steps|
  {
    steps == [] || ((steps[0].PopStart? ==> NoBorrow(s)) && IsSerialRun(Apply(s, steps[0]), steps[1..]))
  }

  /** The only slot that may be borrowed is that of the last message popped. */
  predicate LastIsBorrowed(s: State, i: nat) {
    i < |s.slots| && IsBorrowed(s.slots[i]) ==>
      !s.consumer.Taking? && s.deq == Next(Pos(s.slots[i].phase.lap, i), |s.slots|)
  }

  lemma {:induction false} SerialStep(s: State, step: Step, i: nat)
    requires Inv(s) && Enabled(s, step) && (step.PopStart? ==> NoBorrow(s)) && LastIsBorrowed(s, i)
    ensures LastIsBorrowed(Apply(s, step), i)
  {
    if IsProducerStep(step) {
      assert ProducerOk(s, step.p);
    }
  }

  /** Such a consumer never fails, and gives messages back in order. */
  lemma {:induction false} SerialRunIsSafe(s: State, steps: seq<Step>)
    requires Inv(s) && IsRun(s, steps) && IsSerialRun(s, steps)
    requires forall i :: 0 <= i < |s.slots| ==> LastIsBorrowed(s, i)
    ensures var t := After(s, steps); Inv(t) && forall i :: 0 <= i < |t.slots| ==> LastIsBorrowed(t, i)
    decreases |steps|
  {
    if steps != [] {
      var t := Apply(s, steps[0]);
      StepKeepsInv(s, steps[0]);
      forall i | 0 <= i < |t.slots| ensures LastIsBorrowed(t, i) {
        if i < |s.slots| {
          SerialStep(s, steps[0], i);
        }
      }
      SerialRunIsSafe(t, steps[1..]);
    }
  }

  lemma {:induction false} SerialReleasesInOrder(s: State)
    requires Inv(s) && forall i :: 0 <= i < |s.slots| ==> LastIsBorrowed(s, i)
    ensures ReleasedInOrder(s)
  {
    forall i, j, a, b | 0 <= i < |s.slots| && 0 <= j < |s.slots| && s.slots[i].phase.Open? && IsBorrowed(s.slots[j])
      && LastPopped(s.slots[i], i, a) && LastPopped(s.slots[j], j, b)
      ensures AtMost(a, b)
    {
      assert SlotOk(s, i) && SlotOk(s, j) && LastIsBorrowed(s, j);
    }
  }

  /** In any run of such a consumer: nothing fails, and `Full` is exact. */
  lemma {:induction false} SerialConsumer(capacity: nat, producers: nat, steps: seq<Step>, p: nat)
    requires capacity >= 1 && IsRun(New(capacity, producers), steps) && IsSerialRun(New(capacity, producers), steps)
    ensures var s := After(New(capacity, producers), steps); !s.fault && s.popped <= s.log
    ensures var s := After(New(capacity, producers), steps);
      Enabled(s, LoadStamp(p)) && Apply(s, LoadStamp(p)).producers[p].PushedFull? ==> NoRoom(s)
  {
    var s := New(capacity, producers);
    var t := After(s, steps);
    NewIsOk(capacity, producers);
    SerialRunIsSafe(s, steps);
    if Enabled(t, LoadStamp(p)) && Apply(t, LoadStamp(p)).producers[p].PushedFull? {
      SerialReleasesInOrder(t);
      FullIsExact(t, p);
    }
  }

  // ----- A consumer that holds several messages -----

  lemma {:induction false} RunAppends(s: State, steps: seq<Step>, step: Step)
    requires IsRun(s, steps) && Enabled(After(s, steps), step)
    ensures IsRun(s, steps + [step]) && After(s, steps + [step]) == Apply(After(s, steps), step)
    decreases |steps|
  {
    if steps == [] {
      assert [step][1..] == [];
    } else {
      RunAppends(Apply(s, steps[0]), steps[1..], step);
      assert (steps + [step])[1..] == steps[1..] + [step];
    }
  }

  lemma {:induction false} ReachableSteps(s: State, step: Step) returns (t: State)
    requires Reachable(s) && Enabled(s, step) && !Apply(s, step).fault
    ensures t == Apply(s, step) && Reachable(t)
  {
    var capacity: nat, producers: nat, steps: seq<Step> :|
      && capacity >= 1 && IsRun(New(capacity, producers), steps)
      && s == After(New(capacity, producers), steps) && !s.fault;
    RunAppends(New(capacity, producers), steps, step);
    t := Apply(s, step);
    assert t == After(New(capacity, producers), steps + [step]);
  }

  /** A reservation of an open slot, undisturbed. */
  lemma {:induction false} ReservationRuns(s: State, p: nat, m: Msg) returns (t: State)
    requires Reachable(s) && p < |s.producers| && (s.producers[p].Idle? || s.producers[p].PushedOk?)
    requires !s.closed && s.enq.idx < |s.slots| && s.slots[s.enq.idx].phase.Open?
    ensures Reachable(t) && t.enq == Next(s.enq, |s.slots|) && t.deq == s.deq && !t.closed && t.consumer == s.consumer
    ensures t.producers == s.producers[p := Writing(s.enq, m)]
    ensures t.slots == s.slots[s.enq.idx := s.slots[s.enq.idx].(phase := Reserved(s.enq.lap, p), ticket := |s.log|)]
  {
    ReachableIsOk(s);
    assert SlotOk(s, s.enq.idx);
    t := ReachableSteps(s, Call(p, m));
    t := ReachableSteps(t, LoadPos(p));
    t := ReachableSteps(t, LoadStamp(p));
    t := ReachableSteps(t, Cas(p, false));
  }

  /** A push to an open slot, undisturbed. */
  lemma {:induction false} PushRuns(s: State, p: nat, m: Msg) returns (t: State)
    requires Reachable(s) && p < |s.producers| && (s.producers[p].Idle? || s.producers[p].PushedOk?)
    requires !s.closed && s.enq.idx < |s.slots| && s.slots[s.enq.idx].phase.Open?
    ensures Reachable(t) && t.enq == Next(s.enq, |s.slots|) && t.deq == s.deq && !t.closed && t.consumer == s.consumer
    ensures |t.slots| == |s.slots| && t.producers == s.producers[p := PushedOk]
    ensures forall i :: 0 <= i < |s.slots| ==>
      t.slots[i].phase == if i == s.enq.idx then Ready(s.enq.lap) else s.slots[i].phase
  {
    t := ReservationRuns(s, p, m);
    ReachableIsOk(t);
    assert SlotOk(t, s.enq.idx);
    t := ReachableSteps(t, Write(p));
    t := ReachableSteps(t, Publish(p));
  }

  /** A pop of a populated slot, whose message is then held. */
  lemma {:induction false} PopRuns(s: State) returns (t: State)
    requires Reachable(s) && Enabled(s, PopStart) && s.slots[s.deq.idx].phase == Ready(s.deq.lap)
    ensures Reachable(t) && t.deq == Next(s.deq, |s.slots|) && t.enq == s.enq
    ensures t.closed == s.closed && t.producers == s.producers
    ensures |t.slots| == |s.slots| && t.consumer.GotMessage?
    ensures forall i :: 0 <= i < |s.slots| ==>
      t.slots[i].phase == if i == s.deq.idx then Held(s.deq.lap) else s.slots[i].phase
  {
    ReachableIsOk(s);
    assert SlotOk(s, s.deq.idx);
    t := ReachableSteps(s, PopStart);
    t := ReachableSteps(t, PopTake);
  }

  lemma {:induction false} NewIsReachable(capacity: nat, producers: nat)
    requires capacity >= 1
    ensures Reachable(New(capacity, producers))
  {
    assert IsRun(New(capacity, producers), []);
    assert After(New(capacity, producers), []) == New(capacity, producers);
  }

  /** With one slot, popping again while its message is held reaches the arm declared unreachable. */
  lemma {:induction false} PopOfHeldSlotFails() returns (s: State)
    ensures Reachable(s) && Enabled(s, PopStart) && Apply(s, PopStart).fault
  {
    NewIsReachable(1, 1);
    s := PushRuns(New(1, 1), 0, 7);
    ReachableIsOk(s);
    s := PopRuns(s);
    ReachableIsOk(s);
    StepKeepsInv(s, PopStart);
  }

  lemma {:induction false} TwoMessagesHeld() returns (s: State)
    ensures Reachable(s) && |s.slots| == 2 && |s.producers| == 1 && s.producers[0].PushedOk? && !s.closed
    ensures s.slots[0].phase == Held(0) && s.slots[1].phase == Held(0) && s.enq == Pos(1, 0)
  {
    NewIsReachable(2, 1);
    s := PushRuns(New(2, 1), 0, 7);
    s := PushRuns(s, 0, 8);
    ReachableIsOk(s);
    s := PopRuns(s);
    ReachableIsOk(s);
    s := PopRuns(s);
  }

  /** With two messages held and the second given back first, a push returns `Full` although a slot is open. */
  lemma {:induction false} FullDespiteOpenSlot() returns (s: State)
    ensures Reachable(s) && Enabled(s, LoadStamp(0)) && Apply(s, LoadStamp(0)).producers[0].PushedFull?
    ensures !NoRoom(s)
  {
    s := TwoMessagesHeld();
    ReachableIsOk(s);
    s := ReachableSteps(s, DropBox(1));
    s := ReachableSteps(s, Release(1));
    s := ReachableSteps(s, Call(0, 9));
    s := ReachableSteps(s, LoadPos(0));
    ReachableIsOk(s);
    assert SlotOk(s, 0) && s.slots[1].phase.Open?;
  }
}
