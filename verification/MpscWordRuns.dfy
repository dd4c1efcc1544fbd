/** Runs of the queue on machine words: they are the runs of the queue on unbounded positions. */
module MpscWordRuns {
  import opened Options
  import opened Words
  import opened MpscWord
  import opened MpscWordQueue
  import MpscQueue
  import MpscRuns

  type Queue = MpscQueue.State
  type Slot = MpscQueue.Slot
  type Pos = MpscQueue.Pos
  type Producer = MpscQueue.Producer

  // ----- The words of a queue -----

  function PosWord(pos: Pos, l: Layout): nat {
    Wrapped(pos, l.n, l.m)
  }

  function StampWord(slot: Slot, i: nat, l: Layout): nat {
    WrappedStamp(slot.stamp, i, l.n, l.m)
  }

  function StampWords(slots: seq<Slot>, l: Layout): seq<nat> {
    seq(|slots|, i requires 0 <= i < |slots| => StampWord(slots[i], i, l))
  }

  function Boxes(slots: seq<Slot>): seq<Box> {
    seq(|slots|, i requires 0 <= i < |slots| => slots[i].box)
  }

  /** A borrow holds the stamp of the next lap of its slot. */
  function BorrowOf(slot: Slot, i: nat, l: Layout): Option<Borrow> {
    if MpscRuns.IsBorrowed(slot) then
      Some(Borrow(WrappedStamp(MpscQueue.Stamp(slot.phase.lap + 1, false), i, l.n, l.m), slot.phase.Vacating?))
    else None
  }

  function Borrows(slots: seq<Slot>, l: Layout): seq<Option<Borrow>> {
    seq(|slots|, i requires 0 <= i < |slots| => BorrowOf(slots[i], i, l))
  }

  function PushOf(pc: Producer, l: Layout): Push {
    match pc
    case Idle => Idle
    case Calling(m) => Calling(m)
    case Loaded(e, m) => Loaded(PosWord(e, l), m)
    case Matched(e, m) => Matched(PosWord(e, l), PosWord(e, l), m)
    case Writing(e, m) => Writing(PosWord(e, l), PosWord(e, l), m)
    case Stamping(e, m) => Stamping(PosWord(e, l), PosWord(e, l), m)
    case PushedOk => PushedOk
    case PushedFull => PushedFull
    case PushedClosed => PushedClosed
  }

  function Pushes(producers: seq<Producer>, l: Layout): seq<Push> {
    seq(|producers|, p requires 0 <= p < |producers| => PushOf(producers[p], l))
  }

  function PopOf(consumer: MpscQueue.Consumer, stamp: nat): Pop {
    match consumer
    case Away => Away
    case Taking => Taking(stamp)
    case Checking => Checking
    case GotMessage => GotMessage
    case GotEmpty => GotEmpty
    case GotClosed => GotClosed
  }

  predicate IsQueue(s: Queue, l: Layout) {
    IsLayout(|s.slots|, l.n) && s.deq.idx < |s.slots|
  }

  /** The words that represent a queue. */
  function WordsOf(s: Queue, l: Layout): WordState
    requires IsQueue(s, l)
  {
    WordState(EnqueueWord(s.enq, s.closed, l.n, l.m), PosWord(s.deq, l), StampWords(s.slots, l), Boxes(s.slots),
              Borrows(s.slots, l), Pushes(s.producers, l),
              PopOf(s.consumer, StampWord(s.slots[s.deq.idx], s.deq.idx, l)), s.fault)
  }

  /** A new queue is that of the source: all words are 0, but for the stamps, which count up. */
  lemma {:induction false} NewWords(capacity: nat, producers: nat, l: Layout)
    requires IsLayout(capacity, l.n)
    ensures WordsOf(MpscQueue.New(capacity, producers), l) == New(capacity, producers)
  {
    var s := MpscQueue.New(capacity, producers);
    ShlIsProduct(0, l.n + 1);
    ShlIsProduct(0, l.n);
    assert 0 % Pow2(l.m) == 0;
    assert StampWords(s.slots, l) == seq(capacity, i => i);
    assert Boxes(s.slots) == seq(capacity, i => MpscQueue.Vacated);
    assert Borrows(s.slots, l) == seq(capacity, i => None);
    assert Pushes(s.producers, l) == seq(producers, p => Idle);
  }

  lemma {:induction false} PushesUpdate(producers: seq<Producer>, p: nat, pc: Producer, l: Layout)
    requires p < |producers|
    ensures Pushes(producers[p := pc], l) == Pushes(producers, l)[p := PushOf(pc, l)]
  {
  }

  lemma {:induction false} StampsUpdate(slots: seq<Slot>, i: nat, slot: Slot, l: Layout)
    requires i < |slots|
    ensures StampWords(slots[i := slot], l) == StampWords(slots, l)[i := StampWord(slot, i, l)]
    ensures slot.stamp == slots[i].stamp ==> StampWords(slots[i := slot], l) == StampWords(slots, l)
  {
  }

  lemma {:induction false} BoxesUpdate(slots: seq<Slot>, i: nat, slot: Slot)
    requires i < |slots|
    ensures Boxes(slots[i := slot]) == Boxes(slots)[i := slot.box]
    ensures slot.box == slots[i].box ==> Boxes(slots[i := slot]) == Boxes(slots)
  {
  }

  lemma {:induction false} BorrowsUpdate(slots: seq<Slot>, i: nat, slot: Slot, l: Layout)
    requires i < |slots|
    ensures Borrows(slots[i := slot], l) == Borrows(slots, l)[i := BorrowOf(slot, i, l)]
    ensures BorrowOf(slot, i, l) == BorrowOf(slots[i], i, l) ==> Borrows(slots[i := slot], l) == Borrows(slots, l)
  {
  }

  lemma {:induction false} SlotUpdate(slots: seq<Slot>, i: nat, slot: Slot, l: Layout)
    requires i < |slots|
    ensures StampWords(slots[i := slot], l) == StampWords(slots, l)[i := StampWord(slot, i, l)]
    ensures slot.stamp == slots[i].stamp ==> StampWords(slots[i := slot], l) == StampWords(slots, l)
    ensures Boxes(slots[i := slot]) == Boxes(slots)[i := slot.box]
    ensures slot.box == slots[i].box ==> Boxes(slots[i := slot]) == Boxes(slots)
    ensures Borrows(slots[i := slot], l) == Borrows(slots, l)[i := BorrowOf(slot, i, l)]
    ensures BorrowOf(slot, i, l) == BorrowOf(slots[i], i, l) ==> Borrows(slots[i := slot], l) == Borrows(slots, l)
  {
    StampsUpdate(slots, i, slot, l);
    BoxesUpdate(slots, i, slot);
    BorrowsUpdate(slots, i, slot, l);
  }

  // ----- Decisions on words -----

  lemma {:induction false} IndexIs(pos: Pos, l: Layout, capacity: nat)
    requires IsLayout(capacity, l.n) && pos.idx < capacity
    ensures Index(PosWord(pos, l), l) == pos.idx
  {
    IndexOf(pos, l.n, l.m, capacity);
  }

  /** The words of positions are equal if and only if only whole rounds of the laps lie between the positions. */
  lemma {:induction false} SameWord(a: Pos, b: Pos, l: Layout, capacity: nat)
    requires IsLayout(capacity, l.n) && a.idx < capacity && b.idx < capacity
    ensures PosWord(a, l) == PosWord(b, l) <==> a.idx == b.idx && LapsAhead(a.lap, b.lap, l.m) == 0
  {
    var p, r, q := Pow2(l.m), LapsAhead(a.lap, b.lap, l.m), (a.lap - b.lap) / Pow2(l.m);
    assert a.lap == b.lap + r + p * q;
    SameRemainder(a.lap, b.lap + r, q, p);
    if r == 0 {
      if a.idx != b.idx {
        IndexOf(a, l.n, l.m, capacity);
        IndexOf(b, l.n, l.m, capacity);
      }
    } else {
      if PosWord(a, l) == PosWord(b, l) {
        IndexOf(a, l.n, l.m, capacity);
        IndexOf(b, l.n, l.m, capacity);
        RemaindersApart(b.lap + r, b.lap, p);
      }
    }
  }

  /** The compare-and-exchange takes the word of `enq` for that of `e`. */
  lemma {:induction false} CasSucceeds(enq: Pos, closed: bool, e: Pos, l: Layout, capacity: nat)
    requires IsLayout(capacity, l.n) && enq.idx < capacity && e.idx < capacity
    ensures EnqueueWord(enq, closed, l.n, l.m) == PosWord(e, l)
       <==> enq.idx == e.idx && LapsAhead(enq.lap, e.lap, l.m) == 0 && !closed
  {
    OpenWord(enq, l);
    OpenWord(e, l);
    ClosedFlag(enq, closed, l.n, l.m, capacity);
    ClosedFlag(e, false, l.n, l.m, capacity);
    SameWord(enq, e, l, capacity);
  }

  lemma {:induction false} OpenWord(pos: Pos, l: Layout)
    ensures EnqueueWord(pos, false, l.n, l.m) == PosWord(pos, l)
  {
    ShlIsProduct(0, l.n);
  }

  lemma {:induction false} TurnIs(enq: Pos, closed: bool, msg: Msg, l: Layout, capacity: nat)
    requires IsLayout(capacity, l.n) && enq.idx < capacity
    ensures Turn(EnqueueWord(enq, closed, l.n, l.m), msg, l)
         == PushOf(if closed then MpscQueue.PushedClosed else MpscQueue.Loaded(enq, msg), l)
  {
    ClosedFlag(enq, closed, l.n, l.m, capacity);
    OpenWord(enq, l);
  }

  // ----- Steps -----

  /** The stamp is not so far ahead of the position that the sign of the difference of their words tells otherwise. */
  predicate IsTold(stamp: MpscQueue.Stamp, e: Pos, l: Layout) {
    stamp.lap > e.lap && l.m > 0 ==>
      LapsAhead(stamp.lap, e.lap, l.m) < Pow2(l.m - 1) && (LapsAhead(stamp.lap, e.lap, l.m) == 0 ==> stamp.full)
  }

  /** The position did not come back to the word of the position `e` by whole rounds of the laps. */
  predicate IsNotLapped(enq: Pos, e: Pos, l: Layout) {
    enq.idx == e.idx && enq.lap > e.lap ==> LapsAhead(enq.lap, e.lap, l.m) != 0
  }

  /** The producer that makes the step did not sleep so long that the words it loaded mislead it. */
  predicate IsFresh(s: Queue, step: Step, l: Layout)
    requires MpscQueue.Enabled(s, step)
  {
    match step
    case LoadStamp(p) => IsTold(s.slots[s.producers[p].e.idx].stamp, s.producers[p].e, l)
    case Cas(p, spurious) => spurious || s.closed || IsNotLapped(s.enq, s.producers[p].e, l)
    case _ => true
  }

  /** The step on words leads to the words of the state that the step leads to. */
  predicate Refines(s: Queue, step: Step, l: Layout)
    requires IsQueue(s, l) && MpscQueue.Enabled(s, step)
  {
    var t := MpscQueue.Apply(s, step);
    && Enabled(WordsOf(s, l), step, l)
    && IsQueue(t, l)
    && Apply(WordsOf(s, l), step, l) == WordsOf(t, l)
  }

  lemma {:induction false} CallRefines(s: Queue, p: nat, m: Msg, l: Layout)
    requires IsQueue(s, l) && MpscQueue.Enabled(s, MpscQueue.Call(p, m))
    ensures Refines(s, MpscQueue.Call(p, m), l)
  {
    PushesUpdate(s.producers, p, MpscQueue.Calling(m), l);
  }

  lemma {:induction false} LoadPosRefines(s: Queue, p: nat, l: Layout)
    requires IsQueue(s, l) && MpscQueue.Enabled(s, MpscQueue.LoadPos(p))
    ensures Refines(s, MpscQueue.LoadPos(p), l)
  {
    var m := s.producers[p].m;
    TurnIs(s.enq, s.closed, m, l, |s.slots|);
    PushesUpdate(s.producers, p, if s.closed then MpscQueue.PushedClosed else MpscQueue.Loaded(s.enq, m), l);
  }

  /** What `push` does with a stamp. */
  function Outcome(stamp: MpscQueue.Stamp, e: Pos, m: Msg): Producer {
    if stamp == MpscQueue.Stamp(e.lap, false) then MpscQueue.Matched(e, m)
    else if stamp.lap < e.lap then MpscQueue.PushedFull
    else MpscQueue.Calling(m)
  }

  lemma {:induction false} LapsBehind(a: nat, b: nat, m: nat)
    requires a <= b <= a + 1
    ensures LapsAhead(a, b, m) == if a == b then 0 else Pow2(m) - 1
  {
    SmallRemainder(a - b, if a == b then 0 else Pow2(m) - 1, a - b, Pow2(m));
  }

  lemma {:induction false} ComparedIs(stamp: MpscQueue.Stamp, e: Pos, m: Msg, l: Layout, capacity: nat)
    requires IsLayout(capacity, l.n) && e.idx < capacity && l.m > 0 && e.lap <= stamp.lap + 1
    ensures IsTold(stamp, e, l) <==>
      Compared(WrappedStamp(stamp, e.idx, l.n, l.m), Loaded(PosWord(e, l), m), l) == PushOf(Outcome(stamp, e, m), l)
  {
    WrappedStampComparison(stamp, e, l.n, l.m, capacity);
    if stamp.lap <= e.lap {
      LapsBehind(stamp.lap, e.lap, l.m);
    }
  }

  /** The stamp of the slot of a loaded position is at most one lap before it, and one after the enqueue position. */
  lemma {:induction false} StampNear(s: Queue, p: nat)
    requires p < |s.producers| && s.producers[p].Loaded?
    requires MpscQueue.PositionsOk(s) && MpscQueue.ProducerOk(s, p) && MpscQueue.SlotOk(s, s.producers[p].e.idx)
    ensures var e, stamp := s.producers[p].e, s.slots[s.producers[p].e.idx].stamp;
      e.lap <= stamp.lap + 1 && stamp.lap <= s.enq.lap + 1
  {
  }

  lemma {:induction false} LoadStampRefines(s: Queue, p: nat, l: Layout)
    requires IsQueue(s, l) && MpscQueue.Enabled(s, MpscQueue.LoadStamp(p)) && l.m > 0
    requires MpscQueue.PositionsOk(s) && MpscQueue.ProducerOk(s, p) && MpscQueue.SlotOk(s, s.producers[p].e.idx)
    ensures Refines(s, MpscQueue.LoadStamp(p), l) <==> IsFresh(s, MpscQueue.LoadStamp(p), l)
  {
    var e, m, stamp := s.producers[p].e, s.producers[p].m, s.slots[s.producers[p].e.idx].stamp;
    IndexIs(e, l, |s.slots|);
    StampNear(s, p);
    ComparedIs(stamp, e, m, l, |s.slots|);
    PushesUpdate(s.producers, p, Outcome(stamp, e, m), l);
    assert Apply(WordsOf(s, l), MpscQueue.LoadStamp(p), l).pushes[p]
        == Compared(WrappedStamp(stamp, e.idx, l.n, l.m), Loaded(PosWord(e, l), m), l);
  }

  lemma {:induction false} CasMoves(s: Queue, p: nat, l: Layout)
    requires IsQueue(s, l) && MpscQueue.Enabled(s, MpscQueue.Cas(p, false))
    requires MpscQueue.ProducerOk(s, p) && s.enq == s.producers[p].e && !s.closed
    ensures Refines(s, MpscQueue.Cas(p, false), l)
  {
    var e, m := s.enq, s.producers[p].m;
    IndexIs(e, l, |s.slots|);
    OpenWord(e, l);
    PushesUpdate(s.producers, p, MpscQueue.Writing(e, m), l);
    SlotUpdate(s.slots, e.idx, s.slots[e.idx].(phase := MpscQueue.Reserved(e.lap, p), ticket := |s.log|), l);
    NextWordIsNext(e, l.n, l.m, |s.slots|);
    OpenWord(MpscQueue.Next(e, |s.slots|), l);
  }

  lemma {:induction false} CasFails(s: Queue, p: nat, spurious: bool, l: Layout)
    requires IsQueue(s, l) && MpscQueue.Enabled(s, MpscQueue.Cas(p, spurious))
    requires spurious || s.closed || s.enq.idx != s.producers[p].e.idx
          || LapsAhead(s.enq.lap, s.producers[p].e.lap, l.m) != 0
    ensures Refines(s, MpscQueue.Cas(p, spurious), l)
  {
    var e, m := s.producers[p].e, s.producers[p].m;
    IndexIs(e, l, |s.slots|);
    CasSucceeds(s.enq, s.closed, e, l, |s.slots|);
    TurnIs(s.enq, s.closed, m, l, |s.slots|);
    PushesUpdate(s.producers, p, if s.closed then MpscQueue.PushedClosed else MpscQueue.Loaded(s.enq, m), l);
  }

  /** After whole rounds of the laps, the compare-and-exchange takes the position for an old one. */
  lemma {:induction false} LappedCasDiffers(s: Queue, p: nat, l: Layout)
    requires IsQueue(s, l) && MpscQueue.Enabled(s, MpscQueue.Cas(p, false)) && !s.closed
    requires s.enq.idx == s.producers[p].e.idx && s.enq.lap > s.producers[p].e.lap
    requires LapsAhead(s.enq.lap, s.producers[p].e.lap, l.m) == 0
    ensures !Refines(s, MpscQueue.Cas(p, false), l)
  {
    var e, m := s.producers[p].e, s.producers[p].m;
    IndexIs(e, l, |s.slots|);
    CasSucceeds(s.enq, s.closed, e, l, |s.slots|);
    PushesUpdate(s.producers, p, MpscQueue.Loaded(s.enq, m), l);
    assert Apply(WordsOf(s, l), MpscQueue.Cas(p, false), l).pushes[p].Writing?;
  }

  lemma {:induction false} CasRefines(s: Queue, p: nat, spurious: bool, l: Layout)
    requires IsQueue(s, l) && MpscQueue.Enabled(s, MpscQueue.Cas(p, spurious)) && MpscQueue.ProducerOk(s, p)
    ensures Refines(s, MpscQueue.Cas(p, spurious), l) <==> IsFresh(s, MpscQueue.Cas(p, spurious), l)
  {
    var e := s.producers[p].e;
    if spurious || s.closed || s.enq.idx != e.idx || LapsAhead(s.enq.lap, e.lap, l.m) != 0 {
      CasFails(s, p, spurious, l);
    } else if s.enq == e {
      CasMoves(s, p, l);
    } else {
      LappedCasDiffers(s, p, l);
    }
  }

  lemma {:induction false} WriteRefines(s: Queue, p: nat, l: Layout)
    requires IsQueue(s, l) && MpscQueue.Enabled(s, MpscQueue.Write(p))
    requires MpscQueue.ProducerOk(s, p)
    ensures Refines(s, MpscQueue.Write(p), l)
  {
    var e, m := s.producers[p].e, s.producers[p].m;
    IndexIs(e, l, |s.slots|);
    PushesUpdate(s.producers, p, MpscQueue.Stamping(e, m), l);
    SlotUpdate(s.slots, e.idx, s.slots[e.idx].(box := MpscQueue.Populated(m), phase := MpscQueue.Written(e.lap, p)), l);
  }

  lemma {:induction false} WrittenStamp(e: Pos, l: Layout, capacity: nat)
    requires IsLayout(capacity, l.n) && e.idx < capacity
    ensures (PosWord(e, l) + 1) % Pow2(Width(l)) == WrappedStamp(MpscQueue.Stamp(e.lap, true), e.idx, l.n, l.m)
  {
    WrappedStampIsRemainder(MpscQueue.Stamp(e.lap, true), e.idx, l.n, l.m, capacity);
    var word := WrappedStamp(MpscQueue.Stamp(e.lap, true), e.idx, l.n, l.m);
    SmallRemainder(word, word, 0, Pow2(Width(l)));
  }

  lemma {:induction false} PublishRefines(s: Queue, p: nat, l: Layout)
    requires IsQueue(s, l) && MpscQueue.Enabled(s, MpscQueue.Publish(p))
    requires MpscQueue.PositionsOk(s) && MpscQueue.ProducerOk(s, p)
    ensures Refines(s, MpscQueue.Publish(p), l)
  {
    var e := s.producers[p].e;
    IndexIs(e, l, |s.slots|);
    PushesUpdate(s.producers, p, MpscQueue.PushedOk, l);
    WrittenStamp(e, l, |s.slots|);
    SlotUpdate(s.slots, e.idx,
               s.slots[e.idx].(stamp := MpscQueue.Stamp(e.lap, true), phase := MpscQueue.Ready(e.lap)), l);
  }

  /** The stamp of the slot at the dequeue position is compared with the word of the position. */
  lemma {:induction false} PopDecides(stamp: MpscQueue.Stamp, deq: Pos, l: Layout, capacity: nat)
    requires IsLayout(capacity, l.n) && deq.idx < capacity && l.m > 0
    requires stamp.lap == deq.lap || (stamp.full && stamp.lap + 1 == deq.lap)
    ensures WrappedStamp(stamp, deq.idx, l.n, l.m) == PosWord(deq, l) <==> stamp == MpscQueue.Stamp(deq.lap, false)
    ensures WrappedStamp(stamp, deq.idx, l.n, l.m) == PosWord(deq, l) + 1 <==> stamp == MpscQueue.Stamp(deq.lap, true)
  {
    if stamp.lap != deq.lap {
      SameLap(deq.lap, stamp.lap, l.n, l.m);
      var a, b := deq.lap % Pow2(l.m), stamp.lap % Pow2(l.m);
      if a < b {
        LapsApart(a, b, l.n + 1);
      } else {
        LapsApart(b, a, l.n + 1);
      }
    }
  }

  lemma {:induction false} PopStartRefines(s: Queue, l: Layout)
    requires IsQueue(s, l) && MpscQueue.Enabled(s, MpscQueue.PopStart) && l.m > 0
    requires MpscQueue.SlotOk(s, s.deq.idx)
    ensures Refines(s, MpscQueue.PopStart, l)
  {
    IndexIs(s.deq, l, |s.slots|);
    PopDecides(s.slots[s.deq.idx].stamp, s.deq, l, |s.slots|);
  }

  lemma {:induction false} TakeRefines(s: Queue, l: Layout)
    requires IsQueue(s, l) && MpscQueue.Enabled(s, MpscQueue.PopTake)
    requires s.slots[s.deq.idx].stamp == MpscQueue.Stamp(s.deq.lap, true) && s.slots[s.deq.idx].box.Populated?
    ensures Refines(s, MpscQueue.PopTake, l)
  {
    var i, lap := s.deq.idx, s.deq.lap;
    IndexIs(s.deq, l, |s.slots|);
    assert WordsOf(s, l).pop == Taking(WrappedStamp(MpscQueue.Stamp(lap, true), i, l.n, l.m));
    SlotUpdate(s.slots, i, s.slots[i].(box := MpscQueue.NoBox, phase := MpscQueue.Held(lap)), l);
    NextWordIsNext(s.deq, l.n, l.m, |s.slots|);
    ReleasedStamp(lap, i, l.n, l.m, |s.slots|);
  }

  lemma {:induction false} PopTakeRefines(s: Queue, l: Layout)
    requires IsQueue(s, l) && MpscQueue.Enabled(s, MpscQueue.PopTake)
    requires MpscQueue.PositionsOk(s) && MpscQueue.SlotOk(s, s.deq.idx)
    ensures Refines(s, MpscQueue.PopTake, l)
  {
    TakeRefines(s, l);
  }

  lemma {:induction false} PopCheckRefines(s: Queue, l: Layout)
    requires IsQueue(s, l) && MpscQueue.Enabled(s, MpscQueue.PopCheck) && l.m > 0
    requires MpscQueue.PositionsOk(s)
    ensures Refines(s, MpscQueue.PopCheck, l)
  {
    OpenWord(s.deq, l);
    SetsFlag(s.deq, false, l.n, l.m, |s.slots|);
    ClosedFlag(s.enq, s.closed, l.n, l.m, |s.slots|);
    ClosedFlag(s.deq, true, l.n, l.m, |s.slots|);
    SameWord(s.enq, s.deq, l, |s.slots|);
  }

  lemma {:induction false} DropBoxRefines(s: Queue, i: nat, l: Layout)
    requires IsQueue(s, l) && MpscQueue.Enabled(s, MpscQueue.DropBox(i))
    ensures Refines(s, MpscQueue.DropBox(i), l)
  {
    var slot := s.slots[i];
    SlotUpdate(s.slots, i, slot.(box := MpscQueue.Vacated, phase := MpscQueue.Vacating(slot.phase.lap)), l);
  }

  lemma {:induction false} ReleaseRefines(s: Queue, i: nat, l: Layout)
    requires IsQueue(s, l) && MpscQueue.Enabled(s, MpscQueue.Release(i))
    requires MpscQueue.PositionsOk(s)
    ensures Refines(s, MpscQueue.Release(i), l)
  {
    var slot, lap := s.slots[i], s.slots[i].phase.lap + 1;
    SlotUpdate(s.slots, i, slot.(stamp := MpscQueue.Stamp(lap, false), phase := MpscQueue.Open(lap)), l);
  }

  lemma {:induction false} CloseRefines(s: Queue, l: Layout)
    requires IsQueue(s, l) && MpscQueue.Enabled(s, MpscQueue.Close)
    ensures Refines(s, MpscQueue.Close, l)
  {
    SetsFlag(s.enq, s.closed, l.n, l.m, |s.slots|);
  }

  predicate IsInside(pc: Producer) {
    pc.Loaded? || pc.Matched? || pc.Writing? || pc.Stamping?
  }

  lemma {:induction false} IsAtAgrees(s: Queue, p: nat, l: Layout)
    requires IsQueue(s, l) && MpscQueue.ProducerOk(s, p)
    ensures IsAt(WordsOf(s, l), p, l) <==> p < |s.producers| && IsInside(s.producers[p])
  {
    if p < |s.producers| && IsInside(s.producers[p]) {
      IndexIs(s.producers[p].e, l, |s.slots|);
    }
  }

  lemma {:induction false} PushEnabledAgrees(s: Queue, step: Step, l: Layout)
    requires IsQueue(s, l) && s.enq.idx < |s.slots| && MpscQueue.IsProducerStep(step) && MpscQueue.ProducerOk(s, step.p)
    ensures Enabled(WordsOf(s, l), step, l) <==> MpscQueue.Enabled(s, step)
  {
    IsAtAgrees(s, step.p, l);
  }

  /** A step is enabled on the words of a queue if and only if it is enabled on the queue. */
  lemma {:induction false} EnabledAgrees(s: Queue, step: Step, l: Layout)
    requires IsQueue(s, l) && MpscRuns.Inv(s)
    ensures Enabled(WordsOf(s, l), step, l) <==> MpscQueue.Enabled(s, step)
  {
    if MpscQueue.IsProducerStep(step) {
      assert MpscQueue.ProducerOk(s, step.p);
      PushEnabledAgrees(s, step, l);
    } else {
      IndexIs(s.deq, l, |s.slots|);
    }
  }

  /** An access on words does to the words what the step does to the queue, exactly if its producer is not misled. */
  lemma {:induction false} StepRefines(s: Queue, step: Step, l: Layout)
    requires IsQueue(s, l) && l.m > 0 && MpscRuns.Inv(s) && MpscQueue.Enabled(s, step)
    ensures Refines(s, step, l) <==> IsFresh(s, step, l)
  {
    assert MpscQueue.SlotOk(s, s.deq.idx);
    if MpscQueue.IsProducerStep(step) {
      assert MpscQueue.ProducerOk(s, step.p);
    }
    match step
    case Call(p, m) => CallRefines(s, p, m, l);
    case LoadPos(p) => LoadPosRefines(s, p, l);
    case LoadStamp(p) => LoadStampRefines(s, p, l);
    case Cas(p, spurious) => CasRefines(s, p, spurious, l);
    case Write(p) => WriteRefines(s, p, l);
    case Publish(p) => PublishRefines(s, p, l);
    case PopStart => PopStartRefines(s, l);
    case PopTake => PopTakeRefines(s, l);
    case PopCheck => PopCheckRefines(s, l);
    case DropBox(i) => DropBoxRefines(s, i, l);
    case Release(i) => ReleaseRefines(s, i, l);
    case Close => CloseRefines(s, l);
  }

  /** A producer that sleeps through less than half of the laps that a word can tell apart is not misled. */
  lemma {:induction false} SleeperIsFresh(s: Queue, step: Step, l: Layout)
    requires MpscRuns.Inv(s) && MpscQueue.Enabled(s, step) && l.m > 0
    requires step.LoadStamp? || step.Cas? ==> s.enq.lap + 1 < s.producers[step.p].e.lap + Pow2(l.m - 1)
    ensures IsFresh(s, step, l)
  {
    if step.LoadStamp? || step.Cas? {
      var e := s.producers[step.p].e;
      assert MpscQueue.ProducerOk(s, step.p);
      if step.LoadStamp? {
        var stamp := s.slots[e.idx].stamp;
        StampNear(s, step.p);
        if stamp.lap > e.lap {
          SmallRemainder(stamp.lap - e.lap, stamp.lap - e.lap, 0, Pow2(l.m));
        }
      } else if s.enq.lap > e.lap {
        SmallRemainder(s.enq.lap - e.lap, s.enq.lap - e.lap, 0, Pow2(l.m));
      }
    }
  }

  // ----- Runs -----

  /** No producer of the run is misled by the words it loaded. */
  predicate StaysFresh(s: Queue, steps: seq<Step>, l: Layout)
    decreases |steps|
  {
    steps != [] && MpscQueue.Enabled(s, steps[0]) ==>
      IsFresh(s, steps[0], l) && StaysFresh(MpscQueue.Apply(s, steps[0]), steps[1..], l)
  }

  /** The steps are a run on the words if and only if they are one of the queue, and both lead to the same. */
  predicate RunsAgree(s: Queue, w: WordState, steps: seq<Step>, l: Layout) {
    && (IsRun(w, steps, l) <==> MpscQueue.IsRun(s, steps))
    && (IsRun(w, steps, l) ==>
          IsQueue(MpscQueue.After(s, steps), l) && After(w, steps, l) == WordsOf(MpscQueue.After(s, steps), l))
  }

  /** The runs on words are the runs of the queue, and lead to the words of the states these lead to. */
  lemma {:induction false} RunRefines(s: Queue, steps: seq<Step>, l: Layout)
    requires IsQueue(s, l) && l.m > 0 && (s.fault || MpscRuns.Inv(s)) && StaysFresh(s, steps, l)
    ensures RunsAgree(s, WordsOf(s, l), steps, l)
    decreases |steps|
  {
    if steps != [] && !s.fault {
      EnabledAgrees(s, steps[0], l);
      if MpscQueue.Enabled(s, steps[0]) {
        StepRefines(s, steps[0], l);
        MpscRuns.StepKeepsInv(s, steps[0]);
        RunRefines(MpscQueue.Apply(s, steps[0]), steps[1..], l);
      }
    }
  }

  /** A step moves the enqueue position by one lap at most. */
  lemma {:induction false} LapGrows(s: Queue, step: Step)
    requires MpscQueue.Enabled(s, step)
    ensures MpscQueue.Apply(s, step).enq.lap <= s.enq.lap + 1
  {
  }

  lemma {:induction false} ShortRunIsFresh(s: Queue, steps: seq<Step>, l: Layout)
    requires l.m > 0 && (s.fault || MpscRuns.Inv(s)) && s.enq.lap + |steps| < Pow2(l.m - 1)
    ensures StaysFresh(s, steps, l)
    decreases |steps|
  {
    if steps != [] && MpscQueue.Enabled(s, steps[0]) {
      LapGrows(s, steps[0]);
      SleeperIsFresh(s, steps[0], l);
      MpscRuns.StepKeepsInv(s, steps[0]);
      ShortRunIsFresh(MpscQueue.Apply(s, steps[0]), steps[1..], l);
    }
  }

  lemma {:induction false} ShortRunRefines(s: Queue, w: WordState, steps: seq<Step>, l: Layout)
    requires IsQueue(s, l) && l.m > 0 && MpscRuns.Inv(s) && s.enq.lap + |steps| < Pow2(l.m - 1) && w == WordsOf(s, l)
    ensures RunsAgree(s, w, steps, l)
  {
    ShortRunIsFresh(s, steps, l);
    RunRefines(s, steps, l);
  }

  /** The runs of a new queue on words are those of the model while they have fewer steps than half of the laps. */
  lemma {:induction false} NewRunRefines(capacity: nat, producers: nat, steps: seq<Step>, l: Layout)
    requires IsLayout(capacity, l.n) && l.m > 0 && |steps| < Pow2(l.m - 1)
    ensures RunsAgree(MpscQueue.New(capacity, producers), New(capacity, producers), steps, l)
  {
    MpscRuns.NewIsOk(capacity, producers);
    NewWords(capacity, producers, l);
    ShortRunRefines(MpscQueue.New(capacity, producers), New(capacity, producers), steps, l);
  }

  // ----- A producer that sleeps too long -----

  /** One slot, open at lap `k`, and producer 0 about to move the enqueue position from lap 0. */
  ghost predicate IsAsleep(s: Queue, k: nat) {
    && MpscRuns.Reachable(s) && |s.slots| == 1 && |s.producers| == 2 && !s.closed
    && s.enq == MpscQueue.Pos(k, 0) && s.slots[0].phase == MpscQueue.Open(k)
    && s.producers[0] == MpscQueue.Matched(MpscQueue.Pos(0, 0), 7)
    && (s.producers[1].Idle? || s.producers[1].PushedOk?)
    && !s.consumer.Taking? && !s.consumer.Checking?
  }

  lemma {:induction false} FallsAsleep() returns (s: Queue)
    ensures IsAsleep(s, 0)
  {
    s := MpscQueue.New(1, 2);
    MpscRuns.NewIsReachable(1, 2);
    s := MpscRuns.ReachableSteps(s, MpscQueue.Call(0, 7));
    s := MpscRuns.ReachableSteps(s, MpscQueue.LoadPos(0));
    s := MpscRuns.ReachableSteps(s, MpscQueue.LoadStamp(0));
  }

  /** A held message is given back. */
  lemma {:induction false} GivesBack(s: Queue, i: nat) returns (t: Queue)
    requires MpscRuns.Reachable(s) && s.enq.idx < |s.slots| && s.deq.idx < |s.slots|
    requires i < |s.slots| && s.slots[i].phase.Held?
    ensures MpscRuns.Reachable(t)
    ensures |t.slots| == |s.slots| && t.slots[i].phase == MpscQueue.Open(s.slots[i].phase.lap + 1)
    ensures t.enq == s.enq && t.closed == s.closed && t.producers == s.producers && t.consumer == s.consumer
  {
    t := MpscRuns.ReachableSteps(s, MpscQueue.DropBox(i));
    t := MpscRuns.ReachableSteps(t, MpscQueue.Release(i));
  }

  /** Producer 1 pushes a message, and the consumer pops it and gives it back. */
  lemma {:induction false} SleepsOn(s: Queue, k: nat) returns (t: Queue)
    requires IsAsleep(s, k)
    ensures IsAsleep(t, k + 1)
  {
    t := MpscRuns.PushRuns(s, 1, 8);
    MpscRuns.ReachableIsOk(t);
    assert MpscQueue.SlotOk(t, 0);
    t := MpscRuns.PopRuns(t);
    MpscRuns.ReachableIsOk(t);
    t := GivesBack(t, 0);
  }

  lemma {:induction false} SleepsThrough(k: nat) returns (s: Queue)
    ensures IsAsleep(s, k)
  {
    if k == 0 {
      s := FallsAsleep();
    } else {
      s := SleepsThrough(k - 1);
      s := SleepsOn(s, k - 1);
    }
  }

  /** However many bits the lap has, a run of a queue with one slot in which a producer is misled. */
  lemma {:induction false} SleeperIsMisled(m: nat) returns (s: Queue, l: Layout, step: Step)
    requires m > 0
    ensures l.m == m && MpscRuns.Reachable(s) && IsQueue(s, l) && MpscQueue.Enabled(s, step) && !Refines(s, step, l)
  {
    l, step := Layout(0, m), MpscQueue.Cas(0, false);
    s := SleepsThrough(Pow2(m));
    MpscRuns.ReachableIsOk(s);
    SmallRemainder(Pow2(m), 0, 1, Pow2(m));
    StepRefines(s, step, l);
  }
}
