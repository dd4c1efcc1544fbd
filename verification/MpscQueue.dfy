/**
  The bounded queue of a channel: any number of producers, one consumer, one atomic access per step.

  A position is a lap over the buffer and an index. A slot carries a stamp: the position at which
  it may be written, or that position plus one when the message was written. Positions are
  unbounded here; `MpscWordRuns` relates them to machine words. The consumer may hold any number of
  borrowed messages; a violated assertion or an arm declared unreachable sets `fault`, after which
  nothing happens.
*/
module MpscQueue {

  type Msg = nat

  datatype Pos = Pos(lap: nat, idx: nat)

  /** The stamp of a slot, which also encodes the index of the slot. */
  datatype Stamp = Stamp(lap: nat, full: bool)

  datatype Box = Vacated | Populated(m: Msg) | NoBox

  /** What happens to a slot (auxiliary), with the lap it happens at; a borrow remembers its slot and lap. */
  datatype Phase =
    | Open(lap: nat)                   // may be reserved
    | Reserved(lap: nat, p: nat)       // producer `p` is to write the message
    | Written(lap: nat, p: nat)        // producer `p` is to update the stamp
    | Ready(lap: nat)                  // may be popped
    | Held(lap: nat)                   // borrowed by the consumer
    | Vacating(lap: nat)               // the borrow is being dropped

  /** A slot; `ticket` (auxiliary) is the rank of the last push that reserved it. */
  datatype Slot = Slot(stamp: Stamp, box: Box, phase: Phase, ticket: nat)

  datatype Producer =
    | Idle
    | Calling(m: Msg)                  // about to load the enqueue position
    | Loaded(e: Pos, m: Msg)           // about to load the stamp
    | Matched(e: Pos, m: Msg)          // about to move the enqueue position
    | Writing(e: Pos, m: Msg)
    | Stamping(e: Pos, m: Msg)
    | PushedOk | PushedFull | PushedClosed

  datatype Consumer = Away | Taking | Checking | GotMessage | GotEmpty | GotClosed

  datatype State = State(
    slots: seq<Slot>,
    enq: Pos,
    closed: bool,                      // the flag held in the enqueue position
    deq: Pos,
    producers: seq<Producer>,
    consumer: Consumer,
    log: seq<Msg>,                     // auxiliary: the messages pushed, in the order of their reservation
    popped: seq<Msg>,                  // auxiliary: the messages popped
    fault: bool)

  datatype Step =
    | Call(p: nat, m: Msg)
    | LoadPos(p: nat)
    | LoadStamp(p: nat)
    | Cas(p: nat, spurious: bool)
    | Write(p: nat)
    | Publish(p: nat)
    | PopStart
    | PopTake
    | PopCheck
    | DropBox(i: nat)
    | Release(i: nat)
    | Close

  function New(capacity: nat, producers: nat): State {
    State(seq(capacity, i => Slot(Stamp(0, false), Vacated, Open(0), 0)), Pos(0, 0), false, Pos(0, 0),
          seq(producers, p => Idle), Away, [], [], false)
  }

  /** The next position: the index wraps to 0 at the end of the buffer. */
  function Next(pos: Pos, capacity: nat): Pos {
    if pos.idx + 1 < capacity then Pos(pos.lap, pos.idx + 1) else Pos(pos.lap + 1, 0)
  }

  predicate IsProducerStep(step: Step) {
    step.Call? || step.LoadPos? || step.LoadStamp? || step.Cas? || step.Write? || step.Publish?
  }

  predicate Enabled(s: State, step: Step) {
    && !s.fault && s.enq.idx < |s.slots| && s.deq.idx < |s.slots|
    && match step
       case Call(p, m) =>
         p < |s.producers| && (var pc := s.producers[p]; pc.Idle? || pc.PushedOk? || pc.PushedFull? || pc.PushedClosed?)
       case LoadPos(p) => p < |s.producers| && s.producers[p].Calling?
       case LoadStamp(p) => p < |s.producers| && s.producers[p].Loaded? && s.producers[p].e.idx < |s.slots|
       case Cas(p, spurious) => p < |s.producers| && s.producers[p].Matched? && s.producers[p].e.idx < |s.slots|
       case Write(p) => p < |s.producers| && s.producers[p].Writing? && s.producers[p].e.idx < |s.slots|
       case Publish(p) => p < |s.producers| && s.producers[p].Stamping? && s.producers[p].e.idx < |s.slots|
       case PopStart => !s.consumer.Taking? && !s.consumer.Checking?
       case PopTake => s.consumer.Taking?
       case PopCheck => s.consumer.Checking?
       case DropBox(i) => i < |s.slots| && s.slots[i].phase.Held?
       case Release(i) => i < |s.slots| && s.slots[i].phase.Vacating?
       case Close => true
  }

  function Goto(s: State, p: nat, pc: Producer): State
    requires p < |s.producers|
  {
    s.(producers := s.producers[p := pc])
  }

  function SetSlot(s: State, i: nat, slot: Slot): State
    requires i < |s.slots|
  {
    s.(slots := s.slots[i := slot])
  }

  function ApplyProducer(s: State, step: Step): State
    requires Enabled(s, step) && IsProducerStep(step)
  {
    var pc := s.producers[step.p];
    match step
    case Call(p, m) => Goto(s, p, Calling(m))
    case LoadPos(p) => Goto(s, p, if s.closed then PushedClosed else Loaded(s.enq, pc.m))
    case LoadStamp(p) =>
      var stamp := s.slots[pc.e.idx].stamp;
      Goto(s, p, if stamp == Stamp(pc.e.lap, false) then Matched(pc.e, pc.m)
                 else if stamp.lap < pc.e.lap then PushedFull
                 else Calling(pc.m))
    case Cas(p, spurious) =>
      if s.enq == pc.e && !s.closed && !spurious then
        var i := pc.e.idx;
        var slot := s.slots[i].(phase := Reserved(pc.e.lap, p), ticket := |s.log|);
        SetSlot(Goto(s, p, Writing(pc.e, pc.m)), i, slot).(enq := Next(s.enq, |s.slots|), log := s.log + [pc.m])
      else
        Goto(s, p, if s.closed then PushedClosed else Loaded(s.enq, pc.m))
    case Write(p) =>
      var i := pc.e.idx;
      SetSlot(Goto(s, p, Stamping(pc.e, pc.m)), i, s.slots[i].(box := Populated(pc.m), phase := Written(pc.e.lap, p)))
      .(fault := !s.slots[i].box.Vacated?)
    case Publish(p) =>
      var i := pc.e.idx;
      SetSlot(Goto(s, p, PushedOk), i, s.slots[i].(stamp := Stamp(pc.e.lap, true), phase := Ready(pc.e.lap)))
  }

  function ApplyConsumer(s: State, step: Step): State
    requires Enabled(s, step) && !IsProducerStep(step)
  {
    var i := s.deq.idx;
    match step
    case PopStart =>
      if s.slots[i].stamp == Stamp(s.deq.lap, false) then s.(consumer := Checking)
      else s.(consumer := Taking, fault := s.slots[i].stamp != Stamp(s.deq.lap, true))
    case PopTake =>
      match s.slots[i].box {
        case Populated(m) =>
          SetSlot(s, i, s.slots[i].(box := NoBox, phase := Held(s.deq.lap)))
          .(deq := Next(s.deq, |s.slots|), consumer := GotMessage, popped := s.popped + [m])
        case _ => s.(fault := true)
      }
    case PopCheck => s.(consumer := if s.closed && s.enq == s.deq then GotClosed else GotEmpty)
    case DropBox(i) => SetSlot(s, i, s.slots[i].(box := Vacated, phase := Vacating(s.slots[i].phase.lap)))
    case Release(i) =>
      var lap := s.slots[i].phase.lap + 1;
      SetSlot(s, i, s.slots[i].(stamp := Stamp(lap, false), phase := Open(lap)))
    case Close => s.(closed := true)
  }

  function Apply(s: State, step: Step): State
    requires Enabled(s, step)
  {
    if IsProducerStep(step) then ApplyProducer(s, step) else ApplyConsumer(s, step)
  }

  predicate IsRun(s: State, steps: seq<Step>)
    decreases |steps|
  {
    steps == [] || (Enabled(s, steps[0]) && IsRun(Apply(s, steps[0]), steps[1..]))
  }

  function After(s: State, steps: seq<Step>): State
    requires IsRun(s, steps)
    decreases |steps|
  {
    if steps == [] then s else After(Apply(s, steps[0]), steps[1..])
  }

  // ----- The invariant -----

  /** The first lap at which slot `i` lies at or after `pos`. */
  function LapFrom(pos: Pos, i: nat): nat {
    if i < pos.idx then pos.lap + 1 else pos.lap
  }

  /** How many positions the slot `i` is after `pos`. */
  function Distance(pos: Pos, i: nat, capacity: nat): int {
    if i < pos.idx then capacity - pos.idx + i else i - pos.idx
  }

  /** The number of items, as computed from the two positions. */
  function Len(s: State): int {
    s.enq.idx + (if s.enq.lap != s.deq.lap then |s.slots| else 0) - s.deq.idx
  }

  /** The enqueue position is at most one lap ahead of the dequeue position. */
  predicate PositionsOk(s: State) {
    && s.enq.idx < |s.slots| && s.deq.idx < |s.slots|
    && ((s.enq.lap == s.deq.lap && s.deq.idx <= s.enq.idx) || (s.enq.lap == s.deq.lap + 1 && s.enq.idx <= s.deq.idx))
    && |s.log| == |s.popped| + Len(s) && s.popped <= s.log
    && (s.consumer.Taking? ==> s.slots[s.deq.idx].phase == Ready(s.deq.lap))
  }

  /** The slot was reserved for its next lap and not popped yet. */
  predicate Busy(phase: Phase) {
    phase.Reserved? || phase.Written? || phase.Ready?
  }

  /** The stamp and the box of a slot agree with what happens to it. */
  predicate SlotShape(slot: Slot) {
    match slot.phase
    case Open(lap) => slot.stamp == Stamp(lap, false) && slot.box.Vacated?
    case Reserved(lap, p) => slot.stamp == Stamp(lap, false) && slot.box.Vacated?
    case Written(lap, p) => slot.stamp == Stamp(lap, false) && slot.box.Populated?
    case Ready(lap) => slot.stamp == Stamp(lap, true) && slot.box.Populated?
    case Held(lap) => slot.stamp == Stamp(lap, true)
    case Vacating(lap) => slot.stamp == Stamp(lap, true) && slot.box.Vacated?
  }

  /** The lap of a slot follows from the two positions, and its message is that of its push. */
  predicate SlotOk(s: State, i: nat) {
    i < |s.slots| ==>
      var slot := s.slots[i];
      var lap := slot.phase.lap;
      && SlotShape(slot)
      && (if Busy(slot.phase) then LapFrom(s.deq, i) == lap && LapFrom(s.enq, i) == lap + 1
          else if slot.phase.Open? then LapFrom(s.deq, i) == lap && LapFrom(s.enq, i) == lap
          else LapFrom(s.deq, i) == lap + 1 && LapFrom(s.enq, i) == lap + 1)
      && (Busy(slot.phase) ==>
           && slot.ticket == |s.popped| + Distance(s.deq, i, |s.slots|) < |s.log|
           && (slot.box.Populated? ==> slot.box.m == s.log[slot.ticket]))
  }

  predicate AtMost(a: Pos, b: Pos) {
    a.lap < b.lap || (a.lap == b.lap && a.idx <= b.idx)
  }

  /** What a producer knows. */
  predicate ProducerOk(s: State, p: nat) {
    p < |s.producers| ==>
      match s.producers[p]
      case Loaded(e, m) => e.idx < |s.slots| && AtMost(e, s.enq)
      case Matched(e, m) =>
        e.idx < |s.slots| && AtMost(e, s.enq) && (s.enq == e ==> s.slots[e.idx].phase == Open(e.lap))
      case Writing(e, m) =>
        e.idx < |s.slots| && s.slots[e.idx].phase == Reserved(e.lap, p)
        && s.slots[e.idx].ticket < |s.log| && s.log[s.slots[e.idx].ticket] == m
      case Stamping(e, m) => e.idx < |s.slots| && s.slots[e.idx].phase == Written(e.lap, p)
      case _ => true
  }

  lemma {:induction false} ProducerKeepsPositions(s: State, step: Step)
    requires PositionsOk(s) && Enabled(s, step) && IsProducerStep(step)
    requires ProducerOk(s, step.p) && SlotOk(s, s.enq.idx)
    ensures PositionsOk(ApplyProducer(s, step))
  {
  }

  lemma {:induction false} ProducerKeepsSlot(s: State, step: Step, i: nat)
    requires PositionsOk(s) && Enabled(s, step) && IsProducerStep(step)
    requires ProducerOk(s, step.p) && SlotOk(s, i)
    ensures SlotOk(ApplyProducer(s, step), i)
  {
  }

  lemma {:induction false} ProducerKeepsProducer(s: State, step: Step, q: nat)
    requires PositionsOk(s) && Enabled(s, step) && IsProducerStep(step)
    requires ProducerOk(s, step.p) && ProducerOk(s, q)
    requires step.LoadStamp? ==> SlotOk(s, s.producers[step.p].e.idx)
    ensures ProducerOk(ApplyProducer(s, step), q)
  {
  }

  lemma {:induction false} ConsumerKeepsPositions(s: State, step: Step)
    requires PositionsOk(s) && Enabled(s, step) && !IsProducerStep(step) && !Apply(s, step).fault
    requires SlotOk(s, s.deq.idx)
    ensures PositionsOk(ApplyConsumer(s, step))
  {
  }

  lemma {:induction false} PopKeepsSlot(s: State, i: nat)
    requires PositionsOk(s) && Enabled(s, PopTake) && !Apply(s, PopTake).fault && SlotOk(s, i) && SlotOk(s, s.deq.idx)
    ensures SlotOk(ApplyConsumer(s, PopTake), i)
  {
  }

  lemma {:induction false} ConsumerKeepsSlot(s: State, step: Step, i: nat)
    requires PositionsOk(s) && Enabled(s, step) && !IsProducerStep(step) && !Apply(s, step).fault
    requires SlotOk(s, i) && SlotOk(s, s.deq.idx)
    ensures SlotOk(ApplyConsumer(s, step), i)
  {
    if step.PopTake? {
      PopKeepsSlot(s, i);
    }
  }

  lemma {:induction false} ConsumerKeepsProducer(s: State, step: Step, q: nat)
    requires PositionsOk(s) && Enabled(s, step) && !IsProducerStep(step) && ProducerOk(s, q)
    ensures ProducerOk(ApplyConsumer(s, step), q)
  {
  }

  /** Only a pop of a slot that is still borrowed fails, and it always does. */
  lemma {:induction false} FaultsExactlyOnBorrowedSlot(s: State, step: Step)
    requires PositionsOk(s) && Enabled(s, step) && SlotOk(s, s.deq.idx)
    requires IsProducerStep(step) ==> ProducerOk(s, step.p) && (step.Write? ==> SlotOk(s, s.producers[step.p].e.idx))
    ensures Apply(s, step).fault <==>
      step.PopStart? && (s.slots[s.deq.idx].phase.Held? || s.slots[s.deq.idx].phase.Vacating?)
  {
  }
}
