/**
  The bounded queue of a channel on machine words: the machine of `MpscQueue` with every position and
  stamp held as the word that the source keeps, and every decision taken on words as the source takes
  it. The steps are those of `MpscQueue`.
*/
module MpscWordQueue {
  import opened Options
  import opened Words
  import opened MpscWord
  import MpscQueue

  type Step = MpscQueue.Step
  type Msg = MpscQueue.Msg
  type Box = MpscQueue.Box

  /** A word has `n` index bits, the flag bit, and `m` bits for the lap. */
  datatype Layout = Layout(n: nat, m: nat)

  /** A producer, with the words it has loaded. */
  datatype Push =
    | Idle
    | Calling(msg: Msg)
    | Loaded(enq: nat, msg: Msg)
    | Matched(enq: nat, stamp: nat, msg: Msg)
    | Writing(enq: nat, stamp: nat, msg: Msg)
    | Stamping(enq: nat, stamp: nat, msg: Msg)
    | PushedOk | PushedFull | PushedClosed

  /** The consumer, with the stamp it has loaded. */
  datatype Pop = Away | Taking(stamp: nat) | Checking | GotMessage | GotEmpty | GotClosed

  /** A borrowed message, with the stamp that releases its slot. */
  datatype Borrow = Borrow(stamp: nat, dropped: bool)

  datatype WordState = WordState(
    enq: nat,
    deq: nat,
    stamps: seq<nat>,
    boxes: seq<Box>,
    borrows: seq<Option<Borrow>>,
    pushes: seq<Push>,
    pop: Pop,
    fault: bool)

  function New(capacity: nat, producers: nat): WordState {
    WordState(0, 0, seq(capacity, i => i), seq(capacity, i => MpscQueue.Vacated), seq(capacity, i => None),
              seq(producers, p => Idle), Away, false)
  }

  function Width(l: Layout): nat {
    l.m + (l.n + 1)
  }

  function Index(word: nat, l: Layout): nat {
    And(word, RightMask(l.n))
  }

  /** Producer `p` is at a point of `push` where it accesses the slot of the position it loaded. */
  predicate IsAt(w: WordState, p: nat, l: Layout) {
    && p < |w.pushes|
    && (var push := w.pushes[p];
        && (push.Loaded? || push.Matched? || push.Writing? || push.Stamping?)
        && Index(push.enq, l) < |w.stamps|)
  }

  predicate IsReady(push: Push) {
    push.Idle? || push.PushedOk? || push.PushedFull? || push.PushedClosed?
  }

  predicate Enabled(w: WordState, step: Step, l: Layout) {
    && !w.fault && |w.boxes| == |w.stamps| && |w.borrows| == |w.stamps|
    && match step
       case Call(p, m) => p < |w.pushes| && IsReady(w.pushes[p])
       case LoadPos(p) => p < |w.pushes| && w.pushes[p].Calling?
       case LoadStamp(p) => IsAt(w, p, l) && w.pushes[p].Loaded?
       case Cas(p, spurious) => IsAt(w, p, l) && w.pushes[p].Matched?
       case Write(p) => IsAt(w, p, l) && w.pushes[p].Writing?
       case Publish(p) => IsAt(w, p, l) && w.pushes[p].Stamping?
       case PopStart => !w.pop.Taking? && !w.pop.Checking? && Index(w.deq, l) < |w.stamps|
       case PopTake => w.pop.Taking? && Index(w.deq, l) < |w.stamps|
       case PopCheck => w.pop.Checking?
       case DropBox(i) => i < |w.stamps| && w.borrows[i].Some? && !w.borrows[i].value.dropped
       case Release(i) => i < |w.stamps| && w.borrows[i].Some? && w.borrows[i].value.dropped
       case Close => true
  }

  function Goto(w: WordState, p: nat, push: Push): WordState
    requires p < |w.pushes|
  {
    w.(pushes := w.pushes[p := push])
  }

  /** A turn of the loop of `push` starts with the enqueue word just loaded. */
  function Turn(enq: nat, msg: Msg, l: Layout): Push {
    if And(enq, Pow2(l.n)) != 0 then PushedClosed else Loaded(enq, msg)
  }

  /** The outcome of the comparison of the stamp with the enqueue word. */
  function Compared(stamp: nat, push: Push, l: Layout): Push
    requires push.Loaded?
  {
    var delta := SignedDifference(stamp, push.enq, Width(l));
    if delta == 0 then Matched(push.enq, stamp, push.msg)
    else if delta < 0 then PushedFull
    else Calling(push.msg)
  }

  function ApplyPush(w: WordState, step: Step, l: Layout): WordState
    requires Enabled(w, step, l) && MpscQueue.IsProducerStep(step)
  {
    var push := w.pushes[step.p];
    match step
    case Call(p, m) => Goto(w, p, Calling(m))
    case LoadPos(p) => Goto(w, p, Turn(w.enq, push.msg, l))
    case LoadStamp(p) => Goto(w, p, Compared(w.stamps[Index(push.enq, l)], push, l))
    case Cas(p, spurious) =>
      if w.enq == push.enq && !spurious then
        Goto(w, p, Writing(push.enq, push.stamp, push.msg)).(enq := NextWord(push.enq, l.n, l.m, |w.stamps|))
      else
        Goto(w, p, Turn(w.enq, push.msg, l))
    case Write(p) =>
      var i := Index(push.enq, l);
      Goto(w, p, Stamping(push.enq, push.stamp, push.msg))
      .(boxes := w.boxes[i := MpscQueue.Populated(push.msg)], fault := !w.boxes[i].Vacated?)
    case Publish(p) =>
      Goto(w, p, PushedOk).(stamps := w.stamps[Index(push.enq, l) := (push.stamp + 1) % Pow2(Width(l))])
  }

  function ApplyPop(w: WordState, step: Step, l: Layout): WordState
    requires Enabled(w, step, l) && !MpscQueue.IsProducerStep(step)
  {
    match step
    case PopStart =>
      var stamp := w.stamps[Index(w.deq, l)];
      if w.deq == stamp then w.(pop := Checking) else w.(pop := Taking(stamp), fault := stamp != w.deq + 1)
    case PopTake =>
      var i := Index(w.deq, l);
      if w.boxes[i].Populated? then
        w.(deq := NextWord(w.deq, l.n, l.m, |w.stamps|), boxes := w.boxes[i := MpscQueue.NoBox], pop := GotMessage,
           borrows := w.borrows[i := Some(Borrow((w.pop.stamp + RightMask(l.n)) % Pow2(Width(l)), false))])
      else
        w.(fault := true)
    case PopCheck => w.(pop := if w.enq == Or(w.deq, Pow2(l.n)) then GotClosed else GotEmpty)
    case DropBox(i) =>
      w.(boxes := w.boxes[i := MpscQueue.Vacated],
         borrows := w.borrows[i := Some(Borrow(w.borrows[i].value.stamp, true))])
    case Release(i) => w.(stamps := w.stamps[i := w.borrows[i].value.stamp], borrows := w.borrows[i := None])
    case Close => w.(enq := Or(w.enq, Pow2(l.n)))
  }

  function Apply(w: WordState, step: Step, l: Layout): WordState
    requires Enabled(w, step, l)
  {
    if MpscQueue.IsProducerStep(step) then ApplyPush(w, step, l) else ApplyPop(w, step, l)
  }

  predicate IsRun(w: WordState, steps: seq<Step>, l: Layout)
    decreases |steps|
  {
    steps == [] || (Enabled(w, steps[0], l) && IsRun(Apply(w, steps[0], l), steps[1..], l))
  }

  function After(w: WordState, steps: seq<Step>, l: Layout): WordState
    requires IsRun(w, steps, l)
    decreases |steps|
  {
    if steps == [] then w else After(Apply(w, steps[0], l), steps[1..], l)
  }
}
