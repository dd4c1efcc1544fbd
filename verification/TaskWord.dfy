/**
  The packed state word of a task. Every atomic access of the source, written with its masks and
  its wrapping additions, does to the packed word what the task machine does to the four fields,
  and every test of the returned word decides what the machine decides.
*/
module TaskWord {
  import opened Words
  import TaskMachine

  type Fields = TaskMachine.Word

  const POLLING: nat := 0x1
  const CLOSED: nat := 0x2
  const REF_INC: nat := 0x4
  const WAKE_INC: nat := 0x2_0000_0000
  const REF_MASK: nat := 0x1_FFFF_FFFC
  const WAKE_MASK: nat := 0xFFFF_FFFE_0000_0000
  const REF_CRITICAL: nat := 0xFFFF_FFFC
  const WAKE_CRITICAL: nat := 0x7FFF_FFFE_0000_0000
  const U64: nat := 0x1_0000_0000_0000_0000

  /** The largest value of the wake count and of the reference count. */
  const MAX_COUNT: nat := 0x7FFF_FFFF

  predicate Fits(w: Fields) {
    w.wake <= MAX_COUNT && w.refs <= MAX_COUNT
  }

  function Low(w: Fields): nat {
    (if w.closed then CLOSED else 0) + (if w.polling then POLLING else 0)
  }

  function Pack(w: Fields): nat {
    w.wake * WAKE_INC + w.refs * REF_INC + Low(w)
  }

  function Unpack(s: nat): Fields {
    TaskMachine.Word(s / WAKE_INC, s % WAKE_INC / REF_INC, s / CLOSED % 2 == 1, s % 2 == 1)
  }

  lemma {:induction false} PackRoundTrip(w: Fields)
    requires Fits(w)
    ensures Pack(w) < U64 && Unpack(Pack(w)) == w
  {
    var s, r := Pack(w), w.refs * REF_INC + Low(w);
    assert s / WAKE_INC == w.wake && s % WAKE_INC == r;
    assert r / REF_INC == w.refs;
    FlagsOf(w.wake * (WAKE_INC / 4) + w.refs, w.closed, w.polling);
  }

  lemma {:induction false} FlagsOf(x: nat, closed: bool, polling: bool)
    ensures var s := 4 * x + (if closed then 2 else 0) + (if polling then 1 else 0);
            (s / 2 % 2 == 1 <==> closed) && (s % 2 == 1 <==> polling)
  {
  }

  lemma {:induction false} UnpackRoundTrip(s: nat)
    requires s < U64
    ensures Fits(Unpack(s)) && Pack(Unpack(s)) == s
  {
    var wake, r := s / WAKE_INC, s % WAKE_INC;
    var refs, low := r / REF_INC, r % REF_INC;
    assert s == wake * WAKE_INC + (refs * REF_INC + low);
    FlagsOf(wake * (WAKE_INC / 4) + refs, low >= 2, low == 1 || low == 3);
    assert Low(Unpack(s)) == low;
  }

  /** The constants as the source derives them. */
  lemma {:induction false} Constants()
    ensures REF_MASK == WAKE_INC - REF_INC && WAKE_MASK == U64 - WAKE_INC
    ensures REF_CRITICAL == And(REF_MASK / 2, REF_MASK) && WAKE_CRITICAL == And(WAKE_MASK / 2, WAKE_MASK)
  {
    var r := TaskMachine.Word(0, 0x3FFF_FFFF, true, false);
    assert Pack(r) == REF_MASK / 2 && And(Low(r), 0) == 0;
    MaskPacked(r, 0, true, false, 0);
    var w := TaskMachine.Word(0x3FFF_FFFF, 0x4000_0000, false, false);
    assert Pack(w) == WAKE_MASK / 2 && And(Low(w), 0) == 0;
    MaskPacked(w, 0, false, true, 0);
  }

  /** A mask made of flags and whole counters. */
  function Mask(low: nat, refs: bool, wake: bool): nat {
    low + (if refs then REF_MASK else 0) + (if wake then WAKE_MASK else 0)
  }

  lemma {:induction false} PowersUsed()
    ensures Pow2(2) == 4 && Pow2(31) == 0x8000_0000
  {
    assert Pow2(16) == 0x1_0000;
    assert Pow2(31) == 0x8000 * Pow2(16);
  }

  /** A word of two levels: low flags, then a counter of `k` bits, then another. */
  function Layered(n: nat, k: nat, low: nat, refs: nat, wake: nat): nat {
    low + Shl(refs + Shl(wake, k), n)
  }

  lemma {:induction false} LayeredValue(n: nat, k: nat, low: nat, refs: nat, wake: nat)
    ensures Layered(n, k, low, refs, wake) == low + Pow2(n) * (refs + Pow2(k) * wake)
  {
    ShlIsProduct(wake, k);
    ShlIsProduct(refs + Shl(wake, k), n);
  }

  lemma {:induction false} AndSplitsTo(n: nat, a: nat, b: nat, c: nat, d: nat, x: nat, m: nat)
    requires a < Pow2(n) && c < Pow2(n) && x == a + Shl(b, n) && m == c + Shl(d, n)
    ensures And(x, m) == And(a, c) + Shl(And(b, d), n)
  {
    AndSplits(n, a, b, c, d);
  }

  lemma {:induction false} MaskCounters(k: nat, refs: nat, wake: nat, mr: nat, mw: nat, u: nat, v: nat)
    requires refs < Pow2(k) && wake < Pow2(k) && (mr == 0 || mr == Pow2(k) - 1) && (mw == 0 || mw == Pow2(k) - 1)
    requires u == refs + Shl(wake, k) && v == mr + Shl(mw, k)
    ensures And(u, v) == (if mr == 0 then 0 else refs) + Shl(if mw == 0 then 0 else wake, k)
  {
    CounterMask(refs, mr, k);
    CounterMask(wake, mw, k);
    AndSplitsTo(k, refs, wake, mr, mw, u, v);
  }

  /** A counter mask is empty or full. */
  lemma {:induction false} MaskLayered(n: nat, k: nat, low: nat, refs: nat, wake: nat, ml: nat, mr: nat, mw: nat,
                                       x: nat, m: nat)
    requires low < Pow2(n) && ml < Pow2(n) && refs < Pow2(k) && wake < Pow2(k)
    requires (mr == 0 || mr == Pow2(k) - 1) && (mw == 0 || mw == Pow2(k) - 1)
    requires x == Layered(n, k, low, refs, wake) && m == Layered(n, k, ml, mr, mw)
    ensures And(x, m) == Layered(n, k, And(low, ml), if mr == 0 then 0 else refs, if mw == 0 then 0 else wake)
  {
    var u, v := refs + Shl(wake, k), mr + Shl(mw, k);
    MaskCounters(k, refs, wake, mr, mw, u, v);
    AndSplitsTo(n, low, u, ml, v, x, m);
  }

  lemma {:induction false} CounterMask(x: nat, m: nat, k: nat)
    requires x < Pow2(k) && (m == 0 || m == Pow2(k) - 1)
    ensures And(x, m) == if m == 0 then 0 else x
  {
    AndFullMask(x, k);
  }

  /** The layout of the source: two flags below two counters of 31 bits. */
  lemma {:induction false} SourceLayout(low: nat, refs: nat, wake: nat)
    ensures Layered(2, 31, low, refs, wake) == low + refs * REF_INC + wake * WAKE_INC
  {
    PowersUsed();
    LayeredValue(2, 31, low, refs, wake);
  }

  function CounterBits(kept: bool): nat {
    if kept then MAX_COUNT else 0
  }

  lemma {:induction false} MaskIsLayered(low: nat, refs: bool, wake: bool)
    ensures Mask(low, refs, wake) == Layered(2, 31, low, CounterBits(refs), CounterBits(wake))
  {
    SourceLayout(low, CounterBits(refs), CounterBits(wake));
  }

  /** Masking a packed word selects flags and counters. */
  lemma {:induction false} MaskPacked(w: Fields, low: nat, refs: bool, wake: bool, low': nat)
    requires Fits(w) && low < 4 && And(Low(w), low) == low'
    ensures And(Pack(w), Mask(low, refs, wake))
            == low' + (if refs then w.refs * REF_INC else 0) + (if wake then w.wake * WAKE_INC else 0)
  {
    PowersUsed();
    SourceLayout(Low(w), w.refs, w.wake);
    SourceLayout(low', if refs then w.refs else 0, if wake then w.wake else 0);
    MaskIsLayered(low, refs, wake);
    MaskLayered(2, 31, Low(w), w.refs, w.wake, low, CounterBits(refs), CounterBits(wake), Pack(w),
                Mask(low, refs, wake));
  }

  /** The flags of a word. */
  lemma {:induction false} FlagTests(w: Fields)
    ensures And(Low(w), POLLING) == (if w.polling then POLLING else 0)
    ensures And(Low(w), CLOSED) == (if w.closed then CLOSED else 0)
    ensures And(Low(w), CLOSED + POLLING) == Low(w) && And(Low(w), 0) == 0
  {
    assert And(3, 3) == 3 && And(3, 1) == 1 && And(3, 2) == 2 && And(2, 3) == 2 && And(1, 3) == 1;
    assert And(2, 1) == 0 && And(1, 2) == 0 && And(1, 1) == 1 && And(2, 2) == 2;
  }

  /** Every test of the source on a state word, in terms of its fields. */
  lemma {:induction false} WordTests(s: nat)
    requires s < U64
    ensures var w := Unpack(s);
            && Fits(w)
            && And(s, REF_MASK) == w.refs * REF_INC
            && And(s, WAKE_MASK) == w.wake * WAKE_INC
            && And(s, POLLING) == (if w.polling then POLLING else 0)
            && And(s, CLOSED) == (if w.closed then CLOSED else 0)
            && And(s, CLOSED + POLLING) == Low(w)
            && And(s, REF_MASK + POLLING) == w.refs * REF_INC + (if w.polling then POLLING else 0)
            && And(s, WAKE_MASK + CLOSED) == w.wake * WAKE_INC + (if w.closed then CLOSED else 0)
            && And(s, WAKE_MASK + CLOSED + POLLING) == w.wake * WAKE_INC + Low(w)
  {
    var w := Unpack(s);
    var p, c := if w.polling then POLLING else 0, if w.closed then CLOSED else 0;
    UnpackRoundTrip(s);
    FlagTests(w);
    MaskPacked(w, 0, true, false, 0);
    MaskPacked(w, 0, false, true, 0);
    MaskPacked(w, POLLING, false, false, p);
    MaskPacked(w, CLOSED, false, false, c);
    MaskPacked(w, CLOSED + POLLING, false, false, Low(w));
    MaskPacked(w, POLLING, true, false, p);
    MaskPacked(w, CLOSED, false, true, c);
    MaskPacked(w, CLOSED + POLLING, false, true, Low(w));
  }

  /** `s | flag` and `s & !flag`, by the identities `s + flag - (s & flag)` and `s - (s & flag)`. */
  function SetFlag(s: nat, flag: nat): nat
    requires And(s, flag) <= flag
  {
    s + flag - And(s, flag)
  }

  function ClearFlag(s: nat, flag: nat): nat
    requires And(s, flag) <= s
  {
    s - And(s, flag)
  }

  /** Wrapping addition and subtraction of 64-bit words. */
  function WrapAdd(s: nat, d: nat): nat {
    (s + d) % U64
  }

  function WrapSub(s: nat, d: nat): nat
    requires d <= U64
  {
    (s + U64 - d) % U64
  }

  /** `runnable_exists` on the packed word. */
  predicate RunnableExists(s: nat) {
    And(s, POLLING) != 0 && And(s, WAKE_MASK + CLOSED) != 0
  }

  /** Every decision of the source that depends on a state word it got back. */
  lemma {:induction false} Decisions(s: nat, w: Fields)
    requires s < U64 && w == Unpack(s)
    ensures And(s, REF_MASK) > REF_CRITICAL <==> w.refs > REF_CRITICAL / REF_INC
    ensures And(s, WAKE_MASK) > WAKE_CRITICAL <==> w.wake > WAKE_CRITICAL / WAKE_INC
    ensures And(s, WAKE_MASK + CLOSED + POLLING) == POLLING <==> w.polling && !w.closed && w.wake == 0
    ensures And(s, REF_MASK + POLLING) == REF_INC <==> w.refs == 1 && !w.polling
    ensures And(s, REF_MASK) == REF_INC <==> w.refs == 1
    ensures And(s, REF_MASK) == 0 <==> w.refs == 0
    ensures And(s, CLOSED) == (if w.closed then CLOSED else 0)
    ensures And(s, POLLING) == (if w.polling then POLLING else 0)
    ensures And(s, CLOSED + POLLING) == 0 <==> !w.polling && !w.closed
    ensures And(s, WAKE_MASK) == w.wake * WAKE_INC
    ensures RunnableExists(s) <==> TaskMachine.RunnableExists(w)
  {
    WordTests(s);
  }

  // The additions, on packed words.

  lemma {:induction false} AddRef(w: Fields)
    requires Fits(w) && w.refs < MAX_COUNT
    ensures WrapAdd(Pack(w), REF_INC) == Pack(w.(refs := w.refs + 1))
  {
  }

  lemma {:induction false} AddWake(w: Fields)
    requires Fits(w) && w.wake < MAX_COUNT
    ensures WrapAdd(Pack(w), WAKE_INC) == Pack(w.(wake := w.wake + 1))
  {
  }

  /** Adding `WAKE_INC - REF_INC` counts a wake and drops a reference. */
  lemma {:induction false} AddWakeLessRef(w: Fields)
    requires Fits(w) && w.wake < MAX_COUNT && w.refs > 0
    ensures WrapAdd(Pack(w), WAKE_INC - REF_INC) == Pack(w.(wake := w.wake + 1, refs := w.refs - 1))
  {
  }

  lemma {:induction false} SubRef(w: Fields)
    requires Fits(w) && w.refs > 0
    ensures WrapSub(Pack(w), REF_INC) == Pack(w.(refs := w.refs - 1))
  {
  }

  /** Subtracting the wake count read earlier leaves the wakes that came since. */
  lemma {:induction false} SubWakes(w: Fields, n: nat)
    requires Fits(w) && n <= w.wake
    ensures n * WAKE_INC <= U64 && WrapSub(Pack(w), n * WAKE_INC) == Pack(w.(wake := w.wake - n))
  {
  }

  /** What a change of a flag does to the packed fields. */
  lemma {:induction false} FlagChanges(w: Fields, closed: nat, polling: nat)
    requires Fits(w) && closed == (if w.closed then CLOSED else 0) && polling == (if w.polling then POLLING else 0)
    ensures Pack(w) + CLOSED - closed == Pack(w.(closed := true))
    ensures Pack(w) - polling == Pack(w.(polling := false))
  {
  }

  /** What every single change of a word does to its fields. */
  lemma {:induction false} Changes(s: nat, w: Fields)
    requires s < U64 && w == Unpack(s)
    ensures And(s, CLOSED) <= CLOSED && And(s, POLLING) <= s
    ensures w.refs < MAX_COUNT ==> IsWord(WrapAdd(s, REF_INC), w.(refs := w.refs + 1))
    ensures w.wake < MAX_COUNT ==> IsWord(WrapAdd(s, WAKE_INC), w.(wake := w.wake + 1))
    ensures w.wake < MAX_COUNT && w.refs > 0 ==>
              IsWord(WrapAdd(s, WAKE_INC - REF_INC), w.(wake := w.wake + 1, refs := w.refs - 1))
    ensures w.refs > 0 ==> IsWord(WrapSub(s, REF_INC), w.(refs := w.refs - 1))
    ensures IsWord(SetFlag(s, CLOSED), w.(closed := true))
    ensures IsWord(ClearFlag(s, POLLING), w.(polling := false))
  {
    UnpackRoundTrip(s);
    CountChanges(s, w);
    Decisions(s, w);
    FlagChanges(w, And(s, CLOSED), And(s, POLLING));
    PackRoundTrip(w.(closed := true));
    PackRoundTrip(w.(polling := false));
  }

  lemma {:induction false} CountChanges(s: nat, w: Fields)
    requires Fits(w) && s == Pack(w)
    ensures w.refs < MAX_COUNT ==> IsWord(WrapAdd(s, REF_INC), w.(refs := w.refs + 1))
    ensures w.wake < MAX_COUNT ==> IsWord(WrapAdd(s, WAKE_INC), w.(wake := w.wake + 1))
    ensures w.wake < MAX_COUNT && w.refs > 0 ==>
              IsWord(WrapAdd(s, WAKE_INC - REF_INC), w.(wake := w.wake + 1, refs := w.refs - 1))
    ensures w.refs > 0 ==> IsWord(WrapSub(s, REF_INC), w.(refs := w.refs - 1))
  {
    if w.refs < MAX_COUNT { AddRef(w); PackRoundTrip(w.(refs := w.refs + 1)); }
    if w.wake < MAX_COUNT { AddWake(w); PackRoundTrip(w.(wake := w.wake + 1)); }
    if w.wake < MAX_COUNT && w.refs > 0 {
      AddWakeLessRef(w);
      PackRoundTrip(w.(wake := w.wake + 1, refs := w.refs - 1));
    }
    if w.refs > 0 { SubRef(w); PackRoundTrip(w.(refs := w.refs - 1)); }
  }

  predicate IsWord(s: nat, w: Fields) {
    s < U64 && Unpack(s) == w
  }

  // ----- The updates of the word, each decided by tests on the word itself -----

  /** An atomic access that changes the word; `wakes` is a wake count read earlier, still shifted. */
  datatype Access =
    | AddReference
    | AddWake
    | AddWakeLessReference
    | SubtractReference
    | TakeOutput
    | CancelTask
    | SubtractWakeCount(wakes: nat)
    | PublishOutput
    | EndPolling
    | CloseTask

  function SetClosed(x: nat): nat
    requires x < U64
  {
    Changes(x, Unpack(x));
    SetFlag(x, CLOSED)
  }

  function ClearPolled(x: nat): nat
    requires x < U64
  {
    Changes(x, Unpack(x));
    ClearFlag(x, POLLING)
  }

  function Closed(x: nat): nat
    requires x < U64
  {
    Changes(x, Unpack(x));
    ClearPolled(SetClosed(x))
  }

  function Updated(x: nat, access: Access): nat
    requires x < U64 && (access.SubtractWakeCount? ==> access.wakes <= U64)
  {
    match access
    case AddReference => WrapAdd(x, REF_INC)
    case AddWake => WrapAdd(x, WAKE_INC)
    case AddWakeLessReference => WrapAdd(x, WAKE_INC - REF_INC)
    case SubtractReference => WrapSub(x, REF_INC)
    case TakeOutput => if And(x, CLOSED + POLLING) == 0 then SetClosed(x) else x
    case CancelTask =>
      if And(x, POLLING) == 0 then WrapSub(x, REF_INC)
      else if RunnableExists(x) then WrapSub(SetClosed(x), REF_INC)
      else Closed(x)
    case SubtractWakeCount(wakes) => WrapSub(x, wakes)
    case PublishOutput => if And(x, CLOSED) == CLOSED || And(x, REF_MASK) == 0 then x else ClearPolled(x)
    case EndPolling => ClearPolled(x)
    case CloseTask => Closed(x)
  }

  // What they do to the fields.

  lemma {:induction false} OutputTaken(x: nat, w: Fields)
    requires IsWord(x, w)
    ensures IsWord(Updated(x, TakeOutput), if !w.polling && !w.closed then w.(closed := true) else w)
  {
    Decisions(x, w);
    Changes(x, w);
  }

  lemma {:induction false} OutputPublished(x: nat, w: Fields)
    requires IsWord(x, w)
    ensures IsWord(Updated(x, PublishOutput), if w.closed || w.refs == 0 then w else w.(polling := false))
  {
    Decisions(x, w);
    Changes(x, w);
  }

  lemma {:induction false} PollingEnded(x: nat, w: Fields)
    requires IsWord(x, w)
    ensures IsWord(Updated(x, EndPolling), w.(polling := false))
  {
    Changes(x, w);
  }

  lemma {:induction false} TaskClosed(x: nat, w: Fields)
    requires IsWord(x, w)
    ensures IsWord(Closed(x), w.(closed := true, polling := false))
  {
    Changes(x, w);
    Changes(SetClosed(x), w.(closed := true));
  }

  /** The atomic state of a task. */
  class StateWord {
    var state: nat

    ghost predicate Valid()
      reads this
    {
      state < U64
    }

    ghost function View(): Fields
      reads this
    {
      Unpack(state)
    }

    constructor Spawn(withPromise: bool)
      ensures Valid() && View() == TaskMachine.Spawned(withPromise).w
    {
      state := (if withPromise then 2 * REF_INC else REF_INC) + WAKE_INC + POLLING;
      new;
      PackRoundTrip(TaskMachine.Spawned(withPromise).w);
    }

    /** `clone_waker`; the caller panics if there are too many references. */
    method CloneWaker() returns (tooMany: bool)
      requires Valid() && View().refs < MAX_COUNT
      modifies this
      ensures state == Updated(old(state), AddReference)
      ensures Valid() && View() == old(View()).(refs := old(View()).refs + 1)
      ensures tooMany <==> old(View()).refs > REF_CRITICAL / REF_INC
    {
      ghost var w := View();
      Decisions(state, w);
      Changes(state, w);
      var refCount := And(state, REF_MASK);
      state := WrapAdd(state, REF_INC);
      tooMany := refCount > REF_CRITICAL;
    }

    /** The addition of `wake`, by reference. */
    method WakeByRef() returns (schedule: bool, tooMany: bool)
      requires Valid() && View().wake < MAX_COUNT
      modifies this
      ensures state == Updated(old(state), AddWake)
      ensures Valid() && View() == old(View()).(wake := old(View()).wake + 1)
      ensures schedule <==> old(View()).polling && !old(View()).closed && old(View()).wake == 0
      ensures tooMany <==> old(View()).wake > WAKE_CRITICAL / WAKE_INC
    {
      ghost var w := View();
      Decisions(state, w);
      Changes(state, w);
      var s := state;
      state := WrapAdd(state, WAKE_INC);
      tooMany := And(s, WAKE_MASK) > WAKE_CRITICAL;
      schedule := And(s, WAKE_MASK + CLOSED + POLLING) == POLLING;
    }

    /** `wake_by_val`: the combined addition of `WAKE_INC - REF_INC`. */
    method WakeByVal() returns (schedule: bool, last: bool, outputLeft: bool)
      requires Valid() && View().wake < MAX_COUNT && View().refs > 0
      modifies this
      ensures state == Updated(old(state), AddWakeLessReference)
      ensures Valid() && View() == TaskMachine.LessRef(old(View()).(wake := old(View()).wake + 1))
      ensures schedule <==> old(View()).polling && !old(View()).closed && old(View()).wake == 0
      ensures last <==> old(View()).refs == 1 && !old(View()).polling
      ensures outputLeft <==> !old(View()).closed
    {
      ghost var w := View();
      Decisions(state, w);
      Changes(state, w);
      var s := state;
      state := WrapAdd(state, WAKE_INC - REF_INC);
      schedule := And(s, WAKE_MASK + CLOSED + POLLING) == POLLING;
      last := And(s, REF_MASK + POLLING) == REF_INC;
      outputLeft := And(s, CLOSED) == 0;
    }

    /** The subtraction of a waker, promise or token that is dropped. */
    method ReleaseRef() returns (last: bool, futureLeft: bool, outputLeft: bool)
      requires Valid() && View().refs > 0
      modifies this
      ensures state == Updated(old(state), SubtractReference)
      ensures Valid() && View() == TaskMachine.LessRef(old(View()))
      ensures last <==> old(View()).refs == 1 && !TaskMachine.RunnableExists(old(View()))
      ensures futureLeft <==> old(View()).polling
      ensures outputLeft <==> !old(View()).polling && !old(View()).closed
    {
      ghost var w := View();
      Decisions(state, w);
      Changes(state, w);
      var s := state;
      state := WrapSub(state, REF_INC);
      last := And(s, REF_MASK) == REF_INC && !RunnableExists(s);
      futureLeft := And(s, POLLING) == POLLING;
      outputLeft := !futureLeft && And(s, CLOSED) == 0;
    }

    /** `promise::poll`: the output is taken exactly in the Completed phase. */
    method PollPromise() returns (ready: bool, cancelled: bool)
      requires Valid()
      modifies this
      ensures state == Updated(old(state), TakeOutput)
      ensures Valid()
      ensures ready <==> !old(View()).polling && !old(View()).closed
      ensures !ready ==> state == old(state) && (cancelled <==> old(View()).closed)
      ensures ready ==> View() == old(View()).(closed := true)
    {
      ghost var w := View();
      Decisions(state, w);
      Changes(state, w);
      ready := And(state, CLOSED + POLLING) == 0;
      cancelled := And(state, CLOSED) == CLOSED;
      if ready {
        state := SetFlag(state, CLOSED);
      }
    }

    /** The three-way update of `cancel_token::cancel`. */
    method CancelToken() returns (s: nat)
      requires Valid() && View().refs > 0
      modifies this
      ensures state == Updated(old(state), CancelTask)
      ensures Valid() && s == old(state)
      ensures var w := old(View());
              View() == if !w.polling then TaskMachine.LessRef(w)
                        else if TaskMachine.RunnableExists(w) then TaskMachine.LessRef(w).(closed := true)
                        else w.(closed := true, polling := false)
    {
      ghost var w := View();
      Decisions(state, w);
      Changes(state, w);
      s := state;
      if And(s, POLLING) == 0 {
        state := WrapSub(s, REF_INC);
      } else if RunnableExists(s) {
        Changes(SetFlag(s, CLOSED), w.(closed := true));
        state := WrapSub(SetFlag(s, CLOSED), REF_INC);
      } else {
        Changes(SetFlag(s, CLOSED), w.(closed := true));
        state := ClearFlag(SetFlag(s, CLOSED), POLLING);
      }
    }

    /** `fetch_sub(wake_count)` after a pending poll; `wakeCount` was read from the word earlier. */
    method SubtractWakes(wakeCount: nat, ghost n: nat) returns (left: nat, retire: bool, last: bool)
      requires Valid() && wakeCount == n * WAKE_INC && n <= View().wake
      modifies this
      ensures wakeCount <= U64 && state == Updated(old(state), SubtractWakeCount(wakeCount))
      ensures Valid() && View() == old(View()).(wake := old(View()).wake - n)
      ensures left == (old(View()).wake - n) * WAKE_INC
      ensures retire <==> old(View()).wake == n && !old(View()).closed
      ensures last <==> old(View()).refs == 0
    {
      ghost var w := View();
      Decisions(state, w);
      UnpackRoundTrip(state);
      SubWakes(w, n);
      PackRoundTrip(w.(wake := w.wake - n));
      var s := state;
      state := WrapSub(state, wakeCount);
      left := And(s, WAKE_MASK) - wakeCount;
      retire := left == 0 && And(s, CLOSED) == 0;
      last := And(s, REF_MASK) == 0;
    }

    /** The attempt of a completed runnable to enter the Completed phase. */
    method Publish() returns (ok: bool)
      requires Valid()
      modifies this
      ensures state == Updated(old(state), PublishOutput)
      ensures Valid() && (ok <==> !old(View()).closed && old(View()).refs != 0)
      ensures View() == if ok then old(View()).(polling := false) else old(View())
    {
      ghost var w := View();
      Decisions(state, w);
      Changes(state, w);
      ok := !(And(state, CLOSED) == CLOSED || And(state, REF_MASK) == 0);
      if ok {
        state := ClearFlag(state, POLLING);
      }
    }

    /** The end of a cancelled runnable: the Closed phase. */
    method Close() returns (last: bool)
      requires Valid()
      modifies this
      ensures state == Updated(old(state), CloseTask)
      ensures Valid() && View() == old(View()).(closed := true, polling := false)
      ensures last <==> old(View()).refs == 0
    {
      ghost var w := View();
      Decisions(state, w);
      Changes(state, w);
      Changes(SetFlag(state, CLOSED), w.(closed := true));
      last := And(state, REF_MASK) == 0;
      state := ClearFlag(SetFlag(state, CLOSED), POLLING);
    }
  }
}
