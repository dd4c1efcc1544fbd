/**
  The head of the task set as one machine word: the index in the low `n` bits and the countdown
  above, with `n == 32` in the source. The word operations of the source do what the task set
  does on the pair.
*/
module TaskSetWord {
  import opened Words
  import opened TaskSet
  import TaskSetRuns

  function Pack(h: Head, n: nat): nat {
    h.index + Shl(h.countdown, n)
  }

  function IndexMask(n: nat): nat {
    Pow2(n) - 1
  }

  /** The complement of the index mask in a word of `2 * n` bits. */
  function CountdownMask(n: nat): nat {
    Shl(Pow2(n) - 1, n)
  }

  predicate Fits(h: Head, n: nat) {
    h.index < Pow2(n) && h.countdown < Pow2(n)
  }

  lemma {:induction false} OrCommutes(x: nat, y: nat)
    ensures Or(x, y) == Or(y, x)
  {
    if x != 0 && y != 0 {
      OrCommutes(x / 2, y / 2);
    }
  }

  lemma {:induction false} AndZero(x: nat)
    ensures And(x, 0) == 0
  {
  }

  lemma {:induction false} ShlZero(n: nat)
    ensures Shl(0, n) == 0
  {
    if n > 0 {
      ShlZero(n - 1);
    }
  }

  lemma {:induction false} ShlPositive(x: nat, n: nat)
    ensures Shl(x, n) >= x && (x > 0 ==> Shl(x, n) >= Pow2(n))
  {
    if x > 0 {
      ShlMonotone(1, x, n);
      Pow2IsShl(n);
    }
    ShlIsProduct(x, n);
    Grows(x, Pow2(n));
  }

  lemma {:induction false} Grows(x: nat, p: nat)
    requires p > 0
    ensures p * x >= x
  {
  }

  /** The two fields are read back by the masks, so equal words are equal heads. */
  lemma {:induction false} PackRoundTrip(h: Head, n: nat)
    requires Fits(h, n)
    ensures And(Pack(h, n), IndexMask(n)) == h.index
    ensures And(Pack(h, n), CountdownMask(n)) == Shl(h.countdown, n)
    ensures Shr(Pack(h, n), n) == h.countdown
  {
    AndLowMask(h.index, h.countdown, n);
    ShrSplits(h.index, h.countdown, n);
    AndSplits(n, h.index, h.countdown, 0, Pow2(n) - 1);
    AndZero(h.index);
    AndFullMask(h.countdown, n);
  }

  lemma {:induction false} PackIsInjective(h: Head, k: Head, n: nat)
    requires Fits(h, n) && Fits(k, n)
    ensures Pack(h, n) == Pack(k, n) <==> h == k
  {
    PackRoundTrip(h, n);
    PackRoundTrip(k, n);
  }

  /** The new head computed by a wake, and its test for the end of the countdown. */
  lemma {:induction false} PushWord(h: Head, n: nat, t: nat, countdown: nat, cleared: nat)
    requires Fits(h, n) && t < Pow2(n)
    requires countdown == And(Pack(h, n), CountdownMask(n))
    requires cleared == countdown - (if countdown != 0 then Shl(1, n) else 0)
    ensures Or(cleared, t) == Pack(Head(t, Decremented(h.countdown)), n)
    ensures countdown == Shl(1, n) <==> h.countdown == 1
  {
    PackRoundTrip(h, n);
    ShlZero(n);
    ShlPositive(1, n);
    if h.countdown > 0 {
      ShlAdds(h.countdown - 1, 1, n);
      ShlPositive(h.countdown - 1, n);
    }
    OrSplits(n, t, Decremented(h.countdown));
    OrCommutes(cleared, t);
  }

  /** The new head of `take_scheduled`, and its test for an empty list. */
  lemma {:induction false} TakeWord(h: Head, n: nat, notifyCount: nat, empty: nat)
    requires Fits(h, n) && empty < Pow2(n)
    ensures Or(Shl(notifyCount, n), empty) == Pack(Head(empty, notifyCount), n)
    ensures And(Pack(h, n), IndexMask(n)) == empty <==> h.index == empty
  {
    PackRoundTrip(h, n);
    OrSplits(n, empty, notifyCount);
    OrCommutes(Shl(notifyCount, n), empty);
  }

  lemma {:induction false} Squares(n: nat, m: nat)
    requires m == n + n
    ensures Pow2(m) == Pow2(n) * Pow2(n)
  {
    Pow2Adds(n, n);
    ShlIsProduct(Pow2(n), n);
  }

  lemma {:induction false} WordsOf32Bits()
    ensures Pow2(32) == 0x1_0000_0000
  {
    Squares(2, 4);
    Squares(4, 8);
    Squares(8, 16);
    Squares(16, 32);
  }

  /** Every value that the head takes in a run fits in its word: the fields never overflow. */
  lemma {:induction false} HeadsFit(s: State, h: Head)
    requires TaskSetRuns.Reachable(s) && (h in s.heads || h == s.head)
    ensures Fits(h, 32)
  {
    WordsOf32Bits();
    TaskSetRuns.ReachableIsOk(s);
    assert HeadsOk(s, h);
  }
}
