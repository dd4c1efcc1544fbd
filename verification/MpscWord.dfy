/**
  The positions and stamps of the queue as machine words: the lap above a flag bit and the buffer
  index. With `n` the number of index bits, the right mask covers `n + 1` bits; the lap wraps around
  in the `m` bits above.
*/
module MpscWord {
  import opened Words
  import opened MpscQueue

  function Encode(pos: Pos, n: nat): nat {
    pos.idx + Shl(pos.lap, n + 1)
  }

  /** The stamp of slot `i`. */
  function EncodeStamp(stamp: Stamp, i: nat, n: nat): nat {
    i + (if stamp.full then 1 else 0) + Shl(stamp.lap, n + 1)
  }

  function RightMask(n: nat): nat {
    Pow2(n + 1) - 1
  }

  /** The index bits are those of the next power of two of the capacity. */
  predicate IsLayout(capacity: nat, n: nat) {
    1 <= capacity <= Pow2(n)
  }

  // ----- Words of `m + n + 1` bits -----

  /** The word of a position, whose lap wraps around. */
  function Wrapped(pos: Pos, n: nat, m: nat): nat {
    pos.idx + Shl(pos.lap % Pow2(m), n + 1)
  }

  /** The complement of the right mask. */
  function LapMask(n: nat, m: nat): nat {
    Shl(Pow2(m) - 1, n + 1)
  }

  lemma {:induction false} ProductGrows(m: nat, a: int, b: int)
    requires a < b
    ensures m * a + m <= m * b
  {
    assert m * b == m * a + m * (b - a);
    assert m * (b - a) == m + m * (b - a - 1);
  }

  /** Quotient and remainder are unique. */
  lemma {:induction false} SmallRemainder(y: int, x: nat, q: int, m: nat)
    requires x < m && y == m * q + x
    ensures y % m == x && y / m == q
  {
    var d, r := y / m, y % m;
    assert y == m * d + r;
    if d < q {
      ProductGrows(m, d, q);
    } else if q < d {
      ProductGrows(m, q, d);
    }
  }

  lemma {:induction false} SameRemainder(a: nat, b: nat, q: int, p: nat)
    requires p > 0 && a == b + p * q
    ensures a % p == b % p
  {
    assert b == p * (b / p) + b % p;
    assert a == p * (b / p + q) + b % p;
    SmallRemainder(a, b % p, b / p + q, p);
  }

  lemma {:induction false} Distribute(low: nat, quotient: nat, rest: nat, a: nat, b: nat)
    ensures low + a * (quotient * b + rest) == (a * b) * quotient + (low + a * rest)
  {
    assert a * (quotient * b + rest) == a * (quotient * b) + a * rest;
    assert a * (quotient * b) == (a * b) * quotient;
  }

  lemma {:induction false} RemainderOf(low: nat, quotient: nat, rest: nat, a: nat, b: nat)
    requires low < a && rest < b
    ensures a * b > 0 && (low + a * (quotient * b + rest)) % (a * b) == low + a * rest
  {
    ProductGrows(a, rest, b);
    Distribute(low, quotient, rest, a, b);
    SmallRemainder(low + a * (quotient * b + rest), low + a * rest, quotient, a * b);
  }

  /** The wrapped word is the remainder of the unbounded one. */
  lemma {:induction false} WrappedIsRemainder(pos: Pos, n: nat, m: nat)
    requires pos.idx < Pow2(n + 1)
    ensures Wrapped(pos, n, m) == Encode(pos, n) % Pow2(m + (n + 1))
  {
    var q, r := pos.lap / Pow2(m), pos.lap % Pow2(m);
    assert pos.lap == q * Pow2(m) + r;
    ShlIsProduct(pos.lap, n + 1);
    ShlIsProduct(r, n + 1);
    Pow2Adds(m, n + 1);
    ShlIsProduct(Pow2(m), n + 1);
    RemainderOf(pos.idx, q, r, Pow2(n + 1), Pow2(m));
  }

  /** The index and the lap read from a word, as `push` and `pop` read them, and the masked lap. */
  lemma {:induction false} IndexOf(pos: Pos, n: nat, m: nat, capacity: nat)
    requires IsLayout(capacity, n) && pos.idx < capacity
    ensures And(Wrapped(pos, n, m), RightMask(n)) == pos.idx && Shr(Wrapped(pos, n, m), n + 1) == pos.lap % Pow2(m)
    ensures And(Wrapped(pos, n, m), LapMask(n, m)) == Shl(pos.lap % Pow2(m), n + 1)
  {
    var lap := pos.lap % Pow2(m);
    AndLowMask(pos.idx, lap, n + 1);
    ShrSplits(pos.idx, lap, n + 1);
    LapPart(pos.idx, lap, n, m);
  }

  /** Masking a word leaves the lap, whatever the bits of the right mask are. */
  lemma {:induction false} LapPart(low: nat, lap: nat, n: nat, m: nat)
    requires low < Pow2(n + 1) && lap < Pow2(m)
    ensures And(low + Shl(lap, n + 1), LapMask(n, m)) == Shl(lap, n + 1)
  {
    AndSplits(n + 1, low, lap, 0, Pow2(m) - 1);
    AndFullMask(lap, m);
  }

  /** The word computed by `next_queue_pos`. */
  function NextWord(word: nat, n: nat, m: nat, capacity: nat): nat {
    if And(word + 1, RightMask(n)) < capacity then word + 1
    else (And(word, LapMask(n, m)) + (RightMask(n) + 1)) % Pow2(m + (n + 1))
  }

  lemma {:induction false} NextLap(lap: nat, n: nat, m: nat)
    ensures (Shl(lap % Pow2(m), n + 1) + Pow2(n + 1)) % Pow2(m + (n + 1)) == Shl((lap + 1) % Pow2(m), n + 1)
  {
    var l, p, x := lap % Pow2(m), Pow2(m), Shl(lap % Pow2(m), n + 1) + Pow2(n + 1);
    assert x == Shl(l + 1, n + 1) by {
      ShlAdds(l, 1, n + 1);
      Pow2IsShl(n + 1);
    }
    assert Pow2(m + (n + 1)) == Shl(p, n + 1) by {
      Pow2Adds(m, n + 1);
    }
    NextRemainder(lap, p);
    if l + 1 < p {
      LapsApart(l + 1, p, n + 1);
      SmallRemainder(x, x, 0, Pow2(m + (n + 1)));
    } else {
      ShlIsProduct(0, n + 1);
      SmallRemainder(x, 0, 1, Pow2(m + (n + 1)));
    }
  }

  lemma {:induction false} NextRemainder(x: nat, p: nat)
    requires p > 0
    ensures (x + 1) % p == if x % p + 1 < p then x % p + 1 else 0
  {
    var q, r := x / p, x % p;
    assert x == p * q + r;
    if r + 1 < p {
      SmallRemainder(x + 1, r + 1, q, p);
    } else {
      assert x + 1 == p * (q + 1);
      SmallRemainder(x + 1, 0, q + 1, p);
    }
  }

  /** The word after the word of a position is the word of the next position, whatever the lap. */
  lemma {:induction false} NextWordIsNext(pos: Pos, n: nat, m: nat, capacity: nat)
    requires IsLayout(capacity, n) && pos.idx < capacity
    ensures NextWord(Wrapped(pos, n, m), n, m, capacity) == Wrapped(Next(pos, capacity), n, m)
  {
    AndLowMask(pos.idx + 1, pos.lap % Pow2(m), n + 1);
    IndexOf(pos, n, m, capacity);
    NextLap(pos.lap, n, m);
  }

  // ----- Stamps -----

  /** The word of the stamp of slot `i`, whose lap wraps around. */
  function WrappedStamp(stamp: Stamp, i: nat, n: nat, m: nat): nat {
    i + (if stamp.full then 1 else 0) + Shl(stamp.lap % Pow2(m), n + 1)
  }

  lemma {:induction false} WrappedStampIsRemainder(stamp: Stamp, i: nat, n: nat, m: nat, capacity: nat)
    requires IsLayout(capacity, n) && i < capacity
    ensures WrappedStamp(stamp, i, n, m) == EncodeStamp(stamp, i, n) % Pow2(m + (n + 1))
  {
    WrappedIsRemainder(Pos(stamp.lap, i + (if stamp.full then 1 else 0)), n, m);
  }

  /** The word of a populated slot plus the right mask is that of the slot open at the next lap, whatever the lap. */
  lemma {:induction false} ReleasedStamp(lap: nat, i: nat, n: nat, m: nat, capacity: nat)
    requires IsLayout(capacity, n) && i < capacity
    ensures (WrappedStamp(Stamp(lap, true), i, n, m) + RightMask(n)) % Pow2(m + (n + 1))
         == WrappedStamp(Stamp(lap + 1, false), i, n, m)
  {
    var l, p := lap % Pow2(m), Pow2(m);
    assert Shl(l + 1, n + 1) == Shl(l, n + 1) + Pow2(n + 1) by {
      ShlAdds(l, 1, n + 1);
      Pow2IsShl(n + 1);
    }
    assert Pow2(m + (n + 1)) == Shl(p, n + 1) by {
      Pow2Adds(m, n + 1);
    }
    NextRemainder(lap, p);
    if l + 1 < p {
      LapsApart(l + 1, p, n + 1);
      SmallRemainder(i + Shl(l + 1, n + 1), i + Shl(l + 1, n + 1), 0, Pow2(m + (n + 1)));
    } else {
      ShlIsProduct(0, n + 1);
      Pow2Monotone(n + 1, m + (n + 1));
      SmallRemainder(i + Shl(l + 1, n + 1), i, 1, Pow2(m + (n + 1)));
    }
  }

  lemma {:induction false} LapsApart(a: nat, b: nat, m: nat)
    requires a < b
    ensures Shl(a, m) + Pow2(m) <= Shl(b, m)
  {
    ShlMonotone(a + 1, b, m);
    ShlAdds(a, 1, m);
    Pow2IsShl(m);
  }

  /** The sign of the difference of a stamp and a position, on unbounded words. */
  lemma {:induction false} StampComparison(stamp: Stamp, e: Pos, n: nat, capacity: nat)
    requires IsLayout(capacity, n) && e.idx < capacity
    ensures var delta := EncodeStamp(stamp, e.idx, n) - Encode(e, n);
      && (delta == 0 <==> stamp == Stamp(e.lap, false))
      && (delta < 0 <==> stamp.lap < e.lap)
  {
    if stamp.lap < e.lap {
      LapsApart(stamp.lap, e.lap, n + 1);
    } else if stamp.lap > e.lap {
      LapsApart(e.lap, stamp.lap, n + 1);
    }
  }

  /** `a.wrapping_sub(b) as isize`, on words of `w` bits. */
  function SignedDifference(a: nat, b: nat, w: nat): int {
    var d := if a >= b then a - b else a - b + Pow2(w);
    if d < Pow2(w) / 2 then d else d - Pow2(w)
  }

  /** The remainders of numbers less than `p` apart are as far apart, up to `p`. */
  lemma {:induction false} RemaindersApart(a: nat, b: nat, p: nat)
    requires b <= a < b + p
    ensures a % p - b % p == a - b || a % p - b % p == a - b - p
  {
    var q, r := b / p, b % p;
    assert b == p * q + r;
    if a - b + r < p {
      SmallRemainder(a, a - b + r, q, p);
    } else {
      assert p * (q + 1) == p * q + p;
      SmallRemainder(a, a - b + r - p, q + 1, p);
    }
  }

  /** Words that wrap around compare as the unbounded ones do while they are less than half the range apart. */
  lemma {:induction false} WrappedComparison(a: nat, b: nat, w: nat)
    requires w > 0 && b <= a + Pow2(w - 1) && a < b + Pow2(w - 1)
    ensures SignedDifference(a % Pow2(w), b % Pow2(w), w) == a - b
  {
    if a < b {
      RemaindersApart(b, a, Pow2(w));
    } else {
      RemaindersApart(a, b, Pow2(w));
    }
  }

  /** The unbounded difference of a stamp and a position. */
  lemma {:induction false} StampDistance(stamp: Stamp, e: Pos, n: nat, m: nat)
    requires m > 0 && e.lap <= stamp.lap + Pow2(m - 1) && stamp.lap < e.lap + Pow2(m - 1)
    ensures Encode(e, n) <= EncodeStamp(stamp, e.idx, n) + Pow2(m + n)
    ensures EncodeStamp(stamp, e.idx, n) < Encode(e, n) + Pow2(m + n)
  {
    Pow2Adds(m - 1, n + 1);
    if stamp.lap < e.lap {
      ShlAdds(stamp.lap, e.lap - stamp.lap, n + 1);
      ShlMonotone(e.lap - stamp.lap, Pow2(m - 1), n + 1);
    } else {
      ShlAdds(e.lap, stamp.lap - e.lap, n + 1);
      LapsApart(stamp.lap - e.lap, Pow2(m - 1), n + 1);
    }
  }

  /** The sign of the wrapping difference of a stamp and a position compares laps at most half of the range apart. */
  lemma {:induction false} NearComparison(stamp: Stamp, e: Pos, n: nat, m: nat, capacity: nat)
    requires IsLayout(capacity, n) && e.idx < capacity
    requires m > 0 && e.lap <= stamp.lap + Pow2(m - 1) && stamp.lap < e.lap + Pow2(m - 1)
    ensures var delta := SignedDifference(WrappedStamp(stamp, e.idx, n, m), Wrapped(e, n, m), m + (n + 1));
      (delta == 0 <==> stamp == Stamp(e.lap, false)) && (delta < 0 <==> stamp.lap < e.lap)
  {
    WrappedStampIsRemainder(stamp, e.idx, n, m, capacity);
    WrappedIsRemainder(e, n, m);
    StampDistance(stamp, e, n, m);
    WrappedComparison(EncodeStamp(stamp, e.idx, n), Encode(e, n), m + (n + 1));
    StampComparison(stamp, e, n, capacity);
  }

  /** How far a lap is ahead of another one, as far as a word can tell. */
  function LapsAhead(a: nat, b: nat, m: nat): nat {
    (a - b) % Pow2(m)
  }

  /** The sign of the wrapping difference of a stamp and a position, however far they are apart. */
  lemma {:induction false} WrappedStampComparison(stamp: Stamp, e: Pos, n: nat, m: nat, capacity: nat)
    requires IsLayout(capacity, n) && e.idx < capacity && m > 0
    ensures var delta := SignedDifference(WrappedStamp(stamp, e.idx, n, m), Wrapped(e, n, m), m + (n + 1));
      && (delta == 0 <==> LapsAhead(stamp.lap, e.lap, m) == 0 && !stamp.full)
      && (delta < 0 <==> LapsAhead(stamp.lap, e.lap, m) >= Pow2(m - 1))
  {
    var p, r := Pow2(m), LapsAhead(stamp.lap, e.lap, m);
    var near := Stamp(if r < Pow2(m - 1) then e.lap + p + r else e.lap + r, stamp.full);
    var q := (stamp.lap - e.lap) / p;
    assert stamp.lap == e.lap + r + p * q;
    assert near.lap % p == stamp.lap % p by {
      SameRemainder(stamp.lap, e.lap + r, q, p);
      SameRemainder(near.lap, e.lap + r, if r < Pow2(m - 1) then 1 else 0, p);
    }
    assert (e.lap + p) % p == e.lap % p by {
      SameRemainder(e.lap + p, e.lap, 1, p);
    }
    NearComparison(near, Pos(e.lap + p, e.idx), n, m, capacity);
  }

  // ----- The closed flag -----

  function Flag(closed: bool): nat {
    if closed then 1 else 0
  }

  /** The word of the enqueue position: the flag is the bit above the index bits. */
  function EnqueueWord(pos: Pos, closed: bool, n: nat, m: nat): nat {
    Wrapped(pos, n, m) + Shl(Flag(closed), n)
  }

  lemma {:induction false} LowBit(x: nat)
    ensures And(x, 1) == x % 2 && Or(x, 1) == x - x % 2 + 1
  {
    AndHalves(x, 1);
    OrHalves(x, 1);
  }

  lemma {:induction false} ReadBit(word: nat, low: nat, lap: nat, flag: nat, n: nat)
    requires low < Pow2(n) && flag <= 1 && word == low + Shl(2 * lap + flag, n)
    ensures And(word, Pow2(n)) == Shl(flag, n)
  {
    Pow2IsShl(n);
    AndSplits(n, low, 2 * lap + flag, 0, 1);
    LowBit(2 * lap + flag);
  }

  lemma {:induction false} SetBit(word: nat, low: nat, lap: nat, flag: nat, n: nat)
    requires low < Pow2(n) && flag <= 1 && word == low + Shl(2 * lap + flag, n)
    ensures Or(word, Pow2(n)) == low + Shl(2 * lap + 1, n)
  {
    Pow2IsShl(n);
    OrHigh(n, low, 2 * lap + flag, 1);
    LowBit(2 * lap + flag);
  }

  lemma {:induction false} LapAndFlag(lap: nat, flag: nat, n: nat)
    ensures Shl(2 * lap + flag, n) == Shl(lap, n + 1) + Shl(flag, n)
  {
    ShlAdds(lap, lap, n);
    ShlAdds(2 * lap, flag, n);
  }

  lemma {:induction false} EnqueueParts(pos: Pos, closed: bool, n: nat, m: nat)
    ensures EnqueueWord(pos, closed, n, m) == pos.idx + Shl(2 * (pos.lap % Pow2(m)) + Flag(closed), n)
  {
    LapAndFlag(pos.lap % Pow2(m), Flag(closed), n);
  }

  lemma {:induction false} BitSet(n: nat)
    ensures Shl(0, n) == 0 && Shl(1, n) > 0
  {
    ShlIsProduct(0, n);
    ShlIsProduct(1, n);
  }

  /** The mask of the source reads the flag, whatever the lap. */
  lemma {:induction false} ClosedFlag(pos: Pos, closed: bool, n: nat, m: nat, capacity: nat)
    requires IsLayout(capacity, n) && pos.idx < capacity
    ensures And(EnqueueWord(pos, closed, n, m), Pow2(n)) != 0 <==> closed
  {
    EnqueueParts(pos, closed, n, m);
    BitSet(n);
    ReadBit(EnqueueWord(pos, closed, n, m), pos.idx, pos.lap % Pow2(m), Flag(closed), n);
  }

  /** The mask of the source sets the flag, also when it is set already, and changes nothing else. */
  lemma {:induction false} SetsFlag(pos: Pos, closed: bool, n: nat, m: nat, capacity: nat)
    requires IsLayout(capacity, n) && pos.idx < capacity
    ensures Or(EnqueueWord(pos, closed, n, m), Pow2(n)) == EnqueueWord(pos, true, n, m)
  {
    EnqueueParts(pos, closed, n, m);
    EnqueueParts(pos, true, n, m);
    SetBit(EnqueueWord(pos, closed, n, m), pos.idx, pos.lap % Pow2(m), Flag(closed), n);
  }

  /** The index bits of a position, whether or not it carries the closed flag. */
  lemma {:induction false} IndexBits(idx: nat, lap: nat, flag: nat, n: nat)
    requires idx < Pow2(n)
    ensures And(idx + Shl(lap, n + 1) + Shl(flag, n), Pow2(n) - 1) == idx
  {
    LapAndFlag(lap, flag, n);
    AndLowMask(idx, 2 * lap + flag, n);
  }

  /** The lap of a position, whether or not it carries the closed flag. */
  lemma {:induction false} LapBits(idx: nat, lap: nat, flag: nat, n: nat, m: nat)
    requires idx < Pow2(n) && lap < Pow2(m) && flag <= 1
    ensures And(idx + Shl(lap, n + 1) + Shl(flag, n), LapMask(n, m)) == Shl(lap, n + 1)
  {
    var low := idx + Shl(flag, n);
    assert low < Pow2(n + 1) by {
      Pow2IsShl(n);
      ShlIsProduct(0, n);
    }
    LapPart(low, lap, n, m);
  }

  lemma {:induction false} PartsOf(pos: Pos, flag: nat, n: nat, m: nat, capacity: nat)
    requires IsLayout(capacity, n) && pos.idx < capacity && flag <= 1
    ensures And(Wrapped(pos, n, m) + Shl(flag, n), Pow2(n) - 1) == pos.idx
    ensures And(Wrapped(pos, n, m) + Shl(flag, n), LapMask(n, m)) == Shl(pos.lap % Pow2(m), n + 1)
  {
    IndexBits(pos.idx, pos.lap % Pow2(m), flag, n);
    LapBits(pos.idx, pos.lap % Pow2(m), flag, n, m);
  }

  /** Laps that differ by at most one are equal if and only if their words are. */
  lemma {:induction false} SameLap(a: nat, b: nat, n: nat, m: nat)
    requires b <= a <= b + 1 && m > 0
    ensures Shl(a % Pow2(m), n + 1) == Shl(b % Pow2(m), n + 1) <==> a == b
  {
    if a != b {
      NextRemainder(b, Pow2(m));
      assert Pow2(m) >= 2;
      if a % Pow2(m) < b % Pow2(m) {
        LapsApart(a % Pow2(m), b % Pow2(m), n + 1);
      } else {
        LapsApart(b % Pow2(m), a % Pow2(m), n + 1);
      }
    }
  }

  /** `len` as computed from the words of the two positions, whether or not the queue is closed. */
  lemma {:induction false} LenWord(s: State, n: nat, m: nat, enq: nat, deq: nat)
    requires PositionsOk(s) && IsLayout(|s.slots|, n) && m > 0
    requires enq == EnqueueWord(s.enq, s.closed, n, m) && deq == Wrapped(s.deq, n, m)
    ensures var carry := if And(enq, LapMask(n, m)) != And(deq, LapMask(n, m)) then |s.slots| else 0;
      And(enq, Pow2(n) - 1) + carry - And(deq, Pow2(n) - 1) == Len(s)
  {
    PartsOf(s.enq, Flag(s.closed), n, m, |s.slots|);
    ShlIsProduct(0, n);
    PartsOf(s.deq, 0, n, m, |s.slots|);
    SameLap(s.enq.lap, s.deq.lap, n, m);
  }
}
