/**
  The iterator over the workers to steal from: it starts at a randomly selected active worker
  and goes round the pool once.
*/
module Stealers {
  import opened Options
  import opened Words
  import opened AdderTree
  import FindBit

  /** `gen_bounded`: the 64-bit random number `random` scaled to the range below `bound`. */
  function GenBounded(random: nat, bound: nat): nat {
    Shr(random * bound, 64)
  }

  lemma {:induction false} GenBoundedInRange(random: nat, bound: nat)
    requires random < Pow2(64) && bound > 0
    ensures GenBounded(random, bound) < bound
  {
    ShlIsProduct(bound, 64);
    ProductBelow(random, Pow2(64), bound);
    ShrBelow(random * bound, bound, 64);
  }

  lemma {:induction false} ProductBelow(x: nat, m: nat, b: nat)
    requires x < m && b > 0
    ensures x * b < m * b
  {
  }

  lemma {:induction false} ShrBelow(x: nat, b: nat, n: nat)
    requires x < Shl(b, n)
    ensures Shr(x, n) < b
  {
    if n > 0 { ShrBelow(x / 2, b, n - 1); }
  }

  lemma {:induction false} ShrAtLeast(x: nat, b: nat, n: nat)
    requires Shl(b, n) <= x
    ensures b <= Shr(x, n)
  {
    if n > 0 { ShrAtLeast(x / 2, b, n - 1); }
  }

  /** The random numbers that give `v` are those of one interval, of the same length for every `v` up to rounding. */
  lemma {:induction false} GenBoundedExactly(random: nat, bound: nat, v: nat)
    ensures GenBounded(random, bound) == v <==> Pow2(64) * v <= random * bound < Pow2(64) * (v + 1)
  {
    ShlIsProduct(v, 64);
    ShlIsProduct(v + 1, 64);
    var x := random * bound;
    if x < Shl(v, 64) {
      ShrBelow(x, v, 64);
    } else if x < Shl(v + 1, 64) {
      ShrAtLeast(x, v, 64);
      ShrBelow(x, v + 1, 64);
    } else {
      ShrAtLeast(x, v + 1, 64);
    }
  }

  lemma {:induction false} AtLeastProduct(a: nat, b: nat, c: nat)
    requires a >= b
    ensures a * c >= b * c
  {
  }

  /** The least number of which `c` times is at least `x`. */
  lemma {:induction false} RoundedUp(x: nat, c: nat) returns (q: nat)
    requires c > 0
    ensures x <= q * c < x + c
  {
    q := (x + c - 1) / c;
    assert x + c - 1 == c * q + (x + c - 1) % c;
  }

  lemma {:induction false} Scaled(v: nat, bound: nat, w: nat) returns (q: nat)
    requires v < bound <= w
    ensures q < w && w * v <= q * bound < w * (v + 1)
  {
    q := RoundedUp(w * v, bound);
    assert w * (v + 1) == w * v + w;
    if q >= w {
      AtLeastProduct(q, w, bound);
      AtLeastProduct(bound, v + 1, w);
      assert w * bound == bound * w && w * (v + 1) == (v + 1) * w;
    }
  }

  /** Every number below the bound is given by some random number. */
  lemma {:induction false} GenBoundedReaches(bound: nat, v: nat) returns (random: nat)
    requires v < bound <= Pow2(64)
    ensures random < Pow2(64) && GenBounded(random, bound) == v
  {
    random := Scaled(v, bound, Pow2(64));
    GenBoundedExactly(random, bound, v);
  }

  /** The positions of the ones of `c`, in increasing order, counted from `i`. */
  function Up(c: nat, i: nat): seq<nat> {
    if c == 0 then [] else (if c % 2 == 1 then [i] else []) + Up(c / 2, i + 1)
  }

  /** The same, in a pool of `n` workers: the count goes back to 0 after `n - 1`. */
  function Cyclic(c: nat, i: nat, n: nat): seq<nat> {
    if c == 0 then [] else (if c % 2 == 1 then [i] else []) + Cyclic(c / 2, Wrap(i + 1, n), n)
  }

  function Wrap(i: nat, n: nat): nat {
    if i >= n then i - n else i
  }

  /** The bit of `c` for worker `x`, when its lowest bit stands for worker `i`. */
  predicate HasBit(c: nat, i: nat, x: nat) {
    x >= i && Shr(c, x - i) % 2 == 1
  }

  /** `Up` lists exactly the positions of the ones, each once. */
  lemma {:induction false} UpLists(c: nat, i: nat)
    ensures forall x :: x in Up(c, i) <==> HasBit(c, i, x)
    ensures forall a, b :: 0 <= a < b < |Up(c, i)| ==> Up(c, i)[a] < Up(c, i)[b]
  {
    if c == 0 {
      forall x: nat ensures !HasBit(c, i, x) {
        if x >= i { ShrZero(x - i); }
      }
    } else {
      UpLists(c / 2, i + 1);
      var rest := Up(c / 2, i + 1);
      forall x: nat ensures x in Up(c, i) <==> HasBit(c, i, x) {
        assert x > i ==> HasBit(c, i, x) == HasBit(c / 2, i + 1, x);
        assert x in rest <==> HasBit(c / 2, i + 1, x);
      }
      forall b | 0 <= b < |rest| ensures rest[b] > i {
        assert rest[b] in rest;
      }
    }
  }

  lemma {:induction false} ShrZero(n: nat)
    ensures Shr(0, n) == 0
  {
    if n > 0 { ShrZero(n - 1); }
  }

  /** Going round: the positions up to the end of the pool, then those from the start. */
  /** The lowest bit of a word comes first. */
  lemma {:induction false} CyclicStep(c: nat, i: nat, n: nat)
    ensures Cyclic(c, i, n) == (if c % 2 == 1 then [i] else []) + Cyclic(c / 2, Wrap(i + 1, n), n)
  {
  }

  lemma {:induction false} UpStep(c: nat, i: nat)
    ensures Up(c, i) == (if c % 2 == 1 then [i] else []) + Up(c / 2, i + 1)
  {
  }

  /** The round from `i` of `c` is the positions of the ones of `a` from `i` on, and then `rest`. */
  predicate GoesOn(c: nat, i: nat, n: nat, a: nat, rest: seq<nat>) {
    Cyclic(c, Wrap(i, n), n) == Up(a, i) + rest
  }

  lemma {:induction false} OneBitMore(c: nat, a: nat, i: nat, n: nat, rest: seq<nat>)
    requires i < n && c % 2 == a % 2 && GoesOn(c / 2, i + 1, n, a / 2, rest)
    ensures GoesOn(c, i, n, a, rest)
  {
    CyclicStep(c, i, n);
    UpStep(a, i);
  }

  lemma {:induction false} Wrapped(b: nat, n: nat)
    requires b < Pow2(n) && n > 0
    ensures GoesOn(b, n, n, 0, Up(b, 0))
  {
    CyclicIsUp(b, 0, n, n);
  }

  lemma {:induction false} SplitsGoOn(a: nat, b: nat, m: nat, i: nat, n: nat)
    requires a < Pow2(m) && b < Pow2(i) && i + m == n && n > 0
    ensures GoesOn(a + Shl(b, m), i, n, a, Up(b, 0))
    decreases m
  {
    if m == 0 {
      Wrapped(b, n);
    } else {
      SplitsGoOn(a / 2, b, m - 1, i + 1, n);
      HalfOfSum(a, b, m);
      OneBitMore(a + Shl(b, m), a, i, n, Up(b, 0));
    }
  }

  lemma {:induction false} CyclicSplits(a: nat, b: nat, m: nat, i: nat, n: nat)
    requires a < Pow2(m) && b < Pow2(i) && i + m == n && n > 0
    ensures Cyclic(a + Shl(b, m), Wrap(i, n), n) == Up(a, i) + Up(b, 0)
  {
    SplitsGoOn(a, b, m, i, n);
  }

  lemma {:induction false} CyclicIsUp(c: nat, i: nat, m: nat, n: nat)
    requires c < Pow2(m) && i + m <= n
    ensures Cyclic(c, i, n) == Up(c, i)
    decreases m
  {
    if c != 0 {
      if m > 1 || i + 1 < n {
        CyclicIsUp(c / 2, i + 1, m - 1, n);
      }
    }
  }

  /** The number of zeros below the lowest one. */
  function TrailingZeros(c: nat): nat
    requires c != 0
  {
    if c % 2 == 1 then 0 else 1 + TrailingZeros(c / 2)
  }

  /** Shifting out the trailing zeros and moving on by as many workers changes nothing. */
  lemma {:induction false} SkipZeros(c: nat, i: nat, m: nat, n: nat)
    requires 0 < c < Pow2(m) && i < n && m <= n
    ensures TrailingZeros(c) < m
    ensures var z := TrailingZeros(c);
            && Shr(c, z) % 2 == 1 && Shr(c, z) < Pow2(m)
            && Wrap(i + z, n) < n
            && Cyclic(c, i, n) == Cyclic(Shr(c, z), Wrap(i + z, n), n)
    decreases m
  {
    if c % 2 == 0 {
      SkipZeros(c / 2, Wrap(i + 1, n), m - 1, n);
    }
  }

  lemma {:induction false} BitsAt(v: nat, n: nat, k: nat)
    requires k < n
    ensures Bits(v, n)[k] == Shr(v, k) % 2
  {
    if k > 0 { BitsAt(v / 2, n - 1, k - 1); }
  }

  lemma {:induction false} SomeOne(v: nat, n: nat)
    requires 0 < v < Pow2(n)
    ensures Ones(Bits(v, n)) > 0
  {
    if v % 2 == 0 { SomeOne(v / 2, n - 1); }
    assert Bits(v, n)[1..] == Bits(v / 2, n - 1);
  }

  /** A word has no ones above its size. */
  lemma {:induction false} OneBelow(v: nat, k: nat, n: nat)
    requires v < Pow2(n) && HasBit(v, 0, k)
    ensures k < n
  {
    if k >= n {
      Pow2Monotone(n, k);
      Pow2IsShl(k);
      ShrBelow(v, 1, k);
      assert false;
    }
  }

  /**
    The right rotation of a pool's bit field by `k`. The amount of a left shift counts modulo the
    width of the word, which matters in a pool of `width` workers when `k` is 0.
  */
  function Rotated(active: nat, k: nat, count: nat, width: nat): nat
    requires k <= count <= width
  {
    Or(Shr(active, k), Shl(And(active, Pow2(k) - 1), if count - k == width then 0 else count - k))
  }

  /** The round trip of the pool that starts at worker `k`. */
  function RoundTrip(active: nat, k: nat): seq<nat> {
    Up(Shr(active, k), k) + Up(And(active, Pow2(k) - 1), 0)
  }

  /** The rotation puts the upper part below the lower part. */
  lemma {:induction false} RotatedValue(active: nat, k: nat, count: nat, width: nat) returns (a: nat, low: nat)
    requires active < Pow2(count) && k < count <= width
    ensures a == Shr(active, k) < Pow2(count - k) && low == And(active, Pow2(k) - 1) < Pow2(k)
    ensures Rotated(active, k, count, width) == a + Shl(low, count - k)
  {
    var m := count - k;
    a := Shr(active, k);
    low := LowAndHigh(active, k);
    AndLowMask(low, a, k);
    Pow2Adds(m, k);
    ShrBelow(active, Pow2(m), k);
    if m == width {
      assert k == 0 && low == 0;
      ShlIsProduct(0, m);
    }
    OrSplits(m, a, low);
  }

  lemma {:induction false} SumBelow(a: nat, low: nat, m: nat, k: nat)
    requires a < Pow2(m) && low < Pow2(k)
    ensures a + Shl(low, m) < Pow2(k + m)
    ensures m > 0 ==> (a + Shl(low, m)) % 2 == a % 2
  {
    Pow2Adds(k, m);
    ShlMonotone(low + 1, Pow2(k), m);
    ShlAdds(low, 1, m);
    Pow2IsShl(m);
    if m > 0 {
      assert Shl(low, m) == 2 * Shl(low, m - 1);
    }
  }

  lemma {:induction false} RotationLists(active: nat, k: nat, count: nat, width: nat)
    requires active < Pow2(count) && k < count <= width && HasBit(active, 0, k)
    ensures Rotated(active, k, count, width) < Pow2(count)
    ensures Rotated(active, k, count, width) % 2 == 1
    ensures Cyclic(Rotated(active, k, count, width), k, count) == RoundTrip(active, k)
  {
    var a, low := RotatedValue(active, k, count, width);
    CyclicSplits(a, low, count - k, k, count);
    SumBelow(a, low, count - k, k);
  }

  lemma {:induction false} RoundTripStarts(active: nat, k: nat)
    requires HasBit(active, 0, k)
    ensures RoundTrip(active, k)[..1] == [k]
  {
    var a := Shr(active, k);
    assert Up(a, k) == [k] + Up(a / 2, k + 1);
  }

  /** How far worker `x` is from worker `k`, going round a pool of `count` workers. */
  function Distance(x: nat, k: nat, count: nat): (d: nat)
    requires k <= count
    ensures x < count ==> d < count && Wrap(k + d, count) == x
  {
    if x >= k then x - k else x + count - k
  }

  /** Every active worker is visited in a round trip, in cyclic order from the first and so exactly once. */
  lemma {:induction false} RoundTripVisitsAll(active: nat, k: nat, count: nat)
    requires k <= count && active < Pow2(count)
    ensures forall x :: x in RoundTrip(active, k) <==> HasBit(active, 0, x)
    ensures forall i :: 0 <= i < |RoundTrip(active, k)| ==> RoundTrip(active, k)[i] < count
    ensures forall i, j :: 0 <= i < j < |RoundTrip(active, k)| ==>
      Distance(RoundTrip(active, k)[i], k, count) < Distance(RoundTrip(active, k)[j], k, count)
  {
    var low := LowAndHigh(active, k);
    AndLowMask(low, Shr(active, k), k);
    UpLists(Shr(active, k), k);
    UpLists(low, 0);
    var trip := RoundTrip(active, k);
    forall x: nat ensures x in trip <==> HasBit(active, 0, x) {
      LowBits(low, Shr(active, k), k, x);
      assert x in trip <==> x in Up(Shr(active, k), k) || x in Up(low, 0);
    }
    forall i | 0 <= i < |trip| ensures trip[i] < count {
      assert trip[i] in trip;
      OneBelow(active, trip[i], count);
    }
    Ascending(Up(Shr(active, k), k), Up(low, 0), k, count) by {
      forall i | 0 <= i < |Up(Shr(active, k), k)| ensures k <= Up(Shr(active, k), k)[i] < count {
        assert trip[i] == Up(Shr(active, k), k)[i];
        assert Up(Shr(active, k), k)[i] in Up(Shr(active, k), k);
      }
      forall i | 0 <= i < |Up(low, 0)| ensures Up(low, 0)[i] < k {
        assert Up(low, 0)[i] in Up(low, 0);
        OneBelow(low, Up(low, 0)[i], k);
      }
    }
  }

  /** Positions from `k` upwards, followed by positions below `k`, are in cyclic order. */
  lemma {:induction false} Ascending(a: seq<nat>, b: seq<nat>, k: nat, count: nat)
    requires k <= count && (forall i :: 0 <= i < |a| ==> k <= a[i] < count) && (forall i :: 0 <= i < |b| ==> b[i] < k)
    requires (forall i, j :: 0 <= i < j < |a| ==> a[i] < a[j]) && (forall i, j :: 0 <= i < j < |b| ==> b[i] < b[j])
    ensures forall i, j :: 0 <= i < j < |a + b| ==> Distance((a + b)[i], k, count) < Distance((a + b)[j], k, count)
  {
  }

  /** The bits of the two parts of a word. */
  lemma {:induction false} LowBits(low: nat, high: nat, k: nat, x: nat)
    requires low < Pow2(k)
    ensures HasBit(low + Shl(high, k), 0, x) <==> if x < k then HasBit(low, 0, x) else HasBit(high, k, x)
    ensures HasBit(low, 0, x) ==> x < k
  {
    if HasBit(low, 0, x) {
      OneBelow(low, x, k);
    }
    if k > 0 {
      assert (low + Shl(high, k)) / 2 == low / 2 + Shl(high, k - 1);
      if x > 0 {
        LowBits(low / 2, high, k - 1, x - 1);
        assert HasBit(low + Shl(high, k), 0, x) == HasBit(low / 2 + Shl(high, k - 1), 0, x - 1);
        assert HasBit(low, 0, x) == HasBit(low / 2, 0, x - 1);
        assert x >= k ==> HasBit(high, k, x) == HasBit(high, k - 1, x - 1);
      }
    }
  }

  /** The iterator; `count` is the number of workers and `width` the number of bits of a word. */
  class ShuffledStealers {
    const count: nat
    const width: nat
    var candidates: nat
    var nextCandidate: nat

    ghost predicate Valid()
      reads this
    {
      && 0 < count <= width
      && nextCandidate < count
      && candidates < Pow2(count)
      && (candidates != 0 ==> candidates % 2 == 1)
    }

    /** The workers still to be visited, in order. */
    ghost function Pending(): seq<nat>
      reads this
    {
      Cyclic(candidates, nextCandidate, count)
    }

    /** Starts the round trip at the active worker selected by the random number. */
    constructor (active: nat, count: nat, P: nat, random: nat)
      requires P >= 2 && 0 < count <= Pow2(P) && active < Pow2(count) && random < Pow2(64)
      ensures Valid() && this.count == count
      ensures active == 0 ==> Pending() == []
      ensures active != 0 ==> HasBit(active, 0, nextCandidate) && Pending() == RoundTrip(active, nextCandidate)
      ensures active != 0 ==> var bits := Bits(active, Pow2(P));
        nextCandidate < |bits| && Ones(bits[..nextCandidate]) == GenBounded(random, Ones(bits))
    {
      this.count := count;
      this.width := Pow2(P);
      if active == 0 {
        candidates, nextCandidate := 0, 0;
      } else {
        SelectionInRange(active, count, P, random);
        var k := FindBit.Find(active, P, n => GenBounded(random, n) + 1);
        BitsAt(active, Pow2(P), k);
        OneBelow(active, k, count);
        RotationLists(active, k, count, Pow2(P));
        candidates, nextCandidate := Rotated(active, k, count, Pow2(P)), k;
      }
    }

    /** Yields the next worker of the round trip, or nothing at its end. */
    method Next() returns (r: Option<nat>)
      requires Valid()
      modifies this
      ensures Valid()
      ensures r.None? <==> old(Pending()) == []
      ensures r.Some? ==> old(Pending()) == [r.value] + Pending() && r.value < count
    {
      if candidates == 0 {
        return None;
      }
      ClearLowest(candidates, count, width);
      candidates := And(candidates, Pow2(width) - 2);
      var current := nextCandidate;
      if candidates != 0 {
        SkipZeros(candidates, nextCandidate, count, count);
        var shift := TrailingZeros(candidates);
        candidates := Shr(candidates, shift);
        nextCandidate := nextCandidate + shift;
        if nextCandidate >= count {
          nextCandidate := nextCandidate - count;
        }
      }
      return Some(current);
    }
  }

  lemma {:induction false} ClearLowest(c: nat, n: nat, width: nat)
    requires c < Pow2(n) && n <= width && width > 0 && c % 2 == 1
    ensures And(c, Pow2(width) - 2) == c - 1
    ensures forall i :: Cyclic(c, i, n) == [i] + Cyclic(c - 1, i, n)
  {
    Pow2Monotone(n, width);
    AndHalves(c, Pow2(width) - 2);
    AndFullMask(c / 2, width - 1);
    forall i: nat ensures Cyclic(c, i, n) == [i] + Cyclic(c - 1, i, n) {
      FirstOfCyclic(c, i, n);
    }
  }

  lemma {:induction false} FirstOfCyclic(c: nat, i: nat, n: nat)
    requires c % 2 == 1
    ensures Cyclic(c, i, n) == [i] + Cyclic(c - 1, i, n)
  {
    assert c / 2 == (c - 1) / 2;
  }

  /** The rank chosen by the random number is one of the ranks of the active workers. */
  lemma {:induction false} SelectionInRange(active: nat, count: nat, P: nat, random: nat)
    requires P >= 2 && 0 < count <= Pow2(P) && 0 < active < Pow2(count) && random < Pow2(64)
    ensures active < Pow2(Pow2(P))
    ensures var ones := Ones(Bits(active, Pow2(P)));
            1 <= GenBounded(random, ones) + 1 <= ones < Pow2(Pow2(P))
  {
    var bits := Bits(active, Pow2(P));
    Pow2Monotone(count, Pow2(P));
    SomeOne(active, Pow2(P));
    GenBoundedInRange(random, Ones(bits));
    OnesBounded(bits, P);
  }
}
