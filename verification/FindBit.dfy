/**
  `find_bit`: the position of the set bit of a given rank, by a branchless binary search over
  the partial counts of a tree of adders, for any word of `2^P` bits.
*/
module FindBit {
  import opened Words
  import opened AdderTree

  /** The first group at which the running count of ones reaches `r`, or the last group. */
  function First(fs: seq<nat>, r: nat): (k: nat)
    requires fs != []
    ensures k < |fs|
  {
    if |fs| == 1 || r <= fs[0] then 0 else 1 + First(fs[1..], r - fs[0])
  }

  lemma {:induction false} OnesMonotone(fs: seq<nat>, a: nat, b: nat)
    requires a <= b <= |fs|
    ensures Ones(fs[..a]) <= Ones(fs[..b])
  {
    assert fs[..b] == fs[..a] + fs[a..b];
    OnesConcat(fs[..a], fs[a..b]);
  }

  /** `First` is where the count of ones before it and up to it say. */
  lemma {:induction false} FirstFinds(fs: seq<nat>, r: nat)
    requires fs != []
    ensures var k := First(fs, r);
            && Ones(fs[..k]) <= r
            && (k < |fs| - 1 ==> r <= Ones(fs[..k]) + fs[k])
            && (k > 0 ==> Ones(fs[..k]) < r)
            && (r <= Ones(fs) ==> r <= Ones(fs[..k]) + fs[k])
            && (Ones(fs) < r ==> k == |fs| - 1)
  {
    var k := First(fs, r);
    if |fs| == 1 {
      assert fs[1..] == [] && Ones(fs) == fs[0];
    } else if r > fs[0] {
      FirstFinds(fs[1..], r - fs[0]);
      assert fs[..k][1..] == fs[1..][..k - 1];
    } else {
      assert fs[..k] == [];
    }
  }

  lemma {:induction false} FirstSkips(fs: seq<nat>, r: nat)
    requires |fs| > 2 && r > fs[0] + fs[1]
    ensures First(fs, r) == 2 + First(fs[2..], r - (fs[0] + fs[1]))
  {
    assert fs[1..][1..] == fs[2..];
  }

  lemma {:induction false} FirstStays(fs: seq<nat>, r: nat)
    requires |fs| >= 2 && (|fs| == 2 || r <= fs[0] + fs[1])
    ensures First(fs, r) == if fs[0] < r then 1 else 0
  {
    assert fs[1..][0] == fs[1];
  }

  lemma {:induction false} FirstOfTail(sums: seq<nat>, tail: seq<nat>, r: nat, rest: nat)
    requires |sums| > 1 && tail == sums[1..] && r > sums[0] && rest == r - sums[0]
    ensures First(sums, r) == 1 + First(tail, rest)
    ensures Ones(sums[..First(sums, r)]) == sums[0] + Ones(tail[..First(tail, rest)])
  {
    var k := First(sums, r);
    assert sums[..k][1..] == tail[..k - 1];
  }

  lemma {:induction false} PairSumsTail(fs: seq<nat>)
    requires |fs| % 2 == 0 && |fs| > 2
    ensures PairSums(fs)[1..] == PairSums(fs[2..])
  {
  }

  /** The group of half the width is one of the two halves of the group of full width. */
  lemma {:induction false} FirstHalves(fs: seq<nat>, r: nat)
    requires |fs| % 2 == 0 && |fs| >= 2
    ensures var K := First(PairSums(fs), r);
            && Ones(PairSums(fs)[..K]) <= r
            && First(fs, r) == if fs[2 * K] < r - Ones(PairSums(fs)[..K]) then 2 * K + 1 else 2 * K
    decreases |fs|
  {
    var sums := PairSums(fs);
    if |fs| == 2 || r <= sums[0] {
      FirstStays(fs, r);
      assert First(sums, r) == 0 && sums[..0] == [];
    } else {
      var tail, rest := PairSums(fs[2..]), r - sums[0];
      FirstSkips(fs, r);
      PairSumsTail(fs);
      FirstHalves(fs[2..], rest);
      FirstOfTail(sums, tail, r, rest);
      assert fs[2..][2 * First(tail, rest)] == fs[2 * First(sums, r)];
    }
  }

  /**
    The group in which the search for rank `r0` ends up: beyond `limit` the comparison of signed
    numbers overflows and the search never leaves the first group.
  */
  function Target(fs: seq<nat>, r0: nat, limit: nat): (k: nat)
    requires fs != []
    ensures k < |fs|
  {
    if r0 > limit then 0 else First(fs, r0)
  }

  predicate Taken(lower: nat, r: nat, half: nat) {
    lower < r && r - lower <= half
  }

  lemma {:induction false} SplitGroup(fs: seq<nat>, K: nat)
    requires |fs| % 2 == 0 && 2 * K < |fs|
    ensures PairSums(fs)[K] <= Ones(fs)
    ensures Ones(fs[..2 * K]) == Ones(PairSums(fs)[..K])
    ensures Ones(fs[..2 * K + 1]) == Ones(PairSums(fs)[..K]) + fs[2 * K]
  {
    PairSumsPrefix(fs, K);
    PairSumsTotal(fs);
    OnesExtend(fs, 2 * K);
    ElementBounded(PairSums(fs), K);
  }

  /** One level down: the comparison with the count of the lower half chooses the half. */
  lemma {:induction false} LevelDown(fs: seq<nat>, sums: seq<nat>, r0: nat, h: nat, half: nat)
    returns (K: nat, k: nat, below: nat)
    requires |fs| % 2 == 0 && |fs| >= 2 && Ones(fs) <= half && h == Ones(fs[..|fs| / 2])
    requires sums == PairSums(fs)
    ensures K == Target(sums, r0, half + h) && k == Target(fs, r0, half + h)
    ensures below == Ones(sums[..K]) <= r0
    ensures k == if Taken(fs[2 * K], r0 - below, half) then 2 * K + 1 else 2 * K
    ensures Ones(fs[..k]) == below + if Taken(fs[2 * K], r0 - below, half) then fs[2 * K] else 0
  {
    K, k := Target(sums, r0, half + h), Target(fs, r0, half + h);
    below := Ones(sums[..K]);
    SplitGroup(fs, K);
    if r0 > half + h {
      assert sums[..0] == [] && fs[..0] == [];
      OnesMonotone(fs, 1, |fs| / 2);
    } else {
      FirstHalves(fs, r0);
      FirstFinds(sums, r0);
      if 2 * K + 1 >= |fs| / 2 {
        OnesMonotone(fs, |fs| / 2, 2 * K + 1);
      }
    }
  }

  // The comparison without branches.

  /** `a - b` with wrap-around. */
  function WrappingSub(a: nat, b: nat, width: nat): nat
    requires a < Pow2(width) && b < Pow2(width)
  {
    if a >= b then a - b else a + Pow2(width) - b
  }

  /** The sign bit of `lower - rank`, shifted arithmetically over the whole word. */
  function CmpMask(lower: nat, rank: nat, width: nat): nat
    requires width > 0 && lower < Pow2(width) && rank < Pow2(width)
  {
    if WrappingSub(lower, rank, width) >= Pow2(width - 1) then Pow2(width) - 1 else 0
  }

  /** The masked updates are the two branches of a comparison. */
  lemma {:induction false} MaskedBranch(lower: nat, r: nat, x: nat, width: nat)
    requires width > 0 && lower < Pow2(width - 1) && r < Pow2(width) && x < Pow2(width)
    ensures And(x, CmpMask(lower, r, width)) == if Taken(lower, r, Pow2(width - 1)) then x else 0
  {
    AndFullMask(x, width);
  }

  // The iterations on words.

  /** What is read at the current position: the count of the lower half of the current group. */
  lemma {:induction false} LowerSum(bits: seq<nat>, p: nat, P: nat, k: nat)
    requires p < P && |bits| == Pow2(P) && Fit(1, bits) && 2 * k < Pow2(P - p)
    ensures And(Shr(SumWord(bits, p, P), Pow2(p) * (2 * k)), Pow2(Pow2(p)) - 1) == Sums(bits, p, P)[2 * k]
  {
    var fs := Sums(bits, p, P);
    SumsBounded(bits, p, P);
    WordShifts(Pow2(p), fs, 2 * k);
    WordLowField(Pow2(p), fs[2 * k..]);
  }

  lemma {:induction false} DoubledGroup(p: nat, k: nat)
    ensures Pow2(p + 1) * k == Pow2(p) * (2 * k)
    ensures Pow2(p) * (2 * k + 1) == Pow2(p) * (2 * k) + Pow2(p)
  {
  }

  /** The largest rank for which a rank beyond the number of ones yields the last position. */
  function Limit(bits: seq<nat>, P: nat): nat {
    Pow2(Pow2(P) - 1) + Ones(bits[..|bits| / 2])
  }

  lemma {:induction false} LowerHalf(bits: seq<nat>, p: nat, P: nat)
    requires p < P && |bits| == Pow2(P)
    ensures var fs := Sums(bits, p, P); Ones(fs[..|fs| / 2]) == Ones(bits[..|bits| / 2])
  {
    var n := Pow2(P - p - 1);
    Pow2Product(P - p - 1, p);
    assert Pow2(P) == 2 * Pow2(P - 1) && Pow2(P - p) == 2 * n;
    FirstSums(bits, p, P, n);
  }

  /** What `LevelDown` asks of the counts of a level, and the bounds of the words read. */
  lemma {:induction false} LevelBounds(bits: seq<nat>, p: nat, P: nat, i: nat)
    requires P >= 2 && p < P && |bits| == Pow2(P) && Fit(1, bits) && i < Pow2(P - p)
    ensures var fs := Sums(bits, p, P);
            && |fs| % 2 == 0 && |fs| >= 2 && Ones(fs) == Ones(bits) <= Pow2(Pow2(P) - 1)
            && fs[i] < Pow2(Pow2(P) - 1) && Pow2(p) < Pow2(Pow2(P) - 1)
  {
    var fs := Sums(bits, p, P);
    assert |fs| == 2 * Pow2(P - p - 1);
    assert Ones(bits) <= Pow2(P) < Pow2(Pow2(P) - 1) by {
      OnesBounded(bits, P);
    }
    assert Ones(fs) == Ones(bits) && fs[i] <= Ones(fs) by {
      SumsTotal(bits, p, P);
      ElementBounded(fs, i);
    }
    Pow2Monotone(p, P);
  }

  /** The state of the search before the iterations of levels `p - 1` down to 0. */
  predicate At(bits: seq<nat>, p: nat, P: nat, r0: nat, rank: int, shift: nat)
    requires p <= P && |bits| == Pow2(P)
  {
    var k := Target(Sums(bits, p, P), r0, Limit(bits, P));
    shift == Pow2(p) * k && rank == r0 - Ones(Sums(bits, p, P)[..k])
  }

  /** The updates of one iteration, on numbers alone. */
  lemma {:induction false} Update(p: nat, P: nat, K: nat, k: nat, lower: nat, rank: nat)
    requires rank < Pow2(Pow2(P)) && lower < Pow2(Pow2(P) - 1) && Pow2(p) < Pow2(Pow2(P) - 1)
    requires k == if Taken(lower, rank, Pow2(Pow2(P) - 1)) then 2 * K + 1 else 2 * K
    ensures var mask := CmpMask(lower, rank, Pow2(P));
            && Pow2(p) * k == Pow2(p + 1) * K + And(Pow2(p), mask)
            && And(lower, mask) == if Taken(lower, rank, Pow2(Pow2(P) - 1)) then lower else 0
  {
    DoubledGroup(p, K);
    MaskedBranch(lower, rank, lower, Pow2(P));
    MaskedBranch(lower, rank, Pow2(p), Pow2(P));
  }

  /** One iteration in terms of the counts. */
  lemma {:induction false} Counts(bits: seq<nat>, p: nat, P: nat, r0: nat)
    returns (K: nat, k: nat, below: nat, lower: nat)
    requires P >= 2 && p < P && |bits| == Pow2(P) && Fit(1, bits)
    ensures K == Target(Sums(bits, p + 1, P), r0, Limit(bits, P)) && below == Ones(Sums(bits, p + 1, P)[..K]) <= r0
    ensures k == Target(Sums(bits, p, P), r0, Limit(bits, P))
    ensures 2 * K < Pow2(P - p) && lower == Sums(bits, p, P)[2 * K]
    ensures lower < Pow2(Pow2(P) - 1) && Pow2(p) < Pow2(Pow2(P) - 1)
    ensures k == if Taken(lower, r0 - below, Pow2(Pow2(P) - 1)) then 2 * K + 1 else 2 * K
    ensures Ones(Sums(bits, p, P)[..k]) == below + if Taken(lower, r0 - below, Pow2(Pow2(P) - 1)) then lower else 0
  {
    var fs := Sums(bits, p, P);
    LevelBounds(bits, p, P, 0);
    LowerHalf(bits, p, P);
    K, k, below := LevelDown(fs, Sums(bits, p + 1, P), r0, Ones(bits[..|bits| / 2]), Pow2(Pow2(P) - 1));
    lower := fs[2 * K];
    LevelBounds(bits, p, P, 2 * K);
  }

  /** One iteration of the search. */
  lemma {:induction false} Iterate(bits: seq<nat>, p: nat, P: nat, r0: nat, rank: nat, shift: nat)
    requires P >= 2 && p < P && |bits| == Pow2(P) && Fit(1, bits)
    requires r0 < Pow2(Pow2(P)) && rank <= r0 && At(bits, p + 1, P, r0, rank, shift)
    ensures var lower := And(Shr(SumWord(bits, p, P), shift), Pow2(Pow2(p)) - 1);
            && lower < Pow2(Pow2(P))
            && var mask := CmpMask(lower, rank, Pow2(P));
            && And(lower, mask) <= rank
            && At(bits, p, P, r0, rank - And(lower, mask), shift + And(Pow2(p), mask))
  {
    var K, k, below, lower := Counts(bits, p, P, r0);
    DoubledGroup(p, K);
    LowerSum(bits, p, P, K);
    Update(p, P, K, k, lower, rank);
  }

  /** Where the search ends, for every rank. */
  predicate Outcome(bits: seq<nat>, P: nat, rank: nat, pos: nat) {
    && pos < |bits|
    && (rank == 0 ==> pos == 0)
    && (1 <= rank <= Ones(bits) ==> bits[pos] == 1 && Ones(bits[..pos]) == rank - 1)
    && (Ones(bits) < rank <= Limit(bits, P) ==> pos == |bits| - 1)
    && (Limit(bits, P) < rank ==> pos == 0)
  }

  lemma {:induction false} SearchEnds(bits: seq<nat>, P: nat, r0: nat, rank: nat, shift: nat)
    requires P >= 2 && |bits| == Pow2(P) && Fit(1, bits) && At(bits, 0, P, r0, rank, shift)
    ensures Outcome(bits, P, r0, shift)
  {
    FirstFinds(bits, r0);
    OnesBounded(bits, P);
    assert Pow2(1) == 2 * Pow2(0);
  }

  /** The binary search over the partial sums. */
  method Search(sum: array<nat>, P: nat, r0: nat, ghost bits: seq<nat>) returns (shift: nat)
    requires P >= 2 && |bits| == Pow2(P) && Fit(1, bits) && r0 < Pow2(Pow2(P))
    requires sum.Length == P + 1 && forall p :: 0 <= p <= P ==> sum[p] == SumWord(bits, p, P)
    ensures Outcome(bits, P, r0, shift)
  {
    TopSum(bits, P);
    var rank := r0;
    shift := 0;
    assert At(bits, P, P, r0, rank, shift) by {
      assert Sums(bits, P, P)[..0] == [];
    }
    for p := P downto 0
      invariant 0 <= rank <= r0 && At(bits, p, P, r0, rank, shift)
    {
      Iterate(bits, p, P, r0, rank, shift);
      var lowerSum := And(Shr(sum[p], shift), Pow2(Pow2(p)) - 1);
      var mask := CmpMask(lowerSum, rank, Pow2(P));
      rank := rank - And(lowerSum, mask);
      shift := shift + And(Pow2(p), mask);
    }
    SearchEnds(bits, P, r0, rank, shift);
  }

  /**
    `find_bit` on words of `2^P` bits. The rank is chosen by the caller from the number of set
    bits. For every rank up to that number the bit of that rank is found; the last position,
    documented for every larger rank, is returned exactly up to `Limit`, and beyond it the
    result is 0.
  */
  method Find(value: nat, P: nat, rankFn: nat -> nat) returns (pos: nat)
    requires P >= 2 && value < Pow2(Pow2(P))
    requires rankFn(Ones(Bits(value, Pow2(P)))) < Pow2(Pow2(P))
    ensures Outcome(Bits(value, Pow2(P)), P, rankFn(Ones(Bits(value, Pow2(P)))), pos)
  {
    var M := SumMasks(P);
    var sum := TreeOfAdders(value, P, M);
    TopSum(Bits(value, Pow2(P)), P);
    pos := Search(sum, P, rankFn(sum[P]), Bits(value, Pow2(P)));
  }
}
