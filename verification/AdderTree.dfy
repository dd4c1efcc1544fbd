/**
  The tree of adders of `find_bit`: from a word of `2^P` bits to the words of partial counts of
  ones in groups of 2, 4, 8 ... adjacent bits.
*/
module AdderTree {
  import opened Words

  /** The number of ones of a word given by its bits, or of a list of partial counts. */
  function Ones(fs: seq<nat>): nat {
    if fs == [] then 0 else fs[0] + Ones(fs[1..])
  }

  lemma {:induction false} OnesConcat(a: seq<nat>, b: seq<nat>)
    ensures Ones(a + b) == Ones(a) + Ones(b)
  {
    if a == [] {
      assert a + b == b;
    } else {
      OnesConcat(a[1..], b);
      assert (a + b)[1..] == a[1..] + b;
    }
  }

  function PairSums(fs: seq<nat>): (r: seq<nat>)
    requires |fs| % 2 == 0
    ensures |r| == |fs| / 2
    ensures forall i :: 0 <= i < |r| ==> r[i] == fs[2 * i] + fs[2 * i + 1]
  {
    seq(|fs| / 2, i requires 0 <= i < |fs| / 2 => fs[2 * i] + fs[2 * i + 1])
  }

  lemma {:induction false} PairSumsPrefix(fs: seq<nat>, k: nat)
    requires |fs| % 2 == 0 && 2 * k <= |fs|
    ensures Ones(PairSums(fs)[..k]) == Ones(fs[..2 * k])
  {
    if k > 0 {
      PairSumsPrefix(fs, k - 1);
      assert PairSums(fs)[..k] == PairSums(fs)[..k - 1] + [PairSums(fs)[k - 1]];
      assert fs[..2 * k] == fs[..2 * (k - 1)] + [fs[2 * k - 2], fs[2 * k - 1]];
      OnesConcat(PairSums(fs)[..k - 1], [PairSums(fs)[k - 1]]);
      OnesConcat(fs[..2 * (k - 1)], [fs[2 * k - 2], fs[2 * k - 1]]);
      assert [fs[2 * k - 2], fs[2 * k - 1]][1..] == [fs[2 * k - 1]];
      assert Ones([fs[2 * k - 1]]) == fs[2 * k - 1];
    }
  }

  lemma {:induction false} PairSumsTotal(fs: seq<nat>)
    requires |fs| % 2 == 0
    ensures Ones(PairSums(fs)) == Ones(fs)
  {
    var k := |PairSums(fs)|;
    PairSumsPrefix(fs, k);
    assert PairSums(fs)[..k] == PairSums(fs);
    assert fs[..2 * k] == fs;
  }

  lemma {:induction false} OnesExtend(fs: seq<nat>, k: nat)
    requires k < |fs|
    ensures Ones(fs[..k + 1]) == Ones(fs[..k]) + fs[k]
  {
    assert fs[..k + 1] == fs[..k] + [fs[k]];
    OnesConcat(fs[..k], [fs[k]]);
    assert Ones([fs[k]]) == fs[k];
  }

  /** The bits of a word of `n` bits. */
  function Bits(value: nat, n: nat): (r: seq<nat>)
    ensures |r| == n && Fit(1, r)
  {
    if n == 0 then [] else [value % 2] + Bits(value / 2, n - 1)
  }

  lemma {:induction false} BitsRoundTrip(value: nat, n: nat)
    requires value < Pow2(n)
    ensures Word(1, Bits(value, n)) == value
  {
    if n > 0 {
      BitsRoundTrip(value / 2, n - 1);
      assert Bits(value, n)[1..] == Bits(value / 2, n - 1);
      assert Shl(value / 2, 1) == 2 * Shl(value / 2, 0);
    }
  }

  /** The counts of ones in the groups of `2^p` adjacent bits. */
  function Sums(bits: seq<nat>, p: nat, P: nat): (r: seq<nat>)
    requires p <= P && |bits| == Pow2(P)
    ensures |r| == Pow2(P - p)
  {
    if p == 0 then bits else PairSums(Sums(bits, p - 1, P))
  }

  lemma {:induction false} SumsBounded(bits: seq<nat>, p: nat, P: nat)
    requires p <= P && |bits| == Pow2(P) && Fit(1, bits)
    ensures forall k :: 0 <= k < Pow2(P - p) ==> Sums(bits, p, P)[k] <= Pow2(p)
    ensures Fit(Pow2(p), Sums(bits, p, P))
  {
    if p > 0 { SumsBounded(bits, p - 1, P); }
    Pow2Exceeds(Pow2(p));
  }

  // Masks.

  /** The fields of the mask that selects every other field. */
  function MaskFields(w: nat, n: nat): (r: seq<nat>)
    ensures |r| == n && Fit(w, r)
    ensures forall i :: 0 <= i < n ==> r[i] == if i % 2 == 0 then Pow2(w) - 1 else 0
  {
    seq(n, i => if i % 2 == 0 then Pow2(w) - 1 else 0)
  }

  function EvenFields(fs: seq<nat>): (r: seq<nat>)
    ensures |r| == |fs|
    ensures forall i :: 0 <= i < |r| ==> r[i] == if i % 2 == 0 then fs[i] else 0
  {
    seq(|fs|, i requires 0 <= i < |fs| => if i % 2 == 0 then fs[i] else 0)
  }

  lemma {:induction false} MaskSelects(w: nat, fs: seq<nat>)
    requires Fit(w, fs)
    ensures And(Word(w, fs), Word(w, MaskFields(w, |fs|))) == Word(w, EvenFields(fs))
  {
    var ms, es := MaskFields(w, |fs|), EvenFields(fs);
    forall i | 0 <= i < |fs| ensures es[i] == And(fs[i], ms[i]) {
      AndFullMask(fs[i], w);
    }
    WordAnd(w, fs, ms, es);
  }

  lemma {:induction false} AllOnes(w: nat, n: nat)
    ensures Word(w, seq(n, i => Pow2(w) - 1)) == Pow2(w * n) - 1
  {
    var fs := seq(n, i => Pow2(w) - 1);
    if n == 0 {
      assert w * n == 0;
    } else {
      AllOnes(w, n - 1);
      assert fs[1..] == seq(n - 1, i => Pow2(w) - 1);
      assert w * n == w * (n - 1) + w;
      Pow2Adds(w * (n - 1), w);
      ShlAdds(Pow2(w * (n - 1)) - 1, 1, w);
      Pow2IsShl(w);
    }
  }

  lemma {:induction false} ExactQuotient(q: nat, d: nat, x: nat)
    requires d > 0 && q * d == x
    ensures x / d == q
  {
    var e := x / d - q;
    assert x == d * (x / d) + x % d;
    assert d * e == d * (x / d) - q * d;
    ProductSign(d, e);
  }

  lemma {:induction false} ProductSign(d: int, e: int)
    requires d >= 0
    ensures e >= 1 ==> d * e >= d
    ensures e <= -1 ==> d * e <= -d
  {
  }

  /** The mask and its copy one field higher fill the word. */
  lemma {:induction false} MaskTwice(w: nat, n: nat)
    requires n % 2 == 0
    ensures var m := Word(w, MaskFields(w, n)); m + Shl(m, w) == Pow2(w * n) - 1
  {
    var fs := MaskFields(w, n);
    WordPads(w, fs);
    assert ([0] + fs)[1..] == fs;
    var ones := seq(n, i => Pow2(w) - 1);
    WordAdd(w, fs + [0], [0] + fs, ones + [0]);
    WordPads(w, ones);
    AllOnes(w, n);
  }

  /** The source computes the mask as `!0 / (1 + 2^w)`. */
  lemma {:induction false} MaskValue(w: nat, n: nat)
    requires n % 2 == 0
    ensures Word(w, MaskFields(w, n)) == (Pow2(w * n) - 1) / (1 + Pow2(w))
  {
    var m := Word(w, MaskFields(w, n));
    MaskTwice(w, n);
    ShlIsProduct(m, w);
    Distribute(m, Pow2(w));
    ExactQuotient(m, 1 + Pow2(w), Pow2(w * n) - 1);
  }

  lemma {:induction false} Distribute(m: nat, b: nat)
    ensures m * (1 + b) == m + b * m
  {
  }

  // One level of the tree of adders, in its three forms.

  /** Fields on the even positions only: the word of the pair sums, at twice the width. */
  function Spread(hs: seq<nat>): (r: seq<nat>)
    ensures |r| == 2 * |hs|
    ensures forall i :: 0 <= i < |r| ==> r[i] == if i % 2 == 0 then hs[i / 2] else 0
  {
    seq(2 * |hs|, i requires 0 <= i < 2 * |hs| => if i % 2 == 0 then hs[i / 2] else 0)
  }

  lemma {:induction false} SpreadWord(w: nat, hs: seq<nat>)
    ensures Word(w, Spread(hs)) == Word(2 * w, hs)
  {
    ShlIsProduct(0, w);
    WordPairs(w, Spread(hs), hs);
  }

  lemma {:induction false} EvenSum(w: nat, fs: seq<nat>)
    requires |fs| % 2 == 0 && |fs| > 0
    ensures Word(w, EvenFields(fs)) + Word(w, EvenFields(fs[1..] + [0])) == Word(2 * w, PairSums(fs))
  {
    var hs := PairSums(fs);
    forall i | 0 <= i < |fs|
      ensures Spread(hs)[i] == EvenFields(fs)[i] + EvenFields(fs[1..] + [0])[i]
    {
      if i % 2 == 0 { assert hs[i / 2] == fs[i] + fs[i + 1]; }
    }
    WordAdd(w, EvenFields(fs), EvenFields(fs[1..] + [0]), Spread(hs));
    SpreadWord(w, hs);
  }

  /** `x >> w` has the same fields as `x`, one position lower. */
  lemma {:induction false} ShiftedFields(w: nat, fs: seq<nat>)
    requires |fs| > 0 && Fit(w, fs)
    ensures Shr(Word(w, fs), w) == Word(w, fs[1..] + [0])
    ensures Fit(w, fs[1..] + [0]) && |fs[1..] + [0]| == |fs|
  {
    WordShifts(w, fs, 1);
    WordPads(w, fs[1..]);
  }

  /** `(x & M) + ((x >> w) & M)` */
  lemma {:induction false} MaskedSum(w: nat, fs: seq<nat>)
    requires |fs| % 2 == 0 && |fs| > 0 && Fit(w, fs)
    ensures var x, m := Word(w, fs), Word(w, MaskFields(w, |fs|));
            And(x, m) + And(Shr(x, w), m) == Word(2 * w, PairSums(fs))
  {
    ShiftedFields(w, fs);
    MaskSelects(w, fs);
    MaskSelects(w, fs[1..] + [0]);
    EvenSum(w, fs);
  }

  function Uppers(fs: seq<nat>): (r: seq<nat>)
    requires |fs| % 2 == 0
    ensures |r| == |fs| / 2
    ensures forall i :: 0 <= i < |r| ==> r[i] == fs[2 * i + 1]
  {
    seq(|fs| / 2, i requires 0 <= i < |fs| / 2 => fs[2 * i + 1])
  }

  lemma {:induction false} UppersSpread(fs: seq<nat>)
    requires |fs| % 2 == 0 && |fs| > 0
    ensures EvenFields(fs[1..] + [0]) == Spread(Uppers(fs))
  {
    forall i | 0 <= i < |fs| ensures EvenFields(fs[1..] + [0])[i] == Spread(Uppers(fs))[i] {
      if i % 2 == 0 { assert Uppers(fs)[i / 2] == fs[i + 1]; }
    }
  }

  lemma {:induction false} Doubled(x: nat)
    ensures Shl(x, 1) == 2 * x
  {
    assert Shl(x, 1) == 2 * Shl(x, 0);
  }

  function BitPairs(fs: seq<nat>): (r: seq<nat>)
    requires |fs| % 2 == 0
    ensures |r| == |fs| / 2
    ensures forall i :: 0 <= i < |r| ==> r[i] == fs[2 * i] + 2 * fs[2 * i + 1]
  {
    seq(|fs| / 2, i requires 0 <= i < |fs| / 2 => fs[2 * i] + 2 * fs[2 * i + 1])
  }

  /** A pair of bits read as a two-bit number is the sum of the pair and the upper bit. */
  lemma {:induction false} PairsOfBits(fs: seq<nat>, w: nat)
    requires |fs| % 2 == 0 && w == 1
    ensures Word(w, fs) == Word(2 * w, PairSums(fs)) + Word(2 * w, Uppers(fs))
  {
    var pairs := BitPairs(fs);
    forall i | 0 <= i < |pairs| ensures pairs[i] == fs[2 * i] + Shl(fs[2 * i + 1], w) {
      Doubled(fs[2 * i + 1]);
    }
    WordPairs(w, fs, pairs);
    WordAdd(2 * w, PairSums(fs), Uppers(fs), pairs);
  }

  /** `x - ((x >> 1) & M)` on single bits */
  lemma {:induction false} SubtractedSum(fs: seq<nat>)
    requires |fs| % 2 == 0 && |fs| > 0 && Fit(1, fs)
    ensures var x, m := Word(1, fs), Word(1, MaskFields(1, |fs|));
            x == Word(2, PairSums(fs)) + And(Shr(x, 1), m)
  {
    ShiftedFields(1, fs);
    MaskSelects(1, fs[1..] + [0]);
    UppersSpread(fs);
    SpreadWord(1, Uppers(fs));
    PairsOfBits(fs, 1);
  }

  function NeighbourSums(fs: seq<nat>): (r: seq<nat>)
    ensures |r| == |fs|
    ensures forall i {:trigger r[i]} :: 0 <= i < |r| ==> r[i] == fs[i] + if i + 1 < |fs| then fs[i + 1] else 0
  {
    seq(|fs|, i requires 0 <= i < |fs| => fs[i] + if i + 1 < |fs| then fs[i + 1] else 0)
  }

  lemma {:induction false} NeighboursSpread(fs: seq<nat>)
    requires |fs| % 2 == 0
    ensures EvenFields(NeighbourSums(fs)) == Spread(PairSums(fs))
  {
    forall i | 0 <= i < |fs| ensures EvenFields(NeighbourSums(fs))[i] == Spread(PairSums(fs))[i] {
      if i % 2 == 0 { assert PairSums(fs)[i / 2] == fs[i] + fs[i + 1]; }
    }
  }

  /** Small counts: the sums of neighbours fit, and are the sums with the shifted fields. */
  lemma {:induction false} NeighboursFit(w: nat, fs: seq<nat>)
    requires forall i :: 0 <= i < |fs| ==> 2 * fs[i] < Pow2(w)
    ensures Fit(w, NeighbourSums(fs))
  {
    var gs := NeighbourSums(fs);
    forall i | 0 <= i < |gs| ensures gs[i] < Pow2(w) {
      if i + 1 < |fs| { assert 2 * fs[i + 1] < Pow2(w); }
    }
  }

  lemma {:induction false} NeighboursAdd(w: nat, fs: seq<nat>, next: seq<nat>)
    requires |fs| > 0 && next == fs[1..] + [0]
    ensures Word(w, fs) + Word(w, next) == Word(w, NeighbourSums(fs))
  {
    var gs := NeighbourSums(fs);
    forall i | 0 <= i < |gs| ensures gs[i] == fs[i] + next[i] {
    }
    WordAdd(w, fs, next, gs);
  }

  /** `(x + (x >> w)) & M`, valid when neighbouring counts cannot overflow a field */
  lemma {:induction false} LateMaskedSum(w: nat, fs: seq<nat>)
    requires |fs| % 2 == 0 && |fs| > 0 && Fit(w, fs)
    requires forall i :: 0 <= i < |fs| ==> 2 * fs[i] < Pow2(w)
    ensures var x, m := Word(w, fs), Word(w, MaskFields(w, |fs|));
            And(x + Shr(x, w), m) == Word(2 * w, PairSums(fs))
  {
    ShiftedFields(w, fs);
    NeighboursFit(w, fs);
    NeighboursAdd(w, fs, fs[1..] + [0]);
    MaskSelects(w, NeighbourSums(fs));
    NeighboursSpread(fs);
    SpreadWord(w, PairSums(fs));
  }

  /** The addition does not overflow a word of `bits` bits. */
  lemma {:induction false} LateSumFits(w: nat, fs: seq<nat>, bits: nat)
    requires |fs| > 0 && Fit(w, fs) && bits == w * |fs|
    requires forall i :: 0 <= i < |fs| ==> 2 * fs[i] < Pow2(w)
    ensures Word(w, fs) + Shr(Word(w, fs), w) < Pow2(bits)
  {
    ShiftedFields(w, fs);
    NeighboursFit(w, fs);
    NeighboursAdd(w, fs, fs[1..] + [0]);
    WordBounded(w, NeighbourSums(fs));
  }

  // All levels together.

  lemma {:induction false} Pow2Product(a: nat, b: nat)
    ensures Pow2(a) * Pow2(b) == Pow2(a + b)
  {
    Pow2Adds(b, a);
    ShlIsProduct(Pow2(b), a);
  }

  lemma {:induction false} SumsTotal(bits: seq<nat>, p: nat, P: nat)
    requires p <= P && |bits| == Pow2(P)
    ensures Ones(Sums(bits, p, P)) == Ones(bits)
  {
    if p > 0 {
      SumsTotal(bits, p - 1, P);
      PairSumsTotal(Sums(bits, p - 1, P));
    }
  }

  /** The mask of level `p` as the source computes it. */
  function SumMask(p: nat, P: nat): nat {
    (Pow2(Pow2(P)) - 1) / (1 + Pow2(Pow2(p)))
  }

  /** The mask of level `p`: every other field of `2^p` bits is all ones, and the others are zero. */
  predicate IsMask(m: nat, p: nat, P: nat)
    requires p <= P
  {
    m == Word(Pow2(p), MaskFields(Pow2(p), Pow2(P - p)))
  }

  lemma {:induction false} MaskIsQuotient(p: nat, P: nat, w: nat, n: nat)
    requires p < P && w == Pow2(p) && n == Pow2(P - p)
    ensures SumMask(p, P) == Word(w, MaskFields(w, n))
  {
    assert w * n == Pow2(P) by {
      Pow2Product(p, P - p);
    }
    assert n == 2 * Pow2(P - p - 1);
    MaskValue(w, n);
  }

  /** The word of partial counts of level `p`. */
  function SumWord(bits: seq<nat>, p: nat, P: nat): nat
    requires p <= P && |bits| == Pow2(P)
  {
    Word(Pow2(p), Sums(bits, p, P))
  }

  /** The fields of a level, and the width of the next. */
  lemma {:induction false} LevelFields(bits: seq<nat>, p: nat, P: nat, fs: seq<nat>)
    requires p < P && |bits| == Pow2(P) && Fit(1, bits) && fs == Sums(bits, p, P)
    ensures |fs| == Pow2(P - p) && |fs| % 2 == 0 && |fs| > 0 && Fit(Pow2(p), fs)
    ensures SumWord(bits, p, P) == Word(Pow2(p), fs) && SumWord(bits, p + 1, P) == Word(2 * Pow2(p), PairSums(fs))
  {
    SumsBounded(bits, p, P);
    assert Pow2(P - p) == 2 * Pow2(P - p - 1);
  }

  /** The addition step leads from one level of counts to the next: on single bits, */
  lemma {:induction false} BottomUp(bits: seq<nat>, P: nat, x: nat, y: nat, m: nat)
    requires 0 < P && |bits| == Pow2(P) && Fit(1, bits)
    requires x == SumWord(bits, 0, P) && y == SumWord(bits, 1, P) && IsMask(m, 0, P)
    ensures x == y + And(Shr(x, 1), m)
  {
    LevelFields(bits, 0, P, Sums(bits, 0, P));
    SubtractedSum(Sums(bits, 0, P));
  }

  /** in general, */
  lemma {:induction false} LevelUp(bits: seq<nat>, p: nat, P: nat, x: nat, y: nat, m: nat)
    requires p < P && |bits| == Pow2(P) && Fit(1, bits)
    requires x == SumWord(bits, p, P) && y == SumWord(bits, p + 1, P) && IsMask(m, p, P)
    ensures y == And(x, m) + And(Shr(x, Pow2(p)), m)
  {
    LevelFields(bits, p, P, Sums(bits, p, P));
    MaskedSum(Pow2(p), Sums(bits, p, P));
  }

  /** and on counts that cannot overflow their field. */
  lemma {:induction false} HighUp(bits: seq<nat>, p: nat, P: nat, x: nat, y: nat, m: nat, fs: seq<nat>)
    requires 2 <= p < P && |bits| == Pow2(P) && Fit(1, bits) && fs == Sums(bits, p, P)
    requires x == SumWord(bits, p, P) && y == SumWord(bits, p + 1, P) && IsMask(m, p, P)
    ensures y == And(x + Shr(x, Pow2(p)), m)
  {
    LevelFields(bits, p, P, fs);
    HighCounts(bits, p, P, fs);
    LateMaskedSum(Pow2(p), fs);
  }

  lemma {:induction false} HighFits(bits: seq<nat>, p: nat, P: nat)
    requires 2 <= p < P && |bits| == Pow2(P) && Fit(1, bits)
    ensures var x := SumWord(bits, p, P); x + Shr(x, Pow2(p)) < Pow2(Pow2(P))
  {
    var fs := Sums(bits, p, P);
    LevelFields(bits, p, P, fs);
    HighCounts(bits, p, P, fs);
    Pow2Product(p, P - p);
    LateSumFits(Pow2(p), fs, Pow2(P));
  }

  lemma {:induction false} HighCounts(bits: seq<nat>, p: nat, P: nat, fs: seq<nat>)
    requires 2 <= p < P && |bits| == Pow2(P) && Fit(1, bits) && fs == Sums(bits, p, P)
    ensures forall i :: 0 <= i < |fs| ==> 2 * fs[i] < Pow2(Pow2(p))
  {
    SumsBounded(bits, p, P);
    assert Pow2(p) == 4 * Pow2(p - 2);
    Pow2Exceeds(Pow2(p));
  }

  // The tables of masks and sums. Their elements are looked up by lemmas only, one at a time.

  predicate AreMasks(masks: seq<nat>, P: nat) {
    |masks| == P && forall p {:trigger IsMask(masks[p], p, P)} :: 0 <= p < P ==> IsMask(masks[p], p, P)
  }

  /** The number `x` holds the counts of level `p`. */
  ghost predicate IsSum(x: nat, bits: seq<nat>, p: nat, P: nat) {
    p <= P && |bits| == Pow2(P) && x == SumWord(bits, p, P)
  }

  ghost predicate AreSums(sums: seq<nat>, bits: seq<nat>, P: nat) {
    |sums| == P + 1 && forall p {:trigger IsSum(sums[p], bits, p, P)} :: 0 <= p <= P ==> IsSum(sums[p], bits, p, P)
  }

  ghost function AllSums(bits: seq<nat>, P: nat): (r: seq<nat>)
    requires |bits| == Pow2(P)
    ensures AreSums(r, bits, P)
  {
    seq(P + 1, p requires 0 <= p <= P => SumWord(bits, p, P))
  }

  lemma {:induction false} SumsAre(sums: seq<nat>, bits: seq<nat>, P: nat)
    requires AreSums(sums, bits, P)
    ensures |bits| == Pow2(P) && forall p :: 0 <= p <= P ==> sums[p] == SumWord(bits, p, P)
  {
    forall p | 0 <= p <= P ensures |bits| == Pow2(P) && sums[p] == SumWord(bits, p, P) {
      assert IsSum(sums[p], bits, p, P);
    }
    assert IsSum(sums[0], bits, 0, P);
  }

  /** The first two levels have their special forms. */
  lemma {:induction false} FirstLevel(value: nat, P: nat, masks: seq<nat>, sums: seq<nat>)
    requires P >= 2 && value < Pow2(Pow2(P)) && AreMasks(masks, P) && AreSums(sums, Bits(value, Pow2(P)), P)
    ensures value == sums[0] && value == sums[1] + And(Shr(value, 1), masks[0])
  {
    var bits := Bits(value, Pow2(P));
    assert IsSum(sums[0], bits, 0, P) && IsSum(sums[1], bits, 1, P) && IsMask(masks[0], 0, P);
    BitsRoundTrip(value, Pow2(P));
    BottomUp(bits, P, value, sums[1], masks[0]);
  }

  lemma {:induction false} SecondLevel(bits: seq<nat>, P: nat, masks: seq<nat>, sums: seq<nat>)
    requires P >= 2 && Fit(1, bits) && AreMasks(masks, P) && AreSums(sums, bits, P)
    ensures sums[2] == And(sums[1], masks[1]) + And(Shr(sums[1], 2), masks[1])
  {
    assert IsSum(sums[1], bits, 1, P) && IsSum(sums[2], bits, 2, P) && IsMask(masks[1], 1, P);
    LevelUp(bits, 1, P, sums[1], sums[2], masks[1]);
  }

  lemma {:induction false} NextLevel(bits: seq<nat>, P: nat, p: nat, masks: seq<nat>, sums: seq<nat>)
    requires 2 <= p < P && Fit(1, bits) && AreMasks(masks, P) && AreSums(sums, bits, P)
    ensures sums[p + 1] == And(sums[p] + Shr(sums[p], Pow2(p)), masks[p])
  {
    assert IsSum(sums[p], bits, p, P) && IsSum(sums[p + 1], bits, p + 1, P) && IsMask(masks[p], p, P);
    HighUp(bits, p, P, sums[p], sums[p + 1], masks[p], Sums(bits, p, P));
  }

  /** The additions do not overflow. */
  lemma {:induction false} NextFits(bits: seq<nat>, P: nat, p: nat, sums: seq<nat>)
    requires 2 <= p < P && Fit(1, bits) && AreSums(sums, bits, P)
    ensures sums[p] + Shr(sums[p], Pow2(p)) < Pow2(Pow2(P))
  {
    assert IsSum(sums[p], bits, p, P);
    HighFits(bits, p, P);
  }

  /** The higher sums, level by level. */
  method HighSums(sum: array<nat>, P: nat, M: array<nat>, ghost bits: seq<nat>, ghost sums: seq<nat>)
    requires P >= 2 && sum.Length == P + 1 && sum != M && AreMasks(M[..], P) && AreSums(sums, bits, P) && Fit(1, bits)
    requires sum[0] == sums[0] && sum[1] == sums[1] && sum[2] == sums[2]
    modifies sum
    ensures sum[..] == sums
  {
    ghost var masks := M[..];
    var p := 2;
    while p < P
      invariant 2 <= p <= P && M[..] == masks
      invariant forall q :: 0 <= q <= p ==> sum[q] == sums[q]
    {
      NextLevel(bits, P, p, masks, sums);
      NextFits(bits, P, p, sums);
      var x := sum[p] + Shr(sum[p], Pow2(p));
      assert x < Pow2(Pow2(P));
      sum[p + 1] := And(x, M[p]);
      p := p + 1;
    }
  }

  /** The sums of all levels, as the source fills its array. */
  method TreeOfAdders(value: nat, P: nat, M: array<nat>) returns (sum: array<nat>)
    requires P >= 2 && value < Pow2(Pow2(P)) && AreMasks(M[..], P)
    ensures sum.Length == P + 1
    ensures forall p :: 0 <= p <= P ==> sum[p] == SumWord(Bits(value, Pow2(P)), p, P)
  {
    ghost var bits := Bits(value, Pow2(P));
    ghost var sums := AllSums(bits, P);
    FirstLevel(value, P, M[..], sums);
    SecondLevel(bits, P, M[..], sums);
    sum := new nat[P + 1];
    sum[0] := value;
    sum[1] := value - And(Shr(value, 1), M[0]);
    sum[2] := And(sum[1], M[1]) + And(Shr(sum[1], 2), M[1]);
    HighSums(sum, P, M, bits, sums);
    SumsAre(sums, bits, P);
  }

  method LevelMask(p: nat, P: nat) returns (m: nat)
    requires p < P
    ensures m == Word(Pow2(p), MaskFields(Pow2(p), Pow2(P - p)))
  {
    MaskIsQuotient(p, P, Pow2(p), Pow2(P - p));
    m := (Pow2(Pow2(P)) - 1) / (1 + Pow2(Pow2(p)));
  }

  /** The masks of all levels. */
  method SumMasks(P: nat) returns (M: array<nat>)
    ensures AreMasks(M[..], P)
  {
    M := new nat[P];
    var p := 0;
    while p != P
      invariant p <= P && forall q {:trigger IsMask(M[q], q, P)} :: 0 <= q < p ==> IsMask(M[q], q, P)
    {
      M[p] := LevelMask(p, P);
      p := p + 1;
    }
    forall q | 0 <= q < P ensures IsMask(M[..][q], q, P) {
      assert IsMask(M[q], q, P);
    }
  }

  // Facts about the counts.

  lemma {:induction false} ElementBounded(fs: seq<nat>, k: nat)
    requires k < |fs|
    ensures fs[k] <= Ones(fs)
  {
    if k > 0 { ElementBounded(fs[1..], k - 1); }
  }

  lemma {:induction false} HalfGroups(k: nat, p: nat)
    requires p > 0
    ensures k * Pow2(p) == (2 * k) * Pow2(p - 1)
  {
    assert k * (2 * Pow2(p - 1)) == (2 * k) * Pow2(p - 1);
  }

  lemma {:induction false} FirstSums(bits: seq<nat>, p: nat, P: nat, k: nat)
    requires p <= P && |bits| == Pow2(P) && k <= Pow2(P - p) && k * Pow2(p) <= |bits|
    ensures Ones(Sums(bits, p, P)[..k]) == Ones(bits[..k * Pow2(p)])
  {
    if p > 0 {
      HalfGroups(k, p);
      PairSumsPrefix(Sums(bits, p - 1, P), k);
      FirstSums(bits, p - 1, P, 2 * k);
    }
  }

  /** No more ones than bits, and far fewer than half the range. */
  lemma {:induction false} OnesBounded(bits: seq<nat>, P: nat)
    requires P >= 2 && |bits| == Pow2(P) && Fit(1, bits)
    ensures Ones(bits) <= Pow2(P) < Pow2(Pow2(P) - 1)
  {
    SumsBounded(bits, P, P);
    SumsTotal(bits, P, P);
    var fs := Sums(bits, P, P);
    assert |fs| == 1 && Ones(fs) == fs[0];
    assert Pow2(P) == 4 * Pow2(P - 2);
    Pow2Exceeds(Pow2(P));
    assert Pow2(Pow2(P)) == 2 * Pow2(Pow2(P) - 1);
  }

  lemma {:induction false} TopSum(bits: seq<nat>, P: nat)
    requires |bits| == Pow2(P)
    ensures SumWord(bits, P, P) == Ones(bits)
    ensures Sums(bits, P, P) == [Ones(bits)]
  {
    SumsTotal(bits, P, P);
    var fs := Sums(bits, P, P);
    assert fs == [fs[0]] && fs[1..] == [];
    assert Ones(fs) == fs[0];
    ShlIsProduct(0, Pow2(P));
    assert Word(Pow2(P), fs) == fs[0];
  }
}
