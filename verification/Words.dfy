/**
  Machine words as naturals: shifts, bitwise conjunction, and the reading of a word as a
  sequence of equally wide fields, least significant field first.
*/
module Words {

  /** `x << n`, without truncation. */
  function Shl(x: nat, n: nat): nat {
    if n == 0 then x else 2 * Shl(x, n - 1)
  }

  /** `x >> n`. */
  function Shr(x: nat, n: nat): nat {
    if n == 0 then x else Shr(x / 2, n - 1)
  }

  function Pow2(n: nat): (r: nat)
    ensures r > 0
  {
    if n == 0 then 1 else 2 * Pow2(n - 1)
  }

  /** `x & y`. */
  function And(x: nat, y: nat): nat {
    if x == 0 || y == 0 then 0 else (if x % 2 == 1 && y % 2 == 1 then 1 else 0) + 2 * And(x / 2, y / 2)
  }

  /** `x | y`. */
  function Or(x: nat, y: nat): nat {
    if x == 0 then y else if y == 0 then x
    else (if x % 2 == 1 || y % 2 == 1 then 1 else 0) + 2 * Or(x / 2, y / 2)
  }

  lemma {:induction false} Pow2IsShl(n: nat)
    ensures Pow2(n) == Shl(1, n)
  {
    if n > 0 { Pow2IsShl(n - 1); }
  }

  lemma {:induction false} ShlIsProduct(x: nat, n: nat)
    ensures Shl(x, n) == Pow2(n) * x
  {
    if n > 0 {
      ShlIsProduct(x, n - 1);
      assert Pow2(n) * x == 2 * (Pow2(n - 1) * x);
    }
  }

  lemma {:induction false} ShlAdds(a: nat, b: nat, n: nat)
    ensures Shl(a + b, n) == Shl(a, n) + Shl(b, n)
  {
    if n > 0 { ShlAdds(a, b, n - 1); }
  }

  lemma {:induction false} ShlComposes(x: nat, a: nat, b: nat)
    ensures Shl(Shl(x, a), b) == Shl(x, a + b)
  {
    if b > 0 { ShlComposes(x, a, b - 1); }
  }

  lemma {:induction false} ShrComposes(x: nat, a: nat, b: nat)
    ensures Shr(Shr(x, a), b) == Shr(x, a + b)
  {
    if a > 0 { ShrComposes(x / 2, a - 1, b); }
  }

  lemma {:induction false} ShlMonotone(a: nat, b: nat, n: nat)
    requires a <= b
    ensures Shl(a, n) <= Shl(b, n)
  {
    ShlAdds(a, b - a, n);
  }

  lemma {:induction false} Pow2Adds(a: nat, b: nat)
    ensures Pow2(a + b) == Shl(Pow2(a), b)
  {
    if b > 0 { Pow2Adds(a, b - 1); }
  }

  lemma {:induction false} Pow2Monotone(a: nat, b: nat)
    requires a <= b
    ensures Pow2(a) <= Pow2(b)
    decreases b
  {
    if a < b { Pow2Monotone(a, b - 1); }
  }

  lemma {:induction false} Pow2Exceeds(n: nat)
    ensures Pow2(n) > n
    ensures n >= 4 ==> Pow2(n) > 2 * n
  {
    if n == 4 {
      assert Pow2(4) == 2 * Pow2(3) && Pow2(3) == 2 * Pow2(2) && Pow2(2) == 2 * Pow2(1);
    } else if n > 0 {
      Pow2Exceeds(n - 1);
    }
  }

  /** The low `n` bits do not survive a right shift by `n`. */
  lemma {:induction false} ShrSplits(a: nat, b: nat, n: nat)
    requires a < Pow2(n)
    ensures Shr(a + Shl(b, n), n) == b
  {
    if n > 0 {
      ShrSplits(a / 2, b, n - 1);
      assert (a + Shl(b, n)) / 2 == a / 2 + Shl(b, n - 1);
    }
  }

  /** Every word is its low `n` bits and the rest. */
  lemma {:induction false} LowAndHigh(x: nat, n: nat) returns (low: nat)
    ensures low < Pow2(n) && x == low + Shl(Shr(x, n), n)
  {
    if n == 0 {
      low := 0;
    } else {
      var l := LowAndHigh(x / 2, n - 1);
      low := x % 2 + 2 * l;
    }
  }

  lemma {:induction false} AndHalves(x: nat, y: nat)
    ensures And(x, y) == (if x % 2 == 1 && y % 2 == 1 then 1 else 0) + 2 * And(x / 2, y / 2)
  {
  }

  lemma {:induction false} OrHalves(x: nat, y: nat)
    ensures Or(x, y) == (if x % 2 == 1 || y % 2 == 1 then 1 else 0) + 2 * Or(x / 2, y / 2)
  {
  }

  lemma {:induction false} HalfOfSum(a: nat, b: nat, n: nat)
    requires n > 0
    ensures (a + Shl(b, n)) / 2 == a / 2 + Shl(b, n - 1) && (a + Shl(b, n)) % 2 == a % 2
  {
  }

  /** Conjunction works separately on the low `n` bits and on the rest. */
  lemma {:induction false} AndSplits(n: nat, a: nat, b: nat, c: nat, d: nat)
    requires a < Pow2(n) && c < Pow2(n)
    ensures And(a + Shl(b, n), c + Shl(d, n)) == And(a, c) + Shl(And(b, d), n)
    ensures And(a, c) < Pow2(n)
  {
    if n > 0 {
      var x, y := a + Shl(b, n), c + Shl(d, n);
      AndSplits(n - 1, a / 2, b, c / 2, d);
      assert And(x, y) == And(x % 2, y % 2) + 2 * And(x / 2, y / 2) by {
        AndHalves(x, y);
      }
      AndHalves(a, c);
      HalfOfSum(a, b, n);
      HalfOfSum(c, d, n);
    }
  }

  /** Masking a value that has no more bits than the mask changes nothing. */
  lemma {:induction false} AndFullMask(x: nat, n: nat)
    requires x < Pow2(n)
    ensures And(x, Pow2(n) - 1) == x
  {
    if n > 0 {
      AndFullMask(x / 2, n - 1);
      AndHalves(x, Pow2(n) - 1);
    }
  }

  /** Masking with `2^n - 1` keeps the low `n` bits. */
  lemma {:induction false} AndLowMask(a: nat, b: nat, n: nat)
    requires a < Pow2(n)
    ensures And(a + Shl(b, n), Pow2(n) - 1) == a
  {
    AndSplits(n, a, b, Pow2(n) - 1, 0);
    AndFullMask(a, n);
    ShlIsProduct(0, n);
  }

  /** Disjunction with a word whose low `n` bits are clear works on the rest. */
  lemma {:induction false} OrHigh(n: nat, a: nat, b: nat, d: nat)
    requires a < Pow2(n)
    ensures Or(a + Shl(b, n), Shl(d, n)) == a + Shl(Or(b, d), n)
  {
    if n > 0 {
      OrHigh(n - 1, a / 2, b, d);
      OrHalves(a + Shl(b, n), Shl(d, n));
      HalfOfSum(a, b, n);
    }
  }

  /** The disjunction of words without common bits is their sum. */
  lemma {:induction false} OrSplits(n: nat, a: nat, b: nat)
    requires a < Pow2(n)
    ensures Or(a, Shl(b, n)) == a + Shl(b, n)
  {
    OrHigh(n, a, 0, b);
    ShlIsProduct(0, n);
  }

  // Fields.

  /** The word whose `w`-bit fields are `fs`. */
  function Word(w: nat, fs: seq<nat>): nat {
    if fs == [] then 0 else fs[0] + Shl(Word(w, fs[1..]), w)
  }

  predicate Fit(w: nat, fs: seq<nat>) {
    forall i :: 0 <= i < |fs| ==> fs[i] < Pow2(w)
  }

  lemma {:induction false} WordBounded(w: nat, fs: seq<nat>)
    requires Fit(w, fs)
    ensures Word(w, fs) < Pow2(w * |fs|)
  {
    if fs == [] {
      assert w * |fs| == 0;
    } else {
      WordBounded(w, fs[1..]);
      assert w * |fs| == w * |fs[1..]| + w;
      Pow2Adds(w * |fs[1..]|, w);
      ShlMonotone(Word(w, fs[1..]) + 1, Pow2(w * |fs[1..]|), w);
      ShlAdds(Word(w, fs[1..]), 1, w);
      Pow2IsShl(w);
    }
  }

  /** A right shift by a whole number of fields drops the lowest fields. */
  lemma {:induction false} WordShifts(w: nat, fs: seq<nat>, k: nat)
    requires Fit(w, fs) && k <= |fs|
    ensures Shr(Word(w, fs), w * k) == Word(w, fs[k..])
    decreases k
  {
    if k == 0 {
      assert w * k == 0 && fs[0..] == fs;
    } else {
      WordShifts(w, fs[1..], k - 1);
      assert fs[1..][k - 1..] == fs[k..];
      ShrSplits(fs[0], Word(w, fs[1..]), w);
      assert w * k == w + w * (k - 1);
      ShrComposes(Word(w, fs), w, w * (k - 1));
    }
  }

  /** The lowest field. */
  lemma {:induction false} WordLowField(w: nat, fs: seq<nat>)
    requires Fit(w, fs) && fs != []
    ensures And(Word(w, fs), Pow2(w) - 1) == fs[0]
  {
    AndLowMask(fs[0], Word(w, fs[1..]), w);
  }

  /** Conjunction works field by field. */
  lemma {:induction false} WordAnd(w: nat, fs: seq<nat>, gs: seq<nat>, hs: seq<nat>)
    requires |fs| == |gs| == |hs| && Fit(w, fs) && Fit(w, gs)
    requires forall i :: 0 <= i < |hs| ==> hs[i] == And(fs[i], gs[i])
    ensures And(Word(w, fs), Word(w, gs)) == Word(w, hs)
  {
    if fs != [] {
      WordAnd(w, fs[1..], gs[1..], hs[1..]);
      AndSplits(w, fs[0], Word(w, fs[1..]), gs[0], Word(w, gs[1..]));
    }
  }

  /** So does addition, with fields that may exceed their width. */
  lemma {:induction false} WordAdd(w: nat, fs: seq<nat>, gs: seq<nat>, hs: seq<nat>)
    requires |fs| == |gs| == |hs|
    requires forall i :: 0 <= i < |hs| ==> hs[i] == fs[i] + gs[i]
    ensures Word(w, fs) + Word(w, gs) == Word(w, hs)
  {
    if fs != [] {
      WordAdd(w, fs[1..], gs[1..], hs[1..]);
      ShlAdds(Word(w, fs[1..]), Word(w, gs[1..]), w);
    }
  }

  /** A zero field on top changes nothing. */
  lemma {:induction false} WordPads(w: nat, fs: seq<nat>)
    ensures Word(w, fs + [0]) == Word(w, fs)
  {
    if fs == [] {
      assert (fs + [0])[1..] == [];
      ShlIsProduct(0, w);
    } else {
      WordPads(w, fs[1..]);
      assert (fs + [0])[1..] == fs[1..] + [0];
    }
  }

  /** Two neighbouring fields are one field of twice the width. */
  lemma {:induction false} WordPairs(w: nat, fs: seq<nat>, hs: seq<nat>)
    requires |fs| == 2 * |hs|
    requires forall i :: 0 <= i < |hs| ==> hs[i] == fs[2 * i] + Shl(fs[2 * i + 1], w)
    ensures Word(w, fs) == Word(2 * w, hs)
    decreases |hs|
  {
    if hs != [] {
      forall i | 0 <= i < |hs[1..]| ensures hs[1..][i] == fs[2..][2 * i] + Shl(fs[2..][2 * i + 1], w) {
        assert hs[1..][i] == hs[i + 1];
      }
      WordPairs(w, fs[2..], hs[1..]);
      assert fs[1..][1..] == fs[2..];
      ShlAdds(fs[1], Shl(Word(w, fs[2..]), w), w);
      ShlComposes(Word(w, fs[2..]), w, w);
    }
  }
}
