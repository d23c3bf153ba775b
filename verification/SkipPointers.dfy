/**
  The arithmetic of skip pointers (crates/core/src/checkpoint.rs): which index a checkpoint
  keeps a second pointer to, and why following those pointers reaches any ancestor in a
  number of hops quadratic in the bit length of the starting index.
 */
module SkipPointers {
  import opened Wrappers

  /** Bitwise AND. */
  function BitAnd(a: nat, b: nat): (r: nat)
    ensures r <= a
  {
    if a == 0 || b == 0 then 0
    else 2 * BitAnd(a / 2, b / 2) + (if a % 2 == 1 && b % 2 == 1 then 1 else 0)
  }

  /** u32 subtraction of one, wrapping at zero. */
  function WrappingPred(n: U32): U32 {
    if n == 0 then MAX_U32 else n - 1
  }

  function InvertLowestOne(n: U32): U32 {
    BitAnd(n, WrappingPred(n))
  }

  function SkipIndex(i: U32): (r: U32)
    ensures r <= i && (i > 0 ==> r < i)
  {
    IloBelow(if i == 0 then 0 else i - 1);
    IloBelow(i);
    if i < 2 then 0
    else if i % 2 == 0 then InvertLowestOne(i)
    else
      IloBelow(InvertLowestOne(i - 1));
      InvertLowestOne(InvertLowestOne(i - 1)) + 1
  }

  // --- InvertLowestOne by recursion on the halves ---

  lemma {:induction false} BitAndSelf(m: nat)
    ensures BitAnd(m, m) == m
  {
    if m > 0 { BitAndSelf(m / 2); }
  }

  /** The lowest set bit of an odd number is its unit bit. */
  lemma IloOdd(n: U32)
    requires n % 2 == 1
    ensures InvertLowestOne(n) == n - 1
  {
    var h := n / 2;
    BitAndSelf(h);
    assert (n - 1) / 2 == h && (n - 1) % 2 == 0;
    if h > 0 {
      assert BitAnd(n, n - 1) == 2 * BitAnd(h, h);
    }
  }

  lemma IloDouble(h: nat)
    requires 2 * h <= MAX_U32
    ensures InvertLowestOne(2 * h) == 2 * InvertLowestOne(h)
  {
    if h > 0 {
      assert (2 * h) / 2 == h && (2 * h) % 2 == 0 && (2 * h - 1) / 2 == h - 1;
    }
  }

  lemma IloEven(n: U32)
    requires n % 2 == 0
    ensures InvertLowestOne(n) == 2 * InvertLowestOne(n / 2)
  {
    IloDouble(n / 2);
  }

  lemma IloBelow(n: U32)
    ensures n == 0 ==> InvertLowestOne(n) == 0
    ensures n > 0 ==> InvertLowestOne(n) < n
    ensures InvertLowestOne(n) % 2 == 0
    decreases n
  {
    if n > 0 {
      if n % 2 == 1 { IloOdd(n); } else { IloEven(n); IloBelow(n / 2); }
    }
  }

  // --- Number of set bits, bit length, and distance to the target ---

  function PopCount(n: nat): nat {
    if n == 0 then 0 else PopCount(n / 2) + n % 2
  }

  function BitLen(n: nat): nat {
    if n == 0 then 0 else 1 + BitLen(n / 2)
  }

  /** Length of what is left of both numbers once their common leading bits are removed. */
  function Differing(i: nat, t: nat): nat
    requires t <= i
  {
    if i == t then 0 else 1 + Differing(i / 2, t / 2)
  }

  lemma {:induction false} PopCountOfIlo(n: U32)
    requires n > 0
    ensures PopCount(InvertLowestOne(n)) == PopCount(n) - 1
    decreases n
  {
    if n % 2 == 1 {
      IloOdd(n);
      assert (n - 1) / 2 == n / 2;
    } else {
      IloEven(n);
      PopCountOfIlo(n / 2);
      var h := InvertLowestOne(n / 2);
      assert (2 * h) / 2 == h && (2 * h) % 2 == 0;
    }
  }

  lemma {:induction false} PopCountBound(n: nat, top: nat)
    requires n <= top
    ensures PopCount(n) <= BitLen(n) <= BitLen(top)
  {
    if n > 0 { PopCountBound(n / 2, top / 2); }
  }

  lemma {:induction false} DifferingMonotone(i: nat, s: nat, t: nat)
    requires t <= s <= i
    ensures Differing(s, t) <= Differing(i, t) <= BitLen(i)
    decreases i
  {
    if i != t {
      DifferingMonotone(i / 2, s / 2, t / 2);
    }
  }

  /** Stepping down from an index whose lowest set bit is the highest bit still differing. */
  lemma {:induction false} PhaseEnds(n: U32, t: nat)
    requires n > 0
    requires InvertLowestOne(n) <= t < n
    ensures Differing(n - 1, t) < Differing(n, t)
    decreases n
  {
    if n % 2 == 1 {
      IloOdd(n);
    } else {
      IloEven(n);
      assert (n - 1) / 2 == n / 2 - 1;
      if t < n - 1 {
        PhaseEnds(n / 2, t / 2);
      }
    }
  }

  // --- The choice between prev and skip ---

  function SaturatingAdd(a: U32, b: U32): U32 {
    if a + b > MAX_U32 then MAX_U32 else a + b
  }

  function SaturatingSub(a: U32, b: U32): U32 {
    if a < b then 0 else a - b
  }

  /** Whether the walk from index `i` to index `target` follows the skip pointer of `i`. */
  predicate UsesSkip(i: U32, target: U32) {
    var skip := SkipIndex(i);
    var skipPrev := SkipIndex(SaturatingSub(i, 1));
    var prevSkipStrictlyBetter := skip > SaturatingAdd(skipPrev, 2) && skipPrev >= target;
    skip == target || (skip > target && !prevSkipStrictlyBetter)
  }

  function NextHop(i: U32, target: U32): (r: U32)
    requires target < i
    ensures target <= r < i
  {
    if UsesSkip(i, target) then SkipIndex(i) else i - 1
  }

  /** A bound on the hops left within the current phase. */
  function PhaseRank(i: U32, target: U32): nat {
    if i % 2 == 0 then 4 * PopCount(i) + 2
    else if SkipIndex(i) >= target then 4 * PopCount(i - 1) + 1
    else 4 * PopCount(i - 1) + 3
  }

  function HopRank(i: U32, target: U32, bits: nat): nat
    requires target <= i
  {
    Differing(i, target) * (4 * bits + 4) + PhaseRank(i, target)
  }

  function HopBound(start: U32): nat {
    4 * (BitLen(start) + 1) * (BitLen(start) + 1)
  }

  lemma OddSkip(e: U32)
    requires e % 2 == 0 && e + 1 <= MAX_U32
    ensures SkipIndex(e + 1) % 2 == 1 || e == 0
    ensures e > 0 ==> SkipIndex(e + 1) == InvertLowestOne(InvertLowestOne(e)) + 1
    ensures e > 0 ==> PopCount(SkipIndex(e + 1) - 1) < PopCount(e)
    ensures SkipIndex(e + 1) <= SkipIndex(e) + 1
  {
    if e > 0 {
      var h := InvertLowestOne(e);
      IloBelow(e);
      IloBelow(h);
      PopCountOfIlo(e);
      if h > 0 { PopCountOfIlo(h); }
      assert InvertLowestOne(h) % 2 == 0;
    }
  }

  lemma SkipByParity(h: nat)
    requires h > 0
    ensures 2 * h <= MAX_U32 ==> SkipIndex(2 * h) == InvertLowestOne(2 * h)
    ensures 2 * h < MAX_U32 ==> SkipIndex(2 * h + 1) == InvertLowestOne(InvertLowestOne(2 * h)) + 1
  {
    hide InvertLowestOne;
    assert (2 * h) % 2 == 0 && (2 * h + 1) % 2 == 1;
  }

  /** At a multiple of eight, prev's skip lands above the skip of the index itself. */
  lemma MultipleOfEight(m: nat)
    requires 0 < m && 8 * m <= MAX_U32
    ensures SkipIndex(8 * m) <= 8 * m - 8
    ensures SkipIndex(8 * m - 1) == 8 * m - 7
  {
    hide SkipIndex, InvertLowestOne;
    SkipByParity(4 * m);
    SkipByParity(4 * m - 1);
    IloOfMultiple(m);
  }

  lemma IloOfMultiple(m: nat)
    requires 0 < m && 8 * m <= MAX_U32
    ensures InvertLowestOne(8 * m) <= 8 * m - 8
    ensures InvertLowestOne(8 * m - 2) == 8 * m - 4
    ensures InvertLowestOne(8 * m - 4) == 8 * m - 8
  {
    hide InvertLowestOne;
    IloDouble(4 * m);
    IloDouble(2 * m);
    IloDouble(m);
    IloBelow(m);
    IloDouble(4 * m - 1);
    IloOdd(4 * m - 1);
    IloDouble(4 * m - 2);
    IloDouble(2 * m - 1);
    IloOdd(2 * m - 1);
  }

  lemma PopCountDouble(h: nat)
    ensures PopCount(2 * h) == PopCount(h)
    ensures PopCount(2 * h + 1) == PopCount(h) + 1
  {
    assert (2 * h) / 2 == h && (2 * h + 1) / 2 == h;
  }

  /** Stepping down by two from any other even index sets no additional bit. */
  lemma PopCountTwoBelow(q: nat)
    ensures PopCount(4 * q) <= PopCount(4 * q + 2)
    ensures PopCount(8 * q + 2) <= PopCount(8 * q + 4)
  {
    hide PopCount;
    PopCountDouble(q);
    PopCountDouble(2 * q);
    PopCountDouble(2 * q + 1);
    PopCountDouble(4 * q + 1);
    PopCountDouble(4 * q + 2);
  }

  /** At an even index, prev's skip is the better one only right above a short skip. */
  lemma EvenBetterPrev(e: U32, target: U32)
    requires e % 2 == 0 && target < e
    requires SkipIndex(e) > target && !UsesSkip(e, target)
    ensures SkipIndex(e - 1) >= target
    ensures PopCount(e - 2) <= PopCount(e)
  {
    hide PopCount, SkipIndex;
    var q := e / 8;
    assert e == 8 * q || e == 8 * q + 2 || e == 8 * q + 4 || e == 8 * q + 6;
    if e == 8 * q {
      MultipleOfEight(q);
    } else {
      PopCountTwoBelow(q);
      PopCountTwoBelow(2 * q);
      PopCountTwoBelow(2 * q + 1);
    }
  }

  /** Passing over a skip because prev's skip is better happens at even indices only, never twice in a row. */
  lemma PrevNotTwice(i: U32, target: U32)
    requires target < i && SkipIndex(i) > target && !UsesSkip(i, target)
    ensures i % 2 == 0 && UsesSkip(i - 1, target)
  {
    hide SkipIndex;
    if i % 2 == 1 {
      OddSkip(i - 1);
    } else {
      OddSkip(i - 2);
    }
  }

  /**
    Every hop lowers the rank: either the highest differing bit falls, or the phase rank does.
   */
  lemma HopDecreases(i: U32, target: U32, bits: nat)
    requires target < i && BitLen(i) <= bits
    ensures HopRank(NextHop(i, target), target, bits) < HopRank(i, target, bits)
  {
    var n := NextHop(i, target);
    DifferingMonotone(i, n, target);
    if Differing(n, target) == Differing(i, target) {
      SamePhase(i, target);
    }
    PhaseRankBound(n, i, target);
    Lexicographic(Differing(n, target), Differing(i, target),
                  PhaseRank(n, target), PhaseRank(i, target), 4 * bits + 4);
  }

  lemma PhaseRankBound(n: U32, top: U32, target: U32)
    requires n <= top
    ensures PhaseRank(n, target) <= 4 * BitLen(top) + 3
  {
    hide PopCount, BitLen, SkipIndex;
    PopCountBound(n, top);
    PopCountBound(n - n % 2, top);
  }

  lemma Lexicographic(d: nat, d': nat, p: nat, p': nat, k: nat)
    requires p < k
    requires d < d' || (d == d' && p < p')
    ensures d * k + p < d' * k + p'
  {
    if d < d' {
      assert (d + 1) * k <= d' * k;
    }
  }

  /** Within a phase the rank falls at each hop. */
  lemma SamePhase(i: U32, target: U32)
    requires target < i
    requires Differing(NextHop(i, target), target) == Differing(i, target)
    ensures PhaseRank(NextHop(i, target), target) < PhaseRank(i, target)
  {
    if i % 2 == 0 {
      EvenPhase(i, target);
    } else {
      OddPhase(i, target);
    }
  }

  lemma EvenPhase(i: U32, target: U32)
    requires i % 2 == 0 && target < i
    requires Differing(NextHop(i, target), target) == Differing(i, target)
    ensures PhaseRank(NextHop(i, target), target) < PhaseRank(i, target)
  {
    if UsesSkip(i, target) {
      IloBelow(i);
      PopCountOfIlo(i);
    } else if SkipIndex(i) > target {
      EvenBetterPrev(i, target);
    } else {
      PhaseEnds(i, target);
      assert false;
    }
  }

  lemma OddPhase(i: U32, target: U32)
    requires i % 2 == 1 && target < i
    requires Differing(NextHop(i, target), target) == Differing(i, target)
    ensures PhaseRank(NextHop(i, target), target) < PhaseRank(i, target)
  {
    hide PopCount, InvertLowestOne;
    OddSkip(i - 1);
    if SkipIndex(i) >= target && i == 1 {
      assert false;
    }
  }

  /** The rank of the starting index is within the bound. */
  lemma InitialRank(start: U32, target: U32)
    requires target <= start
    ensures HopRank(start, target, BitLen(start)) <= HopBound(start)
  {
    hide BitLen, Differing, PhaseRank;
    var b, d, p := BitLen(start), Differing(start, target), PhaseRank(start, target);
    DifferingMonotone(start, start, target);
    PhaseRankBound(start, start, target);
    assert d * (4 * b + 4) + p <= 4 * (b + 1) * (b + 1) by { QuadraticBound(d, b, p); }
  }

  lemma QuadraticBound(d: nat, b: nat, p: nat)
    requires d <= b && p <= 4 * b + 3
    ensures d * (4 * b + 4) + p <= 4 * (b + 1) * (b + 1)
  {
    assert d * (4 * b + 4) <= b * (4 * b + 4);
  }
}
