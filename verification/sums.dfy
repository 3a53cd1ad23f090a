/** Finite sums over an integer range: the accumulators `acc += …` and
    `accu(…)` of the convolution code, over exact integers. */
module Sums {

  /** f(lo) + f(lo+1) + … + f(hi-1); 0 for an empty range. */
  function Sum(f: int -> int, lo: int, hi: int): int
    decreases hi - lo
  {
    if hi <= lo then 0 else Sum(f, lo, hi - 1) + f(hi - 1)
  }

  /** k ↦ f(c - k): f read backwards around c. */
  function Reflect(f: int -> int, c: int): int -> int {
    k => f(c - k)
  }

  lemma {:induction false} SumPeelFirst(f: int -> int, lo: int, hi: int)
    requires lo < hi
    ensures Sum(f, lo, hi) == f(lo) + Sum(f, lo + 1, hi)
    decreases hi - lo
  {
    if lo + 1 < hi {
      SumPeelFirst(f, lo, hi - 1);
    }
  }

  lemma {:induction false} SumSplit(f: int -> int, lo: int, mid: int, hi: int)
    requires lo <= mid <= hi
    ensures Sum(f, lo, hi) == Sum(f, lo, mid) + Sum(f, mid, hi)
    decreases hi - mid
  {
    if mid < hi {
      SumSplit(f, lo, mid, hi - 1);
    }
  }

  lemma {:induction false} SumZero(f: int -> int, lo: int, hi: int)
    requires forall k | lo <= k < hi :: f(k) == 0
    ensures Sum(f, lo, hi) == 0
    decreases hi - lo
  {
    if lo < hi {
      SumZero(f, lo, hi - 1);
    }
  }

  /** Sums of functions that agree on the range are equal. */
  lemma {:induction false} SumExt(f: int -> int, g: int -> int, lo: int, hi: int)
    requires forall k | lo <= k < hi :: f(k) == g(k)
    ensures Sum(f, lo, hi) == Sum(g, lo, hi)
    decreases hi - lo
  {
    if lo < hi {
      SumExt(f, g, lo, hi - 1);
    }
  }

  /** Widening a range by terms that are all zero leaves the sum unchanged. */
  lemma SumWiden(f: int -> int, lo: int, hi: int, lo': int, hi': int)
    requires lo' <= lo <= hi <= hi'
    requires forall k | lo' <= k < lo :: f(k) == 0
    requires forall k | hi <= k < hi' :: f(k) == 0
    ensures Sum(f, lo', hi') == Sum(f, lo, hi)
  {
    SumSplit(f, lo', lo, hi');
    SumSplit(f, lo, hi, hi');
    SumZero(f, lo', lo);
    SumZero(f, hi, hi');
  }

  /** Reindexing k := c - k: summing f over [lo, hi) is summing f backwards
      around c over the mirrored range. */
  lemma {:induction false} SumReflect(f: int -> int, c: int, lo: int, hi: int)
    ensures Sum(f, lo, hi) == Sum(Reflect(f, c), c - hi + 1, c - lo + 1)
    decreases hi - lo
  {
    if lo < hi {
      SumReflect(f, c, lo, hi - 1);
      SumPeelFirst(Reflect(f, c), c - hi + 1, c - lo + 1);
    }
  }

  /** If f read backwards over [0, n) agrees with g, f and g have the same
      sum over [0, n). */
  lemma ReversedSumsAgree(f: int -> int, g: int -> int, n: int)
    requires forall k | 0 <= k < n :: Reflect(f, n - 1)(k) == g(k)
    ensures Sum(f, 0, n) == Sum(g, 0, n)
  {
    SumReflect(f, n - 1, 0, n);
    assert n - 1 - n + 1 == 0 && n - 1 - 0 + 1 == n;
    SumExt(Reflect(f, n - 1), g, 0, n);
  }
}
