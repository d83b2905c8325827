/** Integer facts and sums shared by several puzzles. */
module Arith {

  /** Quotient and remainder are the only ones in range: `x == q * p + r`
      with `0 <= r < p` pins down `x / p` and `x % p`. */
  lemma ModUnique(x: int, p: int, q: int, r: int)
    requires p > 0 && 0 <= r < p && x == q * p + r
    ensures x / p == q && x % p == r
  {
    var d := x / p;
    assert x == d * p + x % p;
    assert (q - d) * p == x % p - r;
    MulZero(q - d, p);
  }

  lemma MulZero(a: int, p: int)
    requires p > 0 && -p < a * p < p
    ensures a == 0
  {
    if a >= 1 {
      MulAtLeast(a, p);
    } else if a <= -1 {
      MulAtLeast(-a, p);
    }
  }

  lemma MulAtLeast(a: int, p: int)
    requires a >= 1 && p > 0
    ensures a * p >= p
  {
    assert a * p == (a - 1) * p + p;
  }

  /** `fold(0, |a, x| a + x)`: a running total from the left. */
  function FoldSum(xs: seq<int>, acc: int): int
  {
    if |xs| == 0 then acc else FoldSum(xs[1..], acc + xs[0])
  }

  /** The plain sum, from the right. */
  function Sum(xs: seq<int>): int
  {
    if |xs| == 0 then 0 else xs[0] + Sum(xs[1..])
  }

  /** The left fold adds up the same total. */
  lemma {:induction false} FoldIsSum(xs: seq<int>, acc: int)
    ensures FoldSum(xs, acc) == acc + Sum(xs)
  {
    if |xs| > 0 {
      FoldIsSum(xs[1..], acc + xs[0]);
    }
  }

  lemma {:induction false} SumAppend(a: seq<int>, b: seq<int>)
    ensures Sum(a + b) == Sum(a) + Sum(b)
  {
    if |a| > 0 {
      SumAppend(a[1..], b);
      assert (a + b)[1..] == a[1..] + b;
    } else {
      assert a + b == b;
    }
  }
}
