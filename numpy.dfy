/**
  Exact-arithmetic stand-ins for the numpy primitives that the probabilistic
  metrics are built from: `np.mean` of a one-dimensional array and
  `np.around(x, decimals=d)`, whose ties go to the even neighbour.
  Reals replace binary floating point, so no representation error arises.
*/
module Numpy {

  function Square(x: real): (r: real)
    ensures r >= 0.0
  {
    x * x
  }

  /** Sum of the elements, accumulated from the front like a running total. */
  function Sum(s: seq<real>): (t: real)
  {
    if |s| == 0 then 0.0 else Sum(s[..|s| - 1]) + s[|s| - 1]
  }

  /** `np.mean` of a non-empty array. */
  function Mean(s: seq<real>): (m: real)
    requires |s| > 0
    ensures m * |s| as real == Sum(s)
  {
    Sum(s) / |s| as real
  }

  /** Every element lies in [lo, hi]. */
  predicate AllWithin(s: seq<real>, lo: real, hi: real)
  {
    forall i :: 0 <= i < |s| ==> lo <= s[i] <= hi
  }

  /** A sum of n values in [lo, hi] lies in [n * lo, n * hi]. */
  lemma {:induction false} SumWithin(s: seq<real>, lo: real, hi: real)
    requires AllWithin(s, lo, hi)
    ensures |s| as real * lo <= Sum(s) <= |s| as real * hi
  {
    if |s| > 0 {
      var p := s[..|s| - 1];
      assert AllWithin(p, lo, hi) by {
        forall i | 0 <= i < |p| ensures lo <= p[i] <= hi {
          assert p[i] == s[i];
        }
      }
      SumWithin(p, lo, hi);
      assert |s| as real * lo == |p| as real * lo + lo;
      assert |s| as real * hi == |p| as real * hi + hi;
    }
  }

  /** A sum of non-negative values is non-negative. */
  lemma {:induction false} SumNonNegative(s: seq<real>)
    requires forall i :: 0 <= i < |s| ==> s[i] >= 0.0
    ensures Sum(s) >= 0.0
  {
    if |s| > 0 {
      var p := s[..|s| - 1];
      assert forall i :: 0 <= i < |p| ==> p[i] == s[i];
      SumNonNegative(p);
    }
  }

  lemma ProductNonNegative(a: real, b: real)
    requires a >= 0.0 && b >= 0.0
    ensures a * b >= 0.0
  {
  }

  /** The square of a non-zero number is positive. */
  lemma SquarePositive(d: real)
    requires d != 0.0
    ensures Square(d) > 0.0
  {
    if d > 0.0 {
      ProductPositive(d, d, Square(d));
    } else {
      ProductPositive(-d, -d, Square(d));
    }
  }

  /** A product of two positive numbers, named p, is positive. */
  lemma ProductPositive(a: real, b: real, p: real)
    requires a > 0.0 && b > 0.0 && p == a * b
    ensures p > 0.0
  {
  }

  lemma QuotientNonNegative(a: real, n: real)
    requires a >= 0.0 && n > 0.0
    ensures a / n >= 0.0
  {
  }

  lemma DifferenceOverDivisor(a: real, b: real, n: real)
    requires n > 0.0
    ensures (a - b) / n == a / n - b / n
  {
  }

  /** The mean of values in [lo, hi] lies in [lo, hi]. */
  lemma MeanWithin(s: seq<real>, lo: real, hi: real)
    requires |s| > 0
    requires AllWithin(s, lo, hi)
    ensures lo <= Mean(s) <= hi
  {
    SumWithin(s, lo, hi);
    var n := |s| as real;
    assert Sum(s) / n >= lo by {
      assert Sum(s) >= n * lo;
    }
    assert Sum(s) / n <= hi by {
      assert Sum(s) <= n * hi;
    }
  }

  /** The sum of element-wise differences is the difference of the sums. */
  lemma {:induction false} SumOfDifferences(a: seq<real>, b: seq<real>, c: seq<real>)
    requires |a| == |b| == |c|
    requires forall i :: 0 <= i < |c| ==> c[i] == a[i] - b[i]
    ensures Sum(c) == Sum(a) - Sum(b)
  {
    if |c| > 0 {
      var k := |c| - 1;
      SumOfDifferences(a[..k], b[..k], c[..k]);
    }
  }

  /** 10^d. */
  function Pow10(d: nat): (p: nat)
    ensures p >= 1
  {
    if d == 0 then 1 else 10 * Pow10(d - 1)
  }

  /** 10^d as a real, the scale factor of d decimals. */
  function Scale(d: nat): (p: real)
    ensures p >= 1.0
  {
    Pow10(d) as real
  }

  /**
    `np.rint`: the integer nearest to y; a value exactly halfway between two
    integers goes to the even one.
  */
  function Rint(y: real): (k: int)
    ensures -0.5 <= k as real - y <= 0.5
    ensures (k as real - y == 0.5 || y - k as real == 0.5) ==> k % 2 == 0
  {
    var fl := y.Floor;
    var frac := y - fl as real;
    if frac < 0.5 then fl
    else if frac > 0.5 then fl + 1
    else if fl % 2 == 0 then fl
    else fl + 1
  }

  /** The two postconditions of Rint single out one integer: Rint is round-half-to-even and nothing else. */
  lemma RintUnique(y: real, m: int)
    requires -0.5 <= m as real - y <= 0.5
    requires (m as real - y == 0.5 || y - m as real == 0.5) ==> m % 2 == 0
    ensures m == Rint(y)
  {
  }

  /** A value exactly halfway between two integers is rounded by half a unit, to the even one. */
  lemma RintTie(y: real)
    requires y - y.Floor as real == 0.5
    ensures Rint(y) as real - y == 0.5 || y - Rint(y) as real == 0.5
    ensures Rint(y) % 2 == 0
  {
  }

  /** Rounding leaves an integer as it is. */
  lemma RintOfInteger(k: int)
    ensures Rint(k as real) == k
  {
    RintUnique(k as real, k);
  }

  /** x is a multiple of 10^-d, i.e. x * 10^d is a whole number. */
  predicate OnGrid(x: real, d: nat)
  {
    (x * Scale(d)).Floor as real == x * Scale(d)
  }

  /** k / 10^d is on the 10^-d grid. */
  lemma IntegerOverPowerOnGrid(k: int, d: nat)
    ensures OnGrid(k as real / Scale(d), d)
  {
    var q := k as real / Scale(d) * Scale(d);
    assert q == k as real;
    assert q.Floor == k;
  }

  /**
    `np.around(x, decimals=d)`: scale by 10^d, round half to even, scale back.
    The result is on the 10^-d grid and at most half a grid step from x.
  */
  function Around(x: real, d: nat): (r: real)
    ensures OnGrid(r, d)
    ensures -0.5 <= (r - x) * Scale(d) <= 0.5
  {
    var k := Rint(x * Scale(d));
    IntegerOverPowerOnGrid(k, d);
    k as real / Scale(d)
  }

  /** Rounding leaves a value that is already on the grid unchanged. */
  lemma AroundOnGrid(x: real, d: nat)
    requires OnGrid(x, d)
    ensures Around(x, d) == x
  {
    var p := Scale(d);
    var m := (x * p).Floor;
    RintOfInteger(m);
    assert x * p / p == x;
  }

  /** Rounding twice to the same number of decimals is rounding once. */
  lemma AroundIdempotent(x: real, d: nat)
    ensures Around(Around(x, d), d) == Around(x, d)
  {
    AroundOnGrid(Around(x, d), d);
  }

  /**
    At a tie, where y = x * 10^d lies exactly halfway between two integers,
    Around(x, d) * 10^d is the even one of the two.
  */
  lemma AroundTieIsEven(x: real, d: nat, y: real)
    requires y == x * Scale(d)
    requires y - y.Floor as real == 0.5
    ensures Around(x, d) * Scale(d) == Rint(y) as real
    ensures Rint(y) as real - y == 0.5 || y - Rint(y) as real == 0.5
    ensures Rint(y) % 2 == 0
  {
    RintTie(y);
    assert Around(x, d) == Rint(y) as real / Scale(d);
    assert Rint(y) as real / Scale(d) * Scale(d) == Rint(y) as real;
  }

  /** Exact halves go to the even neighbour: 0.15 and 0.25 both become 0.2. */
  lemma AroundTiesToEven()
    ensures Around(0.15, 1) == 0.2
    ensures Around(0.25, 1) == 0.2
    ensures Around(0.35, 1) == 0.4
  {
    assert Scale(1) == 10.0;
    assert Rint(1.5) == 2;
    assert Rint(2.5) == 2;
    assert Rint(3.5) == 4;
  }
}
