/**
  Grouping of samples by their (binned) forecast probability: the distinct
  values and their counts, as `np.unique(f, return_counts=True)` gives them,
  and the boolean-mask selection `o[f == v]`. The lemmas say that summing a
  per-bin quantity over all distinct bins gives the same total as summing
  over all samples.
*/
module Grouping {
  import opened Numpy

  predicate NoDuplicates(d: seq<real>)
  {
    forall i, j :: 0 <= i < j < |d| ==> d[i] != d[j]
  }

  /**
    The distinct values of s, each exactly once. `np.unique` sorts them; here
    they come in order of first appearance. The grouped totals below are
    proved for any duplicate-free list of bins that covers the samples, but
    the decomposition sums are not proved independent of the bin order.
  */
  function Distinct(s: seq<real>): (d: seq<real>)
    ensures NoDuplicates(d)
    ensures forall i :: 0 <= i < |s| ==> s[i] in d
    ensures forall v :: v in d ==> v in s
  {
    if |s| == 0 then []
    else
      var n := |s| - 1;
      var d := Distinct(s[..n]);
      assert forall i :: 0 <= i < n ==> s[i] == s[..n][i];
      if s[n] in d then d else d + [s[n]]
  }

  /** How many samples fall in bin v (the counts of `np.unique`). */
  function BinCount(s: seq<real>, v: real): (c: nat)
    ensures c <= |s|
    ensures c > 0 <==> v in s
  {
    if |s| == 0 then 0
    else
      var n := |s| - 1;
      assert s == s[..n] + [s[n]];
      BinCount(s[..n], v) + (if s[n] == v then 1 else 0)
  }

  /** `w[f == v]`: the entries of w at the positions where f equals v, in order. */
  function Mask(f: seq<real>, w: seq<real>, v: real): (m: seq<real>)
    requires |f| == |w|
    ensures |m| == BinCount(f, v)
  {
    if |f| == 0 then []
    else
      var n := |f| - 1;
      Mask(f[..n], w[..n], v) + (if f[n] == v then [w[n]] else [])
  }

  /** Selecting entries keeps every one of them within [lo, hi]. */
  lemma {:induction false} MaskWithin(f: seq<real>, w: seq<real>, v: real, lo: real, hi: real)
    requires |f| == |w|
    requires AllWithin(w, lo, hi)
    ensures AllWithin(Mask(f, w, v), lo, hi)
  {
    if |f| > 0 {
      var n := |f| - 1;
      assert AllWithin(w[..n], lo, hi) by {
        forall i | 0 <= i < n ensures lo <= w[..n][i] <= hi {
          assert w[..n][i] == w[i];
        }
      }
      MaskWithin(f[..n], w[..n], v, lo, hi);
    }
  }

  /** Sum over the bins of the masked sums of w. */
  function GroupedSum(bins: seq<real>, f: seq<real>, w: seq<real>): (t: real)
    requires |f| == |w|
  {
    if |bins| == 0 then 0.0
    else GroupedSum(bins[..|bins| - 1], f, w) + Sum(Mask(f, w, bins[|bins| - 1]))
  }

  /** Sum over the bins of their counts. */
  function CountTotal(bins: seq<real>, f: seq<real>): (c: nat)
  {
    if |bins| == 0 then 0
    else CountTotal(bins[..|bins| - 1], f) + BinCount(f, bins[|bins| - 1])
  }

  lemma SplitLast(s: seq<real>)
    requires |s| > 0
    ensures s[..|s| - 1] + [s[|s| - 1]] == s
  {
  }

  lemma SumAppend(s: seq<real>, a: real)
    ensures Sum(s + [a]) == Sum(s) + a
  {
    assert (s + [a])[..|s|] == s;
  }

  lemma MaskAppend(f: seq<real>, w: seq<real>, x: real, a: real, v: real)
    requires |f| == |w|
    ensures Mask(f + [x], w + [a], v) == Mask(f, w, v) + (if x == v then [a] else [])
  {
    assert (f + [x])[..|f|] == f;
    assert (w + [a])[..|w|] == w;
  }

  lemma BinCountAppend(f: seq<real>, x: real, v: real)
    ensures BinCount(f + [x], v) == BinCount(f, v) + (if x == v then 1 else 0)
  {
    assert (f + [x])[..|f|] == f;
  }

  /** The masked sum of w over bin v, split off at the last sample. */
  lemma MaskSumLast(f: seq<real>, w: seq<real>, v: real)
    requires |f| == |w| > 0
    ensures var n := |f| - 1;
      Sum(Mask(f, w, v)) == Sum(Mask(f[..n], w[..n], v)) + (if f[n] == v then w[n] else 0.0)
  {
    var n := |f| - 1;
    var m := Mask(f[..n], w[..n], v);
    if f[n] == v {
      SumAppend(m, w[n]);
    } else {
      assert m + [] == m;
    }
  }

  /** The grouped sum over the first k bins, split off at bin k - 1. */
  lemma GroupedSumLast(bins: seq<real>, k: nat, f: seq<real>, w: seq<real>)
    requires |f| == |w| && 0 < k <= |bins|
    ensures GroupedSum(bins[..k], f, w) == GroupedSum(bins[..k - 1], f, w) + Sum(Mask(f, w, bins[k - 1]))
  {
    assert bins[..k][..k - 1] == bins[..k - 1];
  }

  /** The count total over the first k bins, split off at bin k - 1. */
  lemma CountTotalLast(bins: seq<real>, k: nat, f: seq<real>)
    requires 0 < k <= |bins|
    ensures CountTotal(bins[..k], f) == CountTotal(bins[..k - 1], f) + BinCount(f, bins[k - 1])
  {
    assert bins[..k][..k - 1] == bins[..k - 1];
  }

  /** One more sample (x, a) adds a to the masked sum of bin x and to no other. */
  lemma MaskSumAppend(f: seq<real>, w: seq<real>, x: real, a: real, v: real)
    requires |f| == |w|
    ensures Sum(Mask(f + [x], w + [a], v)) == Sum(Mask(f, w, v)) + (if x == v then a else 0.0)
  {
    MaskAppend(f, w, x, a, v);
    if x == v {
      SumAppend(Mask(f, w, v), a);
    } else {
      assert Mask(f, w, v) + [] == Mask(f, w, v);
    }
  }

  /** Splitting off the last of distinct bins: x is among them iff it is among the others or is the last, and not both. */
  lemma LastBin(bins: seq<real>, x: real)
    requires NoDuplicates(bins) && |bins| > 0
    ensures var m := |bins| - 1;
      && NoDuplicates(bins[..m])
      && ((x in bins) <==> (x in bins[..m] || x == bins[m]))
      && (x == bins[m] ==> x !in bins[..m])
  {
    var m := |bins| - 1;
    assert bins == bins[..m] + [bins[m]];
  }

  /** One more sample (x, a) adds a to exactly the bin x, if x is a bin. */
  lemma {:induction false} GroupedSumAppend(bins: seq<real>, f: seq<real>, w: seq<real>, x: real, a: real)
    requires |f| == |w|
    requires NoDuplicates(bins)
    ensures GroupedSum(bins, f + [x], w + [a]) == GroupedSum(bins, f, w) + (if x in bins then a else 0.0)
  {
    if |bins| > 0 {
      var m := |bins| - 1;
      LastBin(bins, x);
      GroupedSumAppend(bins[..m], f, w, x, a);
      MaskSumAppend(f, w, x, a, bins[m]);
    }
  }

  lemma {:induction false} GroupedSumEmpty(bins: seq<real>)
    ensures GroupedSum(bins, [], []) == 0.0
  {
    if |bins| > 0 {
      GroupedSumEmpty(bins[..|bins| - 1]);
    }
  }

  lemma {:induction false} CountTotalEmpty(bins: seq<real>)
    ensures CountTotal(bins, []) == 0
  {
    if |bins| > 0 {
      CountTotalEmpty(bins[..|bins| - 1]);
    }
  }

  /** Grouping does not change a total: summing the bins gives the sum over all samples. */
  lemma {:induction false} GroupedSumTotal(bins: seq<real>, f: seq<real>, w: seq<real>)
    requires |f| == |w|
    requires NoDuplicates(bins)
    requires forall i :: 0 <= i < |f| ==> f[i] in bins
    ensures GroupedSum(bins, f, w) == Sum(w)
  {
    if |f| > 0 {
      var n := |f| - 1;
      GroupedSumTotal(bins, f[..n], w[..n]);
      GroupedSumAppend(bins, f[..n], w[..n], f[n], w[n]);
      SplitLast(f);
      SplitLast(w);
    } else {
      GroupedSumEmpty(bins);
      assert f == [] && w == [];
    }
  }

  lemma {:induction false} CountTotalAppend(bins: seq<real>, f: seq<real>, x: real)
    requires NoDuplicates(bins)
    ensures CountTotal(bins, f + [x]) == CountTotal(bins, f) + (if x in bins then 1 else 0)
  {
    if |bins| > 0 {
      var m := |bins| - 1;
      var b, v := bins[..m], bins[m];
      assert NoDuplicates(b);
      CountTotalAppend(b, f, x);
      BinCountAppend(f, x, v);
      assert bins == b + [v];
      assert x == v ==> x !in b;
    }
  }

  /** Over bins that are distinct and cover every sample, the counts add up to the sample count. */
  lemma {:induction false} CountTotalIsLength(bins: seq<real>, f: seq<real>)
    requires NoDuplicates(bins)
    requires forall i :: 0 <= i < |f| ==> f[i] in bins
    ensures CountTotal(bins, f) == |f|
  {
    if |f| > 0 {
      var n := |f| - 1;
      CountTotalIsLength(bins, f[..n]);
      CountTotalAppend(bins, f[..n], f[n]);
      SplitLast(f);
    } else {
      CountTotalEmpty(bins);
    }
  }

  /** The counts N_i of the distinct values of f add up to n = |f|. */
  lemma BinCountsSumToLength(f: seq<real>)
    ensures CountTotal(Distinct(f), f) == |f|
  {
    CountTotalIsLength(Distinct(f), f);
  }
}
