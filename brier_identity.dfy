/**
  The classic three-component identity of the Brier Score,
  BS = REL - RES + UNC, for the decomposition over binned probabilities.
  It holds exactly for the Brier Score of the binned probabilities, and so
  for the Brier Score itself whenever binning leaves every probability
  where it was.
*/
module BrierIdentity {
  import opened Numpy
  import opened Grouping
  import opened Probabilistic

  /** N v^2 - 2 v S + S: the squared errors of a bin at probability v holding N samples and S events. */
  function BinSquareTotal(count: nat, v: real, s: real): (sq: real)
  {
    count as real * Square(v) - 2.0 * v * s + s
  }

  /** One more sample in the bin, with outcome o in {0, 1}, adds its squared error (v - o)^2. */
  lemma BinSquareTotalStep(count: nat, v: real, s: real, o: real, count': nat, s': real)
    requires o == 0.0 || o == 1.0
    requires count' == count + 1 && s' == s + o
    ensures BinSquareTotal(count', v, s') == BinSquareTotal(count, v, s) + Square(v - o)
  {
    assert o * o == o;
    calc {
      BinSquareTotal(count', v, s');
      (count as real + 1.0) * (v * v) - 2.0 * v * (s + o) + (s + o);
      (count as real * (v * v) - 2.0 * v * s + s) + (v * v - 2.0 * v * o + o * o);
    }
  }

  /** No samples, no squared errors. */
  lemma BinSquareTotalEmpty(count: nat, v: real, s: real)
    requires count == 0 && s == 0.0
    ensures BinSquareTotal(count, v, s) == 0.0
  {
  }

  /** A sample outside the bin changes nothing. */
  lemma BinSquareTotalSame(count: nat, v: real, s: real, count': nat, s': real)
    requires count' == count && s' == s
    ensures BinSquareTotal(count', v, s') == BinSquareTotal(count, v, s)
  {
  }

  lemma SquaredErrorsPrefix(f: seq<real>, o: seq<real>, n: nat)
    requires |f| == |o| && n <= |f|
    ensures SquaredErrors(f, o)[..n] == SquaredErrors(f[..n], o[..n])
  {
  }

  lemma IndicatorPrefix(o: seq<real>, n: nat)
    requires IsIndicator(o) && n <= |o|
    ensures IsIndicator(o[..n])
  {
    forall i | 0 <= i < n ensures o[..n][i] == 0.0 || o[..n][i] == 1.0 {
      assert o[..n][i] == o[i];
    }
  }

  /** A last sample that falls in bin v adds one to its count, its event to the events and its squared error. */
  lemma BinLastSampleIn(f: seq<real>, o: seq<real>, v: real)
    requires |f| == |o| > 0 && f[|f| - 1] == v
    ensures var n, e := |f| - 1, SquaredErrors(f, o);
      && BinCount(f, v) == BinCount(f[..n], v) + 1
      && Sum(Mask(f, o, v)) == Sum(Mask(f[..n], o[..n], v)) + o[n]
      && Sum(Mask(f, e, v)) == Sum(Mask(f[..n], e[..n], v)) + Square(v - o[n])
  {
    MaskSumLast(f, SquaredErrors(f, o), v);
    MaskSumLast(f, o, v);
  }

  /** A last sample outside bin v leaves its count, events and squared errors alone. */
  lemma BinLastSampleOut(f: seq<real>, o: seq<real>, v: real)
    requires |f| == |o| > 0 && f[|f| - 1] != v
    ensures var n, e := |f| - 1, SquaredErrors(f, o);
      && BinCount(f, v) == BinCount(f[..n], v)
      && Sum(Mask(f, o, v)) == Sum(Mask(f[..n], o[..n], v))
      && Sum(Mask(f, e, v)) == Sum(Mask(f[..n], e[..n], v))
  {
    MaskSumLast(f, SquaredErrors(f, o), v);
    MaskSumLast(f, o, v);
  }

  /** Within bin v the squared errors add up to N v^2 - 2 v S + S, S being the number of events in the bin. */
  lemma {:induction false} BinSquaredErrors(f: seq<real>, o: seq<real>, v: real)
    requires |f| == |o|
    requires IsIndicator(o)
    ensures Sum(Mask(f, SquaredErrors(f, o), v)) == BinSquareTotal(BinCount(f, v), v, Sum(Mask(f, o, v)))
  {
    if |f| > 0 {
      var n := |f| - 1;
      var p, q := f[..n], o[..n];
      SquaredErrorsPrefix(f, o, n);
      IndicatorPrefix(o, n);
      BinSquaredErrors(p, q, v);
      var count, events := BinCount(p, v), Sum(Mask(p, q, v));
      if f[n] == v {
        BinLastSampleIn(f, o, v);
        BinSquareTotalStep(count, v, events, o[n], BinCount(f, v), Sum(Mask(f, o, v)));
      } else {
        BinLastSampleOut(f, o, v);
        BinSquareTotalSame(count, v, events, BinCount(f, v), Sum(Mask(f, o, v)));
      }
    } else {
      BinSquareTotalEmpty(BinCount(f, v), v, Sum(Mask(f, o, v)));
    }
  }

  /**
    sq - (1 - 2a) ev - a^2 cnt: what reliability minus resolution comes to for
    a group of samples with squared-error sum sq, event sum ev and count cnt,
    around the overall event rate a.
  */
  function GroupForm(sq: real, ev: real, cnt: real, a: real): (g: real)
  {
    sq - (1.0 - 2.0 * a) * ev - a * a * cnt
  }

  /** GroupForm adds up over disjoint groups. */
  lemma GroupFormAdditive(sq: real, ev: real, cnt: real, sq': real, ev': real, cnt': real, a: real,
                          sqAll: real, evAll: real, cntAll: real)
    requires sqAll == sq + sq' && evAll == ev + ev' && cntAll == cnt + cnt'
    ensures GroupForm(sqAll, evAll, cntAll, a) == GroupForm(sq, ev, cnt, a) + GroupForm(sq', ev', cnt', a)
  {
    var b, c := 1.0 - 2.0 * a, a * a;
    assert b * (ev + ev') == b * ev + b * ev';
    assert c * (cnt + cnt') == c * cnt + c * cnt';
  }

  /** One bin's reliability term minus its resolution term, in terms of its count N, event sum S and v. */
  lemma BinTermsDifference(count: nat, v: real, rate: real, s: real, a: real)
    requires count > 0 && rate == s / count as real
    ensures WeightedSquare(count, v, rate) - WeightedSquare(count, rate, a)
         == GroupForm(BinSquareTotal(count, v, s), s, count as real, a)
  {
    var n := count as real;
    assert s == n * rate;
    calc {
      WeightedSquare(count, v, rate) - WeightedSquare(count, rate, a);
      n * ((v - rate) * (v - rate)) - n * ((rate - a) * (rate - a));
      n * (v * v) - 2.0 * v * (n * rate) + 2.0 * a * (n * rate) - a * a * n;
      n * (v * v) - 2.0 * v * s + 2.0 * a * s - a * a * n;
    }
  }

  /**
    Over the first k bins, reliability minus resolution equals the grouped
    squared errors less (1 - 2a) times the grouped events less a^2 times the
    grouped counts.
  */
  lemma {:induction false} BinSumsDifference(bins: seq<real>, k: nat, f: seq<real>, o: seq<real>, a: real)
    requires |f| == |o| && IsIndicator(o)
    requires k <= |bins| && BinsOf(bins, f)
    ensures ReliabilitySum(bins, k, f, o) - ResolutionSum(bins, k, f, o, a)
         == GroupForm(GroupedSum(bins[..k], f, SquaredErrors(f, o)), GroupedSum(bins[..k], f, o),
                      CountTotal(bins[..k], f) as real, a)
  {
    var e := SquaredErrors(f, o);
    if k > 0 {
      var v := bins[k - 1];
      BinSumsDifference(bins, k - 1, f, o, a);
      GroupedSumLast(bins, k, f, e);
      GroupedSumLast(bins, k, f, o);
      CountTotalLast(bins, k, f);
      BinSquaredErrors(f, o, v);
      BinStep(bins, k, f, o, a);
      var count, s := BinCount(f, v), Sum(Mask(f, o, v));
      GroupFormAdditive(GroupedSum(bins[..k - 1], f, e), GroupedSum(bins[..k - 1], f, o),
                        CountTotal(bins[..k - 1], f) as real, BinSquareTotal(count, v, s), s, count as real, a,
                        GroupedSum(bins[..k], f, e), GroupedSum(bins[..k], f, o), CountTotal(bins[..k], f) as real);
    }
  }

  /** Bin k - 1's contribution to reliability minus resolution. */
  lemma BinStep(bins: seq<real>, k: nat, f: seq<real>, o: seq<real>, a: real)
    requires |f| == |o|
    requires 0 < k <= |bins| && BinsOf(bins, f)
    ensures var v := bins[k - 1];
      var count, s := BinCount(f, v), Sum(Mask(f, o, v));
      (ReliabilitySum(bins, k, f, o) - ResolutionSum(bins, k, f, o, a))
        - (ReliabilitySum(bins, k - 1, f, o) - ResolutionSum(bins, k - 1, f, o, a))
      == GroupForm(BinSquareTotal(count, v, s), s, count as real, a)
  {
    var v := bins[k - 1];
    var m := Mask(f, o, v);
    var count, s, rate := BinCount(f, v), Sum(m), BinRate(f, o, v);
    assert |m| == count > 0;
    BinTermsDifference(count, v, rate, s, a);
  }

  /** The last step: divide the bin sums by n and compare with the Brier Score. */
  lemma ScaledIdentity(nF: nat, nO: nat, nE: nat, relSum: real, resSum: real, sqG: real, evG: real, cntG: real,
                       sumSq: real, sumEvents: real, a: real, bs: real, rel: real, res: real, unc: real)
    requires nF == nO == nE > 0
    requires sqG == sumSq && evG == sumEvents && cntG == nF as real
    requires a == sumEvents / nO as real && bs == sumSq / nE as real
    requires rel == relSum / nF as real && res == resSum / nF as real && unc == RateVariance(a)
    requires relSum - resSum == GroupForm(sqG, evG, cntG, a)
    ensures bs == rel - res + unc
  {
    var n := nF as real;
    var y := a - a * a;
    assert unc == y;
    assert sumEvents == n * a;
    assert relSum - resSum == sumSq - n * y by {
      assert (1.0 - 2.0 * a) * (n * a) + a * a * n == n * y;
    }
    DifferenceOverDivisor(relSum, resSum, n);
    ShiftOverDivisor(sumSq, y, n);
  }

  lemma ShiftOverDivisor(x: real, y: real, n: real)
    requires n > 0.0
    ensures (x - n * y) / n == x / n - y
  {
    assert n * y / n == y;
  }

  /**
    BS = REL - RES + UNC, exactly, for the Brier Score of the binned
    probabilities (the ones the decomposition groups by).
  */
  lemma BinnedBrierScoreDecomposes(fx: seq<real>, fxProb: seq<real>, obs: seq<real>)
    requires |fx| == |fxProb| == |obs| >= 1
    ensures var d := Decomposition(fx, fxProb, obs);
      BrierScoreOf(UniqueForecasts(Probabilities(fxProb)), Events(fx, obs)) == d.0 - d.1 + d.2
  {
    var o := Events(fx, obs);
    var f := UniqueForecasts(Probabilities(fxProb));
    var bins := Distinct(f);
    var k := |bins|;
    var a := Mean(o);
    var e := SquaredErrors(f, o);
    var d := Decomposition(fx, fxProb, obs);
    assert BinsOf(bins, f);
    BinSumsDifference(bins, k, f, o, a);
    assert bins[..k] == bins;
    GroupedSumTotal(bins, f, e);
    GroupedSumTotal(bins, f, o);
    CountTotalIsLength(bins, f);
    DecompositionUnfolded(fx, fxProb, obs);
    ScaledIdentity(|f|, |o|, |e|, ReliabilitySum(bins, k, f, o), ResolutionSum(bins, k, f, o, a),
                   GroupedSum(bins, f, e), GroupedSum(bins, f, o), CountTotal(bins, f) as real,
                   Sum(e), Sum(o), a, BrierScoreOf(f, o), d.0, d.1, d.2);
  }

  /**
    When binning leaves every probability unchanged, the Brier Score is
    reliability minus resolution plus uncertainty.
  */
  lemma BrierScoreDecomposes(fx: seq<real>, fxProb: seq<real>, obs: seq<real>)
    requires |fx| == |fxProb| == |obs| >= 1
    requires UniqueForecasts(Probabilities(fxProb)) == Probabilities(fxProb)
    ensures BrierScore(fx, fxProb, obs)
         == Reliability(fx, fxProb, obs) - Resolution(fx, fxProb, obs) + Uncertainty(fx, fxProb, obs)
  {
    BinnedBrierScoreDecomposes(fx, fxProb, obs);
  }

  /**
    Probabilities already on the binning grid (tenths below 1000 samples,
    hundredths from 1000 on) satisfy BS = REL - RES + UNC exactly.
  */
  lemma BrierScoreDecomposesOnGrid(fx: seq<real>, fxProb: seq<real>, obs: seq<real>)
    requires |fx| == |fxProb| == |obs| >= 1
    requires forall i :: 0 <= i < |fxProb| ==> OnGrid(fxProb[i] / 100.0, Decimals(|fxProb|))
    ensures BrierScore(fx, fxProb, obs)
         == Reliability(fx, fxProb, obs) - Resolution(fx, fxProb, obs) + Uncertainty(fx, fxProb, obs)
  {
    var f := Probabilities(fxProb);
    forall i | 0 <= i < |f| ensures OnGrid(f[i], Decimals(|f|)) {
      assert f[i] == fxProb[i] / 100.0;
    }
    UniqueForecastsOnGrid(f);
    BrierScoreDecomposes(fx, fxProb, obs);
  }
}
