/**
  Probabilistic forecast error metrics: the Brier Score, the Brier Skill
  Score, the three-component Brier decomposition (reliability, resolution,
  uncertainty) over binned forecast probabilities, and the sharpness of
  interval forecasts.

  A forecast fx_i is the right-hand side of a CDF interval ("at most fx_i"),
  fx_prob_i its probability in percent and obs_i the observation. All
  sequences of one call have the same length n, and n >= 1 wherever a mean
  is taken.
*/
module Probabilistic {
  import opened Numpy
  import opened Grouping

  /** Every entry is an event indicator: 0.0 or 1.0. */
  predicate IsIndicator(o: seq<real>)
  {
    forall i :: 0 <= i < |o| ==> o[i] == 0.0 || o[i] == 1.0
  }

  /** The event indicators o_i: the event "obs_i <= fx_i" happened (1.0) or did not (0.0). */
  function Events(fx: seq<real>, obs: seq<real>): (o: seq<real>)
    requires |fx| == |obs|
    ensures |o| == |fx|
    ensures IsIndicator(o)
    ensures forall i :: 0 <= i < |o| ==> (o[i] == 1.0 <==> obs[i] <= fx[i])
  {
    seq(|fx|, i requires 0 <= i < |fx| => if obs[i] <= fx[i] then 1.0 else 0.0)
  }

  /** Forecast probabilities as fractions: f_i = fx_prob_i / 100. */
  function Probabilities(fxProb: seq<real>): (f: seq<real>)
    ensures |f| == |fxProb|
    ensures forall i :: 0 <= i < |f| ==> f[i] * 100.0 == fxProb[i]
  {
    seq(|fxProb|, i requires 0 <= i < |fxProb| => fxProb[i] / 100.0)
  }

  /** (f_i - o_i)^2 for every sample. */
  function SquaredErrors(f: seq<real>, o: seq<real>): (e: seq<real>)
    requires |f| == |o|
    ensures |e| == |f|
    ensures forall i :: 0 <= i < |e| ==> e[i] >= 0.0
  {
    seq(|f|, i requires 0 <= i < |f| => Square(f[i] - o[i]))
  }

  /** The Brier Score of fractional probabilities f against indicators o. */
  function BrierScoreOf(f: seq<real>, o: seq<real>): (bs: real)
    requires |f| == |o| >= 1
    ensures bs >= 0.0
  {
    SumNonNegative(SquaredErrors(f, o));
    Mean(SquaredErrors(f, o))
  }

  /** brier_score: the mean of (f_i - o_i)^2 over all n samples. */
  function BrierScore(fx: seq<real>, fxProb: seq<real>, obs: seq<real>): (bs: real)
    requires |fx| == |fxProb| == |obs| >= 1
    ensures bs >= 0.0
  {
    BrierScoreOf(Probabilities(fxProb), Events(fx, obs))
  }

  /** With every probability in [0, 100] percent, the Brier Score lies in [0, 1]. */
  lemma BrierScoreBounded(fx: seq<real>, fxProb: seq<real>, obs: seq<real>)
    requires |fx| == |fxProb| == |obs| >= 1
    requires AllWithin(fxProb, 0.0, 100.0)
    ensures 0.0 <= BrierScore(fx, fxProb, obs) <= 1.0
  {
    var f, o := Probabilities(fxProb), Events(fx, obs);
    var e := SquaredErrors(f, o);
    forall i | 0 <= i < |e| ensures 0.0 <= e[i] <= 1.0 {
      assert 0.0 <= f[i] <= 1.0;
      var d := f[i] - o[i];
      assert -1.0 <= d <= 1.0;
      if d >= 0.0 {
        assert d * d <= d * 1.0;
      } else {
        assert d * d <= (-d) * 1.0;
      }
      assert e[i] == d * d;
    }
    MeanWithin(e, 0.0, 1.0);
  }

  /** The worked scenario: thresholds 5, probabilities 50%, observations 1, 1, 10, 10 give 0.25. */
  lemma BrierScoreScenario()
    ensures BrierScore([5.0, 5.0, 5.0, 5.0], [50.0, 50.0, 50.0, 50.0], [1.0, 1.0, 10.0, 10.0]) == 0.25
  {
    var f := Probabilities([50.0, 50.0, 50.0, 50.0]);
    var o := Events([5.0, 5.0, 5.0, 5.0], [1.0, 1.0, 10.0, 10.0]);
    assert o == [1.0, 1.0, 0.0, 0.0];
    var e := SquaredErrors(f, o);
    assert e == [0.25, 0.25, 0.25, 0.25];
    assert Sum(e[..1]) == 0.25;
    assert e[..2][..1] == e[..1];
    assert Sum(e[..2]) == 0.5;
    assert e[..3][..2] == e[..2];
    assert Sum(e[..3]) == 0.75;
    assert Sum(e) == 1.0;
  }

  /** brier_skill_score: 1 - BS_fx / BS_ref, against the same observations. */
  function BrierSkillScore(fx: seq<real>, fxProb: seq<real>, ref: seq<real>, refProb: seq<real>, obs: seq<real>): (skill: real)
    requires |fx| == |fxProb| == |ref| == |refProb| == |obs| >= 1
    requires BrierScore(ref, refProb, obs) != 0.0
    ensures skill <= 1.0
  {
    var bsFx := BrierScore(fx, fxProb, obs);
    var bsRef := BrierScore(ref, refProb, obs);
    assert bsFx / bsRef >= 0.0;
    1.0 - bsFx / bsRef
  }

  /** A forecast scored against itself as reference has no skill. */
  lemma SkillOfReferenceIsZero(fx: seq<real>, fxProb: seq<real>, obs: seq<real>)
    requires |fx| == |fxProb| == |obs| >= 1
    requires BrierScore(fx, fxProb, obs) != 0.0
    ensures BrierSkillScore(fx, fxProb, fx, fxProb, obs) == 0.0
  {
  }

  /** A forecast with Brier Score 0 has skill 1. */
  lemma SkillOfPerfectForecast(fx: seq<real>, fxProb: seq<real>, ref: seq<real>, refProb: seq<real>, obs: seq<real>)
    requires |fx| == |fxProb| == |ref| == |refProb| == |obs| >= 1
    requires BrierScore(ref, refProb, obs) != 0.0
    requires BrierScore(fx, fxProb, obs) == 0.0
    ensures BrierSkillScore(fx, fxProb, ref, refProb, obs) == 1.0
  {
  }

  /** The skill is positive exactly when the forecast scores better (lower) than the reference. */
  lemma SkillPositiveIffBetter(fx: seq<real>, fxProb: seq<real>, ref: seq<real>, refProb: seq<real>, obs: seq<real>)
    requires |fx| == |fxProb| == |ref| == |refProb| == |obs| >= 1
    requires BrierScore(ref, refProb, obs) != 0.0
    ensures BrierSkillScore(fx, fxProb, ref, refProb, obs) > 0.0
        <==> BrierScore(fx, fxProb, obs) < BrierScore(ref, refProb, obs)
  {
    var bsFx := BrierScore(fx, fxProb, obs);
    var bsRef := BrierScore(ref, refProb, obs);
    var q := bsFx / bsRef;
    assert bsRef > 0.0;
    assert (q - 1.0) * bsRef == bsFx - bsRef;
    if q < 1.0 {
      assert (1.0 - q) * bsRef > 0.0;
    } else {
      assert (q - 1.0) * bsRef >= 0.0;
    }
  }

  /** The binning precision: hundredths from 1000 samples on, tenths below that. */
  function Decimals(n: nat): (d: nat)
    ensures d == 2 <==> n >= 1000
    ensures d == 1 <==> n < 1000
  {
    if n >= 1000 then 2 else 1
  }

  /**
    _unique_forecasts: every probability rounded (half to even) to Decimals(n)
    places, so it lands on the tenths or hundredths grid, at most half a grid
    step away from where it was.
  */
  function UniqueForecasts(f: seq<real>): (r: seq<real>)
    ensures |r| == |f|
    ensures forall i :: 0 <= i < |r| ==> r[i] == Around(f[i], Decimals(|f|))
    ensures forall i :: 0 <= i < |r| ==> OnGrid(r[i], Decimals(|f|))
    ensures forall i :: 0 <= i < |r| ==> -0.5 <= (r[i] - f[i]) * Scale(Decimals(|f|)) <= 0.5
  {
    seq(|f|, i requires 0 <= i < |f| => Around(f[i], Decimals(|f|)))
  }

  /** Binning binned probabilities again changes nothing. */
  lemma UniqueForecastsIdempotent(f: seq<real>)
    ensures UniqueForecasts(UniqueForecasts(f)) == UniqueForecasts(f)
  {
    var r := UniqueForecasts(f);
    forall i | 0 <= i < |r| ensures UniqueForecasts(r)[i] == r[i] {
      AroundIdempotent(f[i], Decimals(|f|));
    }
  }

  /** Probabilities already on the grid are left as they are. */
  lemma UniqueForecastsOnGrid(f: seq<real>)
    requires forall i :: 0 <= i < |f| ==> OnGrid(f[i], Decimals(|f|))
    ensures UniqueForecasts(f) == f
  {
    forall i | 0 <= i < |f| ensures UniqueForecasts(f)[i] == f[i] {
      AroundOnGrid(f[i], Decimals(|f|));
    }
  }

  /** The documented example: fewer than 1000 samples are binned by tenths. */
  lemma UniqueForecastsExample()
    ensures UniqueForecasts([0.1234, 0.156891, 0.10561]) == [0.1, 0.2, 0.1]
  {
    assert Decimals(3) == 1 && Scale(1) == 10.0;
    assert Rint(1.234) == 1;
    assert Rint(1.56891) == 2;
    assert Rint(1.0561) == 1;
  }

  /** o_{i,avg}: the mean event indicator over the samples in bin v, `np.mean(o[f == v])`. */
  function BinRate(f: seq<real>, o: seq<real>, v: real): (rate: real)
    requires |f| == |o|
    requires v in f
    ensures rate * BinCount(f, v) as real == Sum(Mask(f, o, v))
    ensures IsIndicator(o) ==> 0.0 <= rate <= 1.0
  {
    if IsIndicator(o) then
      BinRateWithin(f, o, v);
      Mean(Mask(f, o, v))
    else
      Mean(Mask(f, o, v))
  }

  /** The event rate of a non-empty bin of indicators lies in [0, 1]. */
  lemma BinRateWithin(f: seq<real>, o: seq<real>, v: real)
    requires |f| == |o| && IsIndicator(o)
    requires v in f
    ensures 0.0 <= Mean(Mask(f, o, v)) <= 1.0
  {
    assert AllWithin(o, 0.0, 1.0);
    MaskWithin(f, o, v, 0.0, 1.0);
    MeanWithin(Mask(f, o, v), 0.0, 1.0);
  }

  /** Bins drawn from the binned probabilities themselves, so none is empty. */
  predicate BinsOf(bins: seq<real>, f: seq<real>)
  {
    forall k :: 0 <= k < |bins| ==> bins[k] in f
  }

  /**
    N (a - b)^2: one bin's share of a bin sum, with N the bin's count. The
    reliability term is N_i (f_i - o_{i,avg})^2, the resolution term
    N_i (o_{i,avg} - o_avg)^2. It is never negative, and for a non-empty bin
    it is zero exactly when a and b agree.
  */
  function WeightedSquare(count: nat, a: real, b: real): (t: real)
    ensures t >= 0.0
    ensures count > 0 ==> (t == 0.0 <==> a == b)
  {
    if count > 0 && a != b then
      SquarePositive(a - b);
      ProductPositive(count as real, Square(a - b), count as real * Square(a - b));
      count as real * Square(a - b)
    else
      count as real * Square(a - b)
  }

  /** sum over the first k bins of N_i (f_i - o_{i,avg})^2, before division by n. */
  function ReliabilitySum(bins: seq<real>, k: nat, f: seq<real>, o: seq<real>): (r: real)
    requires |f| == |o|
    requires k <= |bins| && BinsOf(bins, f)
    ensures r >= 0.0
  {
    if k == 0 then 0.0
    else
      var v := bins[k - 1];
      ReliabilitySum(bins, k - 1, f, o) + WeightedSquare(BinCount(f, v), v, BinRate(f, o, v))
  }

  /** sum over the first k bins of N_i (o_{i,avg} - o_avg)^2, before division by n. */
  function ResolutionSum(bins: seq<real>, k: nat, f: seq<real>, o: seq<real>, oAvg: real): (r: real)
    requires |f| == |o|
    requires k <= |bins| && BinsOf(bins, f)
    ensures r >= 0.0
  {
    if k == 0 then 0.0
    else
      var v := bins[k - 1];
      ResolutionSum(bins, k - 1, f, o, oAvg) + WeightedSquare(BinCount(f, v), BinRate(f, o, v), oAvg)
  }

  /** base_rate (1 - base_rate): the variance of an event that happens at the given rate. */
  function RateVariance(b: real): (v: real)
    ensures 0.0 <= b <= 1.0 ==> 0.0 <= v <= 0.25
  {
    var v := b * (1.0 - b);
    assert 0.25 - v == Square(b - 0.5);
    assert 0.0 <= b <= 1.0 ==> v >= 0.0 by {
      if 0.0 <= b <= 1.0 {
        ProductNonNegative(b, 1.0 - b);
      }
    }
    v
  }

  /** The base rate: the fraction of samples in which the event happened. */
  function BaseRate(fx: seq<real>, obs: seq<real>): (b: real)
    requires |fx| == |obs| >= 1
    ensures 0.0 <= b <= 1.0
  {
    MeanWithin(Events(fx, obs), 0.0, 1.0);
    Mean(Events(fx, obs))
  }

  /**
    The functional specification of brier_decomposition: (REL, RES, UNC) over
    the distinct binned probabilities, REL and RES divided by the sample count n.
  */
  function Decomposition(fx: seq<real>, fxProb: seq<real>, obs: seq<real>): (d: (real, real, real))
    requires |fx| == |fxProb| == |obs| >= 1
    ensures d.0 >= 0.0 && d.1 >= 0.0
    ensures 0.0 <= d.2 <= 0.25
  {
    var o := Events(fx, obs);
    var f := UniqueForecasts(Probabilities(fxProb));
    var bins := Distinct(f);
    var n := |f| as real;
    var oAvg := BaseRate(fx, obs);
    var k := |bins|;
    QuotientNonNegative(ReliabilitySum(bins, k, f, o), n);
    QuotientNonNegative(ResolutionSum(bins, k, f, o, oAvg), n);
    (ReliabilitySum(bins, k, f, o) / n, ResolutionSum(bins, k, f, o, oAvg) / n, RateVariance(oAvg))
  }

  /** Decomposition spelled out in terms of the bin sums. */
  lemma DecompositionUnfolded(fx: seq<real>, fxProb: seq<real>, obs: seq<real>)
    requires |fx| == |fxProb| == |obs| >= 1
    ensures var o, f := Events(fx, obs), UniqueForecasts(Probabilities(fxProb));
      var bins := Distinct(f);
      Decomposition(fx, fxProb, obs)
        == (ReliabilitySum(bins, |bins|, f, o) / |f| as real,
            ResolutionSum(bins, |bins|, f, o, Mean(o)) / |f| as real,
            RateVariance(Mean(o)))
  {
  }

  /**
    brier_decomposition: one pass over the distinct binned probabilities with
    their counts, accumulating reliability and resolution, then dividing both
    by n; the uncertainty comes from the base rate.
  */
  method BrierDecomposition(fx: seq<real>, fxProb: seq<real>, obs: seq<real>) returns (rel: real, res: real, unc: real)
    requires |fx| == |fxProb| == |obs| >= 1
    ensures (rel, res, unc) == Decomposition(fx, fxProb, obs)
  {
    var o := Events(fx, obs);
    var f := UniqueForecasts(Probabilities(fxProb));

    var oAvg := Mean(o);
    var bins := Distinct(f);
    assert BinsOf(bins, f);
    rel, res := BinSums(bins, f, o, oAvg);
    rel := rel / |f| as real;
    res := res / |f| as real;

    var baseRate := Mean(o);
    unc := RateVariance(baseRate);
    DecompositionUnfolded(fx, fxProb, obs);
  }

  /** Bin k's terms extend the sums over the first k bins to the first k + 1. */
  lemma BinSumsStep(bins: seq<real>, k: nat, f: seq<real>, o: seq<real>, oAvg: real)
    requires |f| == |o|
    requires k < |bins| && BinsOf(bins, f)
    ensures var v := bins[k];
      var count, rate := BinCount(f, v), BinRate(f, o, v);
      && ReliabilitySum(bins, k + 1, f, o) == ReliabilitySum(bins, k, f, o) + WeightedSquare(count, v, rate)
      && ResolutionSum(bins, k + 1, f, o, oAvg) == ResolutionSum(bins, k, f, o, oAvg) + WeightedSquare(count, rate, oAvg)
  {
  }

  /**
    The loop of brier_decomposition: for each distinct binned probability
    f_i with its count N_i and event rate o_i, add N_i (f_i - o_i)^2 to the
    reliability and N_i (o_i - o_avg)^2 to the resolution.
  */
  method BinSums(bins: seq<real>, f: seq<real>, o: seq<real>, oAvg: real) returns (rel: real, res: real)
    requires |f| == |o| && BinsOf(bins, f)
    ensures rel == ReliabilitySum(bins, |bins|, f, o)
    ensures res == ResolutionSum(bins, |bins|, f, o, oAvg)
  {
    rel, res := 0.0, 0.0;
    for k := 0 to |bins|
      invariant rel == ReliabilitySum(bins, k, f, o)
      invariant res == ResolutionSum(bins, k, f, o, oAvg)
    {
      var fi := bins[k];
      var ni := BinCount(f, fi);
      var oi := BinRate(f, o, fi);
      BinSumsStep(bins, k, f, o, oAvg);
      rel := rel + WeightedSquare(ni, fi, oi);
      res := res + WeightedSquare(ni, oi, oAvg);
    }
  }

  /** reliability: component 0 of the decomposition; never negative. */
  function Reliability(fx: seq<real>, fxProb: seq<real>, obs: seq<real>): (rel: real)
    requires |fx| == |fxProb| == |obs| >= 1
    ensures rel == Decomposition(fx, fxProb, obs).0
    ensures rel >= 0.0
  {
    Decomposition(fx, fxProb, obs).0
  }

  /** resolution: component 1 of the decomposition; never negative. */
  function Resolution(fx: seq<real>, fxProb: seq<real>, obs: seq<real>): (res: real)
    requires |fx| == |fxProb| == |obs| >= 1
    ensures res == Decomposition(fx, fxProb, obs).1
    ensures res >= 0.0
  {
    Decomposition(fx, fxProb, obs).1
  }

  /**
    uncertainty: component 2 of the decomposition, base_rate (1 - base_rate),
    a number in [0, 1/4] fixed by the event indicators alone.
  */
  function Uncertainty(fx: seq<real>, fxProb: seq<real>, obs: seq<real>): (unc: real)
    requires |fx| == |fxProb| == |obs| >= 1
    ensures unc == Decomposition(fx, fxProb, obs).2
    ensures unc == RateVariance(BaseRate(fx, obs))
    ensures 0.0 <= unc <= 0.25
  {
    Decomposition(fx, fxProb, obs).2
  }

  /** Changing the forecast probabilities leaves the uncertainty unchanged. */
  lemma UncertaintyIgnoresProbabilities(fx: seq<real>, fxProb: seq<real>, otherProb: seq<real>, obs: seq<real>)
    requires |fx| == |fxProb| == |otherProb| == |obs| >= 1
    ensures Uncertainty(fx, fxProb, obs) == Uncertainty(fx, otherProb, obs)
  {
  }

  /** fx_upper_i - fx_lower_i for every sample. */
  function Widths(lower: seq<real>, upper: seq<real>): (w: seq<real>)
    requires |lower| == |upper|
    ensures |w| == |lower|
    ensures forall i :: 0 <= i < |w| ==> w[i] == upper[i] - lower[i]
  {
    seq(|lower|, i requires 0 <= i < |lower| => upper[i] - lower[i])
  }

  /**
    sharpness: the mean width of the prediction intervals, which is the mean
    upper bound minus the mean lower bound.
  */
  function Sharpness(lower: seq<real>, upper: seq<real>): (sh: real)
    requires |lower| == |upper| >= 1
    ensures sh == Mean(upper) - Mean(lower)
  {
    var w := Widths(lower, upper);
    SumOfDifferences(upper, lower, w);
    DifferenceOverDivisor(Sum(upper), Sum(lower), |lower| as real);
    Mean(w)
  }

  /** Intervals whose upper end is at least their lower end have non-negative sharpness. */
  lemma SharpnessNonNegative(lower: seq<real>, upper: seq<real>)
    requires |lower| == |upper| >= 1
    requires forall i :: 0 <= i < |lower| ==> lower[i] <= upper[i]
    ensures Sharpness(lower, upper) >= 0.0
  {
    var w := Widths(lower, upper);
    SumNonNegative(w);
    QuotientNonNegative(Sum(w), |w| as real);
  }

  /** Widths 3, 4 and 6 give sharpness 13/3. */
  lemma SharpnessExample()
    ensures Sharpness([1.0, 2.0, 3.0], [4.0, 6.0, 9.0]) == 13.0 / 3.0
  {
    var w := Widths([1.0, 2.0, 3.0], [4.0, 6.0, 9.0]);
    assert w == [3.0, 4.0, 6.0];
    assert Sum(w[..1]) == 3.0;
    assert w[..2][..1] == w[..1];
    assert Sum(w[..2]) == 7.0;
    assert Sum(w) == 13.0;
  }
}
