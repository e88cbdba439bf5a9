/**
  When the reliability and the resolution vanish. A perfectly reliable
  forecast has reliability 0: in every bin the observed event rate equals
  the forecast probability. The resolution is 0 exactly when every bin's
  event rate equals the overall base rate, i.e. the forecast does not
  separate events from non-events at all.
*/
module Calibration {
  import opened Numpy
  import opened Grouping
  import opened Probabilistic

  /**
    One step of a running sum of non-negative terms: the new total is zero
    iff the old total and the new term both are, so a property that holds
    of each zero term and accumulates by conjunction matches a zero total.
  */
  lemma ZeroTotalStep(prev: real, term: real, total: real, before: bool, here: bool, now: bool)
    requires total == prev + term && prev >= 0.0 && term >= 0.0
    requires prev == 0.0 <==> before
    requires term == 0.0 <==> here
    requires now <==> before && here
    ensures total == 0.0 <==> now
  {
  }

  /** Every one of the first k bins has event rate equal to its probability. */
  predicate CalibratedUpTo(bins: seq<real>, k: nat, f: seq<real>, o: seq<real>)
    requires |f| == |o|
    requires k <= |bins| && BinsOf(bins, f)
  {
    k == 0 || (CalibratedUpTo(bins, k - 1, f, o) && BinRate(f, o, bins[k - 1]) == bins[k - 1])
  }

  /** Every one of the first k bins has event rate oAvg. */
  predicate BaseRateUpTo(bins: seq<real>, k: nat, f: seq<real>, o: seq<real>, oAvg: real)
    requires |f| == |o|
    requires k <= |bins| && BinsOf(bins, f)
  {
    k == 0 || (BaseRateUpTo(bins, k - 1, f, o, oAvg) && BinRate(f, o, bins[k - 1]) == oAvg)
  }

  /** The statement proved by induction in ReliabilitySumZero, for the first k bins. */
  predicate ReliabilityZeroUpTo(bins: seq<real>, k: nat, f: seq<real>, o: seq<real>)
    requires |f| == |o|
    requires k <= |bins| && BinsOf(bins, f)
  {
    ReliabilitySum(bins, k, f, o) == 0.0 <==> CalibratedUpTo(bins, k, f, o)
  }

  /** The statement proved by induction in ResolutionSumZero, for the first k bins. */
  predicate ResolutionZeroUpTo(bins: seq<real>, k: nat, f: seq<real>, o: seq<real>, oAvg: real)
    requires |f| == |o|
    requires k <= |bins| && BinsOf(bins, f)
  {
    ResolutionSum(bins, k, f, o, oAvg) == 0.0 <==> BaseRateUpTo(bins, k, f, o, oAvg)
  }

  lemma ReliabilitySumZeroBase(bins: seq<real>, f: seq<real>, o: seq<real>)
    requires |f| == |o| && BinsOf(bins, f)
    ensures ReliabilityZeroUpTo(bins, 0, f, o)
  {
  }

  lemma ResolutionSumZeroBase(bins: seq<real>, f: seq<real>, o: seq<real>, oAvg: real)
    requires |f| == |o| && BinsOf(bins, f)
    ensures ResolutionZeroUpTo(bins, 0, f, o, oAvg)
  {
  }

  /** Adding bin k - 1 to the reliability sum keeps it zero iff that bin is calibrated. */
  lemma ReliabilitySumZeroStep(bins: seq<real>, k: nat, f: seq<real>, o: seq<real>)
    requires |f| == |o|
    requires 0 < k <= |bins| && BinsOf(bins, f)
    requires ReliabilityZeroUpTo(bins, k - 1, f, o)
    ensures ReliabilityZeroUpTo(bins, k, f, o)
  {
    var v := bins[k - 1];
    var count, rate := BinCount(f, v), BinRate(f, o, v);
    BinSumsStep(bins, k - 1, f, o, 0.0);
    ZeroTotalStep(ReliabilitySum(bins, k - 1, f, o), WeightedSquare(count, v, rate), ReliabilitySum(bins, k, f, o),
      CalibratedUpTo(bins, k - 1, f, o), rate == v, CalibratedUpTo(bins, k, f, o));
  }

  /** Adding bin k - 1 to the resolution sum keeps it zero iff that bin has event rate oAvg. */
  lemma ResolutionSumZeroStep(bins: seq<real>, k: nat, f: seq<real>, o: seq<real>, oAvg: real)
    requires |f| == |o|
    requires 0 < k <= |bins| && BinsOf(bins, f)
    requires ResolutionZeroUpTo(bins, k - 1, f, o, oAvg)
    ensures ResolutionZeroUpTo(bins, k, f, o, oAvg)
  {
    var v := bins[k - 1];
    var count, rate := BinCount(f, v), BinRate(f, o, v);
    BinSumsStep(bins, k - 1, f, o, oAvg);
    ZeroTotalStep(ResolutionSum(bins, k - 1, f, o, oAvg), WeightedSquare(count, rate, oAvg), ResolutionSum(bins, k, f, o, oAvg),
      BaseRateUpTo(bins, k - 1, f, o, oAvg), rate == oAvg, BaseRateUpTo(bins, k, f, o, oAvg));
  }

  /** The reliability sum over the first k bins is zero iff each of those bins is calibrated. */
  lemma {:induction false} ReliabilitySumZero(bins: seq<real>, k: nat, f: seq<real>, o: seq<real>)
    requires |f| == |o|
    requires k <= |bins| && BinsOf(bins, f)
    ensures ReliabilityZeroUpTo(bins, k, f, o)
  {
    if k == 0 {
      ReliabilitySumZeroBase(bins, f, o);
    } else {
      ReliabilitySumZero(bins, k - 1, f, o);
      ReliabilitySumZeroStep(bins, k, f, o);
    }
  }

  /** The resolution sum over the first k bins is zero iff each of those bins has event rate oAvg. */
  lemma {:induction false} ResolutionSumZero(bins: seq<real>, k: nat, f: seq<real>, o: seq<real>, oAvg: real)
    requires |f| == |o|
    requires k <= |bins| && BinsOf(bins, f)
    ensures ResolutionZeroUpTo(bins, k, f, o, oAvg)
  {
    if k == 0 {
      ResolutionSumZeroBase(bins, f, o, oAvg);
    } else {
      ResolutionSumZero(bins, k - 1, f, o, oAvg);
      ResolutionSumZeroStep(bins, k, f, o, oAvg);
    }
  }

  /** CalibratedUpTo spelled out as a quantifier, for the first k bins. */
  predicate CalibratedMeansAll(bins: seq<real>, k: nat, f: seq<real>, o: seq<real>)
    requires |f| == |o|
    requires k <= |bins| && BinsOf(bins, f)
  {
    CalibratedUpTo(bins, k, f, o) <==> forall j :: 0 <= j < k ==> BinRate(f, o, bins[j]) == bins[j]
  }

  /** BaseRateUpTo spelled out as a quantifier, for the first k bins. */
  predicate BaseRateMeansAll(bins: seq<real>, k: nat, f: seq<real>, o: seq<real>, oAvg: real)
    requires |f| == |o|
    requires k <= |bins| && BinsOf(bins, f)
  {
    BaseRateUpTo(bins, k, f, o, oAvg) <==> forall j :: 0 <= j < k ==> BinRate(f, o, bins[j]) == oAvg
  }

  lemma CalibratedMeansAllBase(bins: seq<real>, f: seq<real>, o: seq<real>)
    requires |f| == |o| && BinsOf(bins, f)
    ensures CalibratedMeansAll(bins, 0, f, o)
  {
  }

  lemma BaseRateMeansAllBase(bins: seq<real>, f: seq<real>, o: seq<real>, oAvg: real)
    requires |f| == |o| && BinsOf(bins, f)
    ensures BaseRateMeansAll(bins, 0, f, o, oAvg)
  {
  }

  lemma CalibratedMeansAllStep(bins: seq<real>, k: nat, f: seq<real>, o: seq<real>)
    requires |f| == |o|
    requires 0 < k <= |bins| && BinsOf(bins, f)
    requires CalibratedMeansAll(bins, k - 1, f, o)
    ensures CalibratedMeansAll(bins, k, f, o)
  {
  }

  lemma BaseRateMeansAllStep(bins: seq<real>, k: nat, f: seq<real>, o: seq<real>, oAvg: real)
    requires |f| == |o|
    requires 0 < k <= |bins| && BinsOf(bins, f)
    requires BaseRateMeansAll(bins, k - 1, f, o, oAvg)
    ensures BaseRateMeansAll(bins, k, f, o, oAvg)
  {
  }

  lemma {:induction false} CalibratedUpToAll(bins: seq<real>, k: nat, f: seq<real>, o: seq<real>)
    requires |f| == |o|
    requires k <= |bins| && BinsOf(bins, f)
    ensures CalibratedMeansAll(bins, k, f, o)
  {
    if k == 0 {
      CalibratedMeansAllBase(bins, f, o);
    } else {
      CalibratedUpToAll(bins, k - 1, f, o);
      CalibratedMeansAllStep(bins, k, f, o);
    }
  }

  lemma {:induction false} BaseRateUpToAll(bins: seq<real>, k: nat, f: seq<real>, o: seq<real>, oAvg: real)
    requires |f| == |o|
    requires k <= |bins| && BinsOf(bins, f)
    ensures BaseRateMeansAll(bins, k, f, o, oAvg)
  {
    if k == 0 {
      BaseRateMeansAllBase(bins, f, o, oAvg);
    } else {
      BaseRateUpToAll(bins, k - 1, f, o, oAvg);
      BaseRateMeansAllStep(bins, k, f, o, oAvg);
    }
  }

  lemma QuotientZero(a: real, n: real)
    requires n > 0.0
    ensures a / n == 0.0 <==> a == 0.0
  {
  }

  /**
    Reliability is 0 exactly when the forecast is perfectly reliable: for
    every binned probability v, the events occur at rate v among the
    samples forecast at v.
  */
  lemma ReliabilityZeroIffCalibrated(fx: seq<real>, fxProb: seq<real>, obs: seq<real>)
    requires |fx| == |fxProb| == |obs| >= 1
    ensures var f, o := UniqueForecasts(Probabilities(fxProb)), Events(fx, obs);
      Reliability(fx, fxProb, obs) == 0.0 <==> forall v :: v in f ==> BinRate(f, o, v) == v
  {
    var f, o := UniqueForecasts(Probabilities(fxProb)), Events(fx, obs);
    var bins := Distinct(f);
    assert BinsOf(bins, f);
    DecompositionUnfolded(fx, fxProb, obs);
    ReliabilitySumZero(bins, |bins|, f, o);
    CalibratedUpToAll(bins, |bins|, f, o);
    QuotientZero(ReliabilitySum(bins, |bins|, f, o), |f| as real);
    if forall j :: 0 <= j < |bins| ==> BinRate(f, o, bins[j]) == bins[j] {
      forall v | v in f ensures BinRate(f, o, v) == v {
        var j :| 0 <= j < |bins| && bins[j] == v;
      }
    }
  }

  /**
    Resolution is 0 exactly when the forecast does not resolve anything:
    every binned probability sees the events at the overall base rate.
  */
  lemma ResolutionZeroIffNoSeparation(fx: seq<real>, fxProb: seq<real>, obs: seq<real>)
    requires |fx| == |fxProb| == |obs| >= 1
    ensures var f, o := UniqueForecasts(Probabilities(fxProb)), Events(fx, obs);
      Resolution(fx, fxProb, obs) == 0.0 <==> forall v :: v in f ==> BinRate(f, o, v) == Mean(o)
  {
    var f, o := UniqueForecasts(Probabilities(fxProb)), Events(fx, obs);
    var bins := Distinct(f);
    assert BinsOf(bins, f);
    DecompositionUnfolded(fx, fxProb, obs);
    ResolutionSumZero(bins, |bins|, f, o, Mean(o));
    BaseRateUpToAll(bins, |bins|, f, o, Mean(o));
    QuotientZero(ResolutionSum(bins, |bins|, f, o, Mean(o)), |f| as real);
    if forall j :: 0 <= j < |bins| ==> BinRate(f, o, bins[j]) == Mean(o) {
      forall v | v in f ensures BinRate(f, o, v) == Mean(o) {
        var j :| 0 <= j < |bins| && bins[j] == v;
      }
    }
  }
}
