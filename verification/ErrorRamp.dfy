// The sustained-rise rule for the error ratio: every one of the last W buckets
// above a threshold learned from the baseline, with enough errors per second.
module ErrorRamp {
  import opened Sorting
  import opened Baseline

  const MIN_SAMPLES := 12

  datatype Config = Config(on: bool, windowBuckets: int, ratioFactor: real, minRatioPct: real, minErrorsPerSec: real)

  function ClampI(v: int, lo: int, hi: int, def: int): int { if v < lo || v > hi then def else v }
  function ClampF(v: real, lo: real, hi: real, def: real): real { if v < lo || v > hi then def else v }

  // Out-of-range settings fall back to their defaults.
  function Normalize(c: Config): Config {
    Config(c.on,
           ClampI(c.windowBuckets, 2, 24, 6),
           ClampF(c.ratioFactor, 1.2, 50.0, 2.0),
           ClampF(c.minRatioPct, 0.01, 50.0, 0.2),
           ClampF(c.minErrorsPerSec, 0.05, 100000.0, 1.0))
  }

  function Ceil(x: real): int { -((-x).Floor) }

  // Nearest-rank percentile; 0 for no samples.
  function Percentile(xs: seq<real>, p: real): real {
    if xs == [] then 0.0
    else
      SortPermutes(xs, Below);
      var i := Ceil(p * |xs| as real) - 1;
      Sort(xs, Below)[if i < 0 then 0 else if i >= |xs| then |xs| - 1 else i]
  }

  function Larger(a: real, b: real): real { if a < b then b else a }

  function Threshold(median: real, p90: real, c: Config): real {
    Larger(Larger(c.ratioFactor * median, p90), c.minRatioPct)
  }

  datatype Blocker = BlockOff | BlockShort | BlockUnaligned | BlockBaseline | BlockRatio | BlockRate | NoBlocker

  function BucketBlocker(value: real, rate: real, threshold: real, c: Config): Blocker {
    if value < threshold then BlockRatio
    else if value / 100.0 * rate < c.minErrorsPerSec then BlockRate
    else NoBlocker
  }

  predicate Breaches(values: seq<real>, rates: seq<real>, i: int, threshold: real, c: Config)
    requires |values| == |rates| && 0 <= i < |values|
  {
    BucketBlocker(values[i], rates[i], threshold, c) == NoBlocker
  }

  datatype Result = Result(
    evaluated: bool, holds: bool, latest: bool, breaching: nat, window: int,
    threshold: real, median: real, p90: real, blocker: Blocker)

  function NotEvaluated(w: int, b: Blocker): Result {
    Result(false, false, false, 0, w, 0.0, 0.0, 0.0, b)
  }

  // The gate that keeps the rule from running at all.
  function Skipped(values: seq<real>, rates: seq<real>, baseline: seq<real>, c: Config): Blocker {
    if !c.on then BlockOff
    else if |values| != |rates| then BlockUnaligned
    else if |values| < c.windowBuckets then BlockShort
    else if |baseline| < MIN_SAMPLES then BlockBaseline
    else NoBlocker
  }

  function LearnedThreshold(baseline: seq<real>, c: Config): real {
    Threshold(MedianOf(baseline), Percentile(baseline, 0.9), c)
  }

  // Exactly the last k buckets breach, and the one before them does not.
  ghost predicate IsBreachingSuffix(values: seq<real>, rates: seq<real>, threshold: real, c: Config, k: nat)
    requires |values| == |rates|
  {
    && k <= |values|
    && (forall i :: |values| - k <= i < |values| ==> Breaches(values, rates, i, threshold, c))
    && (k < |values| ==> !Breaches(values, rates, |values| - k - 1, threshold, c))
  }

  // What the check reports, field by field.
  ghost predicate IsResult(values: seq<real>, rates: seq<real>, baseline: seq<real>, raw: Config, r: Result) {
    var c := Normalize(raw);
    && r.window == c.windowBuckets
    && r.evaluated == (Skipped(values, rates, baseline, c) == NoBlocker)
    && (!r.evaluated ==> r == NotEvaluated(c.windowBuckets, Skipped(values, rates, baseline, c)))
    && (r.evaluated ==>
          && r.median == MedianOf(baseline) && r.p90 == Percentile(baseline, 0.9)
          && r.threshold == LearnedThreshold(baseline, c)
          && IsBreachingSuffix(values, rates, r.threshold, c, r.breaching)
          && r.blocker == BucketBlocker(values[|values| - 1], rates[|values| - 1], r.threshold, c)
          && r.latest == (r.blocker == NoBlocker)
          && r.holds == (r.breaching >= c.windowBuckets))
  }

  method Check(values: seq<real>, rates: seq<real>, baseline: seq<real>, raw: Config) returns (r: Result)
    ensures IsResult(values, rates, baseline, raw, r)
  {
    hide MedianOf, Percentile;
    var c := Normalize(raw);
    var w := c.windowBuckets;
    if !c.on {
      return NotEvaluated(w, BlockOff);
    } else if |values| != |rates| {
      return NotEvaluated(w, BlockUnaligned);
    } else if |values| < w {
      return NotEvaluated(w, BlockShort);
    } else if |baseline| < MIN_SAMPLES {
      return NotEvaluated(w, BlockBaseline);
    }
    var median := MedianOf(baseline);
    var p90 := Percentile(baseline, 0.9);
    var threshold := Threshold(median, p90, c);
    var n := |values|;
    var blocker := BucketBlocker(values[n - 1], rates[n - 1], threshold, c);
    var breaching := 0;
    var i := n - 1;
    while i >= 0 && BucketBlocker(values[i], rates[i], threshold, c) == NoBlocker
      invariant -1 <= i < n && breaching == n - 1 - i
      invariant forall j :: i < j < n ==> Breaches(values, rates, j, threshold, c)
    {
      breaching := breaching + 1;
      i := i - 1;
    }
    r := Result(true, breaching >= w, blocker == NoBlocker, breaching, w, threshold, median, p90, blocker);
  }

  // There is one breaching suffix, and it is at least k long exactly when the
  // last k buckets breach.
  lemma SuffixIsLongest(values: seq<real>, rates: seq<real>, threshold: real, c: Config, b: nat, k: nat)
    requires |values| == |rates| && IsBreachingSuffix(values, rates, threshold, c, b) && k <= |values|
    ensures b >= k <==> forall i :: |values| - k <= i < |values| ==> Breaches(values, rates, i, threshold, c)
  {
    hide Breaches;
    assert b < k ==> |values| - k <= |values| - b - 1 < |values|;
  }

  // The rule holds exactly when the whole window breaches, and keeps an open
  // row open exactly when the newest bucket does.
  lemma HoldsMeansWholeWindow(values: seq<real>, rates: seq<real>, baseline: seq<real>, raw: Config, r: Result)
    requires IsResult(values, rates, baseline, raw, r)
    ensures r.holds <==>
      && r.evaluated
      && forall i :: |values| - r.window <= i < |values| ==> Breaches(values, rates, i, r.threshold, Normalize(raw))
    ensures r.latest <==>
      r.evaluated && Breaches(values, rates, |values| - 1, r.threshold, Normalize(raw))
    ensures r.holds ==> r.latest
  {
    hide MedianOf, Percentile, BucketBlocker, LearnedThreshold;
    if r.evaluated {
      SuffixIsLongest(values, rates, r.threshold, Normalize(raw), r.breaching, r.window);
    }
  }

  // A single bucket of the window below the ratio threshold keeps the rule from
  // holding, whatever the traffic was.
  lemma TrafficAloneCannotHold(values: seq<real>, rates: seq<real>, baseline: seq<real>, raw: Config, r: Result, i: nat)
    requires IsResult(values, rates, baseline, raw, r)
    requires |values| - r.window <= i < |values| && values[i] < r.threshold
    ensures !r.holds
  {
    HoldsMeansWholeWindow(values, rates, baseline, raw, r);
    hide MedianOf, Percentile, LearnedThreshold;
    if r.evaluated {
      assert !Breaches(values, rates, i, r.threshold, Normalize(raw));
    }
  }

  lemma CeilFacts(x: real)
    ensures Ceil(x) as real >= x && (Ceil(x) as real) < x + 1.0
  {}

  // A share p of the samples is at or below their p-percentile.
  lemma PercentileCovers(xs: seq<real>, p: real, low: real)
    requires 0.0 < p <= 1.0 && forall x :: x in xs ==> low <= x
    ensures CountIn(xs, low, Percentile(xs, p)) as real >= p * |xs| as real
  {
    if xs != [] {
      var i := PercentileRank(xs, p);
      hide Percentile, Sort, CountIn;
      CountUpToRank(xs, i, low);
    }
  }

  lemma PercentileRank(xs: seq<real>, p: real) returns (i: nat)
    requires 0.0 < p <= 1.0 && xs != []
    ensures i < |xs| && |Sort(xs, Below)| == |xs| && Percentile(xs, p) == Sort(xs, Below)[i]
    ensures i as real < p * |xs| as real <= (i + 1) as real
  {
    var v := p * |xs| as real;
    assert 0.0 < v <= |xs| as real;
    CeilFacts(v);
    i := Ceil(v) - 1;
    SortPermutes(xs, Below);
  }

  // And it is the least such value: less than that share is at or below any
  // value under it.
  lemma PercentileIsLeast(xs: seq<real>, p: real, low: real, v: real)
    requires 0.0 < p <= 1.0 && xs != [] && v < Percentile(xs, p)
    ensures (CountIn(xs, low, v) as real) < p * |xs| as real
  {
    var i := PercentileRank(xs, p);
    var s := Sort(xs, Below);
    SortFacts(xs);
    hide Percentile, Sort, CountIn;
    CountPermutes(xs, s, low, v);
    forall j | i <= j < |s| ensures !(low <= s[j] <= v) {
      assert j == i || !Below(s[j], s[i]);
    }
    CountSplit(s, i, low, v);
  }

  // At least 90% of the baseline lies at or below the threshold.
  lemma ThresholdAboveBaseline(baseline: seq<real>, c: Config, low: real)
    requires forall x :: x in baseline ==> low <= x
    ensures 10 * CountIn(baseline, low, LearnedThreshold(baseline, c)) >= 9 * |baseline|
  {
    PercentileCovers(baseline, 0.9, low);
    CountGrows(baseline, low, Percentile(baseline, 0.9), LearnedThreshold(baseline, c));
  }

  // ----- the settings and the threshold -----

  // Settings in range are kept, the others replaced by ones in range.
  lemma NormalizedIsValid(c: Config)
    ensures ValidConfig(Normalize(c)) && (ValidConfig(c) ==> Normalize(c) == c) && Normalize(c).on == c.on
  {}

  lemma DefaultConfig(on: bool)
    ensures Normalize(Config(on, 0, 0.0, 0.0, 0.0)) == Config(on, 6, 2.0, 0.2, 1.0)
  {}

  predicate ValidConfig(c: Config) {
    && 2 <= c.windowBuckets <= 24 && 1.2 <= c.ratioFactor <= 50.0
    && 0.01 <= c.minRatioPct <= 50.0 && 0.05 <= c.minErrorsPerSec <= 100000.0
  }

  // The learned threshold is the largest of the median times the factor, the
  // p90, and the minimal ratio.
  lemma ThresholdIsLargest(baseline: seq<real>, c: Config)
    ensures var t := LearnedThreshold(baseline, c);
            && t >= c.ratioFactor * MedianOf(baseline) && t >= Percentile(baseline, 0.9) && t >= c.minRatioPct
            && (t == c.ratioFactor * MedianOf(baseline) || t == Percentile(baseline, 0.9) || t == c.minRatioPct)
  {
    hide MedianOf, Percentile;
  }

  // A bucket breaches exactly when its ratio reaches the threshold and a
  // hundredth of ratio times requests per second is enough errors per second.
  lemma BreachesIff(values: seq<real>, rates: seq<real>, i: nat, threshold: real, c: Config)
    requires |values| == |rates| && i < |values|
    ensures Breaches(values, rates, i, threshold, c)
       <==> values[i] >= threshold && values[i] * rates[i] >= 100.0 * c.minErrorsPerSec
  {
    assert values[i] / 100.0 * rates[i] * 100.0 == values[i] * rates[i];
  }
}
