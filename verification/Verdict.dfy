// The verdict for one (service, metric): baseline choice, dwell window, volume
// gate, batch-load gate, sustained-rise rule and hysteresis put together.
module Verdict {
  import opened Baseline
  import opened Decision
  import ErrorRamp

  const MIN_SAMPLES := 12

  // Everything the verdict looks at besides the sensitivity knobs.
  datatype Input = Input(
    metric: Metric,
    buckets: seq<real>, seasonal: seq<real>, rates: seq<real>,
    seasonalMinSamples: int,
    hasOpen: bool,
    batch: bool, seasonalRates: seq<real>,
    dwell: nat,
    ramp: ErrorRamp.Config)

  // The length of the series without its trailing run of silent buckets.
  function LiveLength(rates: seq<real>, n: nat): nat
    requires n <= |rates|
  {
    if n > 0 && rates[n - 1] == 0.0 then LiveLength(rates, n - 1) else n
  }

  function TrimmedLength(values: seq<real>, rates: seq<real>): (n: nat)
    ensures n <= |values|
  {
    LiveLengthBounded(rates, if |rates| < |values| then |rates| else |values|);
    LiveLength(rates, if |rates| < |values| then |rates| else |values|)
  }

  lemma {:induction false} LiveLengthBounded(rates: seq<real>, n: nat)
    requires n <= |rates|
    ensures LiveLength(rates, n) <= n
  {
    if n > 0 && rates[n - 1] == 0.0 {
      LiveLengthBounded(rates, n - 1);
    }
  }

  method TrimTrailingSilent(values: seq<real>, rates: seq<real>) returns (kept: seq<real>)
    ensures kept == values[..TrimmedLength(values, rates)]
    ensures |kept| <= |rates| && (kept != [] ==> rates[|kept| - 1] != 0.0)
    ensures forall i :: |kept| <= i < |values| && i < |rates| ==> rates[i] == 0.0
  {
    var n := |values|;
    if |rates| < n {
      n := |rates|;
    }
    ghost var n0 := n;
    while n > 0 && rates[n - 1] == 0.0
      invariant 0 <= n <= n0 && LiveLength(rates, n) == LiveLength(rates, n0)
      invariant forall i :: n <= i < n0 ==> rates[i] == 0.0
    {
      n := n - 1;
    }
    kept := values[..n];
  }

  predicate EnoughHistory(n: nat, dwell: nat) { n >= MIN_SAMPLES + dwell }

  predicate UsesSeasonal(seasonal: seq<real>, minSamples: int) { |seasonal| >= minSamples }

  // An unknown volume never mutes the detector.
  predicate HasEnoughVolume(rates: seq<real>, min: real) {
    min <= 0.0 || rates == [] || rates[|rates| - 1] >= min
  }

  predicate RatesUnderLoad(window: seq<real>, base: seq<real>) {
    && window != [] && base != []
    && forall i :: 0 <= i < |window| ==> BatchLoadSurge(window[i], MedianOf(base))
  }

  predicate UnderLoad(x: Input, split: nat, consecutive: nat) {
    && 0 < split < |x.rates|
    && (if UsesSeasonal(x.seasonal, x.seasonalMinSamples)
        then |x.seasonalRates| == |x.seasonal| && RatesUnderLoad(x.rates[split..], x.seasonalRates)
        else 0 < consecutive <= split && RatesUnderLoad(x.rates[split..], x.rates[..consecutive]))
  }

  // A latency rise of a batch service under surging load opens nothing new.
  predicate MutedByBatchLoad(x: Input, split: nat, consecutive: nat) {
    && !x.hasOpen && x.batch && x.metric == P99Ms && |x.rates| == |x.buckets|
    && UnderLoad(x, split, consecutive)
  }

  // The part of the verdict before any knob is looked at.
  predicate Evaluable(x: Input) {
    EnoughHistory(|x.buckets|, x.dwell) && Consecutive(x) >= MIN_SAMPLES
  }

  function Split(x: Input): nat
    requires EnoughHistory(|x.buckets|, x.dwell)
  {
    |x.buckets| - x.dwell
  }

  function Consecutive(x: Input): (n: nat)
    requires EnoughHistory(|x.buckets|, x.dwell)
    ensures n <= Split(x)
  {
    TrimmedLength(x.buckets[..Split(x)], x.rates)
  }

  function ChosenBaseline(x: Input): seq<real>
    requires Evaluable(x)
  {
    if UsesSeasonal(x.seasonal, x.seasonalMinSamples) then x.seasonal else x.buckets[..Consecutive(x)]
  }

  function WorkingMAD(x: Input, k: Knobs): (mad: real)
    requires Evaluable(x)
    ensures mad > 0.0
  {
    var (median, rawMAD) := MedianMAD(ChosenBaseline(x));
    EffectiveMAD(x.metric, median, rawMAD, k.minMAD)
  }

  function WorkingMedian(x: Input): real
    requires Evaluable(x)
  {
    MedianMAD(ChosenBaseline(x)).0
  }

  // The sudden-deviation arm wants to open.
  predicate OpensByScore(x: Input, k: Knobs)
    requires Evaluable(x)
  {
    && AllOpen(x.metric, WorkingMedian(x), WorkingMAD(x, k), x.buckets[Split(x)..], DirectionFor(x.metric), k)
    && HasEnoughVolume(x.rates, k.minBaselineRate)
    && !MutedByBatchLoad(x, Split(x), Consecutive(x))
  }

  // The baseline of the sustained-rise rule ends before its own window.
  function RampBaseline(x: Input): seq<real> {
    var w := ErrorRamp.Normalize(x.ramp).windowBuckets;
    if |x.buckets| < w then []
    else
      var split := |x.buckets| - w;
      var r := if |x.rates| > split then x.rates[..split] else x.rates;
      if UsesSeasonal(x.seasonal, x.seasonalMinSamples) then x.seasonal
      else x.buckets[..split][..TrimmedLength(x.buckets[..split], r)]
  }

  predicate RampRuns(x: Input) {
    x.metric == ErrorRate
    && ErrorRamp.Skipped(x.buckets, x.rates, RampBaseline(x), ErrorRamp.Normalize(x.ramp)) == ErrorRamp.NoBlocker
  }

  predicate RampBreachesFrom(x: Input, from: int)
    requires RampRuns(x) && 0 <= from
  {
    var c := ErrorRamp.Normalize(x.ramp);
    forall i :: from <= i < |x.buckets| ==>
      ErrorRamp.Breaches(x.buckets, x.rates, i, ErrorRamp.LearnedThreshold(RampBaseline(x), c), c)
  }

  // Every bucket of its window breaches / the newest one does.
  predicate RampHolds(x: Input) {
    RampRuns(x) && RampBreachesFrom(x, |x.buckets| - ErrorRamp.Normalize(x.ramp).windowBuckets)
  }

  predicate RampLatest(x: Input) {
    RampRuns(x) && |x.buckets| > 0 && RampBreachesFrom(x, |x.buckets| - 1)
  }

  predicate WantsOpen(x: Input, k: Knobs)
    requires Evaluable(x)
  {
    OpensByScore(x, k) || (RampHolds(x) && HasEnoughVolume(x.rates, k.minBaselineRate))
  }

  predicate BackInBand(x: Input, k: Knobs)
    requires Evaluable(x)
  {
    ResolvedFor(x.metric, Score(x.buckets[|x.buckets| - 1], WorkingMedian(x), WorkingMAD(x, k)))
  }

  datatype Outcome = Skip | None | Open | Resolve

  function Decide(x: Input, k: Knobs): Outcome {
    if !Evaluable(x) then Skip
    else if WantsOpen(x, k) then Open
    else if x.hasOpen && BackInBand(x, k) && !RampLatest(x) then Resolve
    else None
  }

  method BatchRatesUnderLoad(window: seq<real>, base: seq<real>) returns (r: bool)
    ensures r == RatesUnderLoad(window, base)
  {
    if |window| == 0 || |base| == 0 {
      return false;
    }
    hide MedianOf;
    var median := MedianOf(base);
    for i := 0 to |window|
      invariant forall j :: 0 <= j < i ==> BatchLoadSurge(window[j], median)
    {
      if !BatchLoadSurge(window[i], median) {
        return false;
      }
    }
    r := true;
  }

  method EvaluateAnomaly(x: Input, k: Knobs) returns (out: Outcome)
    ensures out == Decide(x, k)
  {
    hide MedianMAD, AllOpen, RatesUnderLoad, DecideAnomaly, ErrorRamp.LearnedThreshold;
    if !EnoughHistory(|x.buckets|, x.dwell) {
      return Skip;
    }
    var split := |x.buckets| - x.dwell;
    var window := x.buckets[split..];
    var current := x.buckets[|x.buckets| - 1];
    var consecutive := TrimTrailingSilent(x.buckets[..split], x.rates);
    if |consecutive| < MIN_SAMPLES {
      return Skip;
    }
    assert consecutive == x.buckets[..Consecutive(x)];
    var seasonalUsed := |x.seasonal| >= x.seasonalMinSamples;
    var baseline := if seasonalUsed then x.seasonal else consecutive;
    var (median, rawMAD) := MedianMAD(baseline);
    var mad := EffectiveMAD(x.metric, median, rawMAD, k.minMAD);
    var z := Score(current, median, mad);
    var allOpen, _, _ := EvalWindow(x.metric, median, mad, window, DirectionFor(x.metric), k);
    if allOpen && !HasEnoughVolume(x.rates, k.minBaselineRate) {
      allOpen := false;
    }
    if allOpen && !x.hasOpen && x.batch && x.metric == P99Ms && |x.rates| == |x.buckets| {
      var muted := BatchUnderLoad(x, split, |consecutive|);
      if muted {
        allOpen := false;
      }
    }
    assert allOpen == OpensByScore(x, k);
    var holds, latest := RampVerdict(x);
    if !allOpen && holds && HasEnoughVolume(x.rates, k.minBaselineRate) {
      allOpen := true;
    }
    var action := AnomalyAction(x.hasOpen, allOpen, x.metric, z);
    out := match action
      case ActOpen => Open
      case ActResolve => if latest then None else Resolve
      case ActNone => None;
  }

  method BatchUnderLoad(x: Input, split: nat, consecutive: nat) returns (r: bool)
    ensures r == UnderLoad(x, split, consecutive)
  {
    if split <= 0 || split >= |x.rates| {
      return false;
    }
    var base;
    if |x.seasonal| >= x.seasonalMinSamples {
      if |x.seasonalRates| != |x.seasonal| {
        return false;
      }
      base := x.seasonalRates;
    } else {
      if consecutive <= 0 || consecutive > split {
        return false;
      }
      base := x.rates[..consecutive];
    }
    r := BatchRatesUnderLoad(x.rates[split..], base);
  }

  // The sustained-rise rule applied to the error ratio only.
  method RampVerdict(x: Input) returns (holds: bool, latest: bool)
    ensures holds == RampHolds(x) && latest == RampLatest(x)
  {
    if x.metric != ErrorRate {
      return false, false;
    }
    hide ErrorRamp.LearnedThreshold, MedianOf, ErrorRamp.Percentile, ErrorRamp.Breaches, ErrorRamp.BucketBlocker;
    var baseline := BaselineForRamp(x);
    var res := ErrorRamp.Check(x.buckets, x.rates, baseline, x.ramp);
    ErrorRamp.HoldsMeansWholeWindow(x.buckets, x.rates, baseline, x.ramp, res);
    holds, latest := res.holds, res.latest;
  }

  method BaselineForRamp(x: Input) returns (baseline: seq<real>)
    ensures baseline == RampBaseline(x)
  {
    var w := ErrorRamp.Normalize(x.ramp).windowBuckets;
    if |x.buckets| < w {
      return [];
    }
    var split := |x.buckets| - w;
    var r := if |x.rates| > split then x.rates[..split] else x.rates;
    var trimmed := TrimTrailingSilent(x.buckets[..split], r);
    baseline := if |x.seasonal| >= x.seasonalMinSamples then x.seasonal else trimmed;
  }

  // What the tick relies on: only an open row is ever resolved.
  lemma ResolvesOnlyOpenRows(x: Input, k: Knobs)
    requires Decide(x, k) == Resolve
    ensures x.hasOpen && !WantsOpen(x, k)
  {}

  // The batch-load gate cuts openings only: with an open row it changes nothing.
  lemma BatchGateLeavesOpenRowsAlone(x: Input, k: Knobs, batch: bool, seasonalRates: seq<real>)
    requires x.hasOpen
    ensures Decide(x, k) == Decide(x.(batch := batch, seasonalRates := seasonalRates), k)
  {
    hide MedianMAD, AllOpen, TrimmedLength, EffectiveMAD, ResolvedFor, HasEnoughVolume, UnderLoad;
    hide ErrorRamp.LearnedThreshold, ErrorRamp.Breaches, ErrorRamp.Skipped, ErrorRamp.Normalize;
    var y := x.(batch := batch, seasonalRates := seasonalRates);
    assert RampBaseline(x) == RampBaseline(y);
    assert RampHolds(x) == RampHolds(y) && RampLatest(x) == RampLatest(y);
  }

  // Raising any sensitivity knob never turns a verdict into "open".
  lemma KnobsNeverOpen(x: Input, k: Knobs, k': Knobs)
    requires AtLeastAsStrict(k, k') && Decide(x, k') == Open
    ensures Decide(x, k) == Open
  {
    if OpensByScore(x, k') {
      var (median, rawMAD) := MedianMAD(ChosenBaseline(x));
      KnobsAreAntitone(x.metric, median, rawMAD, x.buckets[Split(x)..], DirectionFor(x.metric), k, k');
    }
  }
}
