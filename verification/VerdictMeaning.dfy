// When a verdict opens and when it resolves, in terms of the samples, and what
// that means for a series watched over many ticks.
module VerdictMeaning {
  import opened Baseline
  import opened Decision
  import opened Verdict

  // ----- one sample -----

  function Scale(median: real): real { if Abs(median) < 0.000000001 then 0.000000001 else Abs(median) }

  // Far above the baseline, in deviations, relatively and absolutely.
  predicate FarAbove(v: real, median: real, mad: real, k: Knobs) {
    && 0.6745 * (v - median) >= 3.5 * mad && 0.6745 * (v - median) >= k.criticalZ * mad
    && v - median >= k.floorPct * Scale(median)
    && (k.minAbsDelta > 0.0 ==> v - median >= k.minAbsDelta)
    && (k.absFloor > 0.0 ==> v >= k.absFloor)
  }

  // Far below it; a loss of traffic need not be critical.
  predicate FarBelow(m: Metric, v: real, median: real, mad: real, k: Knobs) {
    && 0.6745 * (median - v) >= 3.5 * mad
    && (m == RequestRate || 0.6745 * (median - v) >= k.criticalZ * mad)
    && median - v >= k.floorPct * Scale(median)
    && (k.minAbsDelta > 0.0 ==> median - v >= k.minAbsDelta)
  }

  // The metrics of which a fall is an incident, too.
  predicate TwoSided(m: Metric) { m == RequestRate || m.Other? }

  predicate InBand(m: Metric, v: real, median: real, mad: real) {
    && 0.6745 * (v - median) <= 1.5 * mad
    && (TwoSided(m) ==> 0.6745 * (median - v) <= 1.5 * mad)
  }

  lemma RelativeIff(v: real, median: real, floor: real)
    ensures RelativeChange(v, median) >= floor <==> Abs(v - median) >= floor * Scale(median)
  {
    var d := Scale(median);
    assert d == Max(Abs(median), MAGNITUDE_EPS) && d > 0.0;
    assert RelativeChange(v, median) * d == Abs(v - median);
    ProductOrder(floor, RelativeChange(v, median), d);
  }

  // A sample opens upwards exactly when it is far above, and downwards exactly
  // when it is far below and the metric has two sides.
  lemma SampleOpensIff(m: Metric, median: real, mad: real, v: real, k: Knobs)
    requires mad > 0.0
    ensures SampleVerdict(m, median, mad, v, DirectionFor(m), k) == Opens(Spiked) <==> FarAbove(v, median, mad, k)
    ensures SampleVerdict(m, median, mad, v, DirectionFor(m), k) == Opens(Dropped)
       <==> TwoSided(m) && FarBelow(m, v, median, mad, k)
  {
    var z := Score(v, median, mad);
    ScoreIff(v, median, mad, 3.5);
    ScoreIff(v, median, mad, -3.5);
    ScoreIff(v, median, mad, k.criticalZ);
    ScoreIff(v, median, mad, -k.criticalZ);
    ScoreSign(v, median, mad);
    RelativeIff(v, median, k.floorPct);
    assert (-3.5) * mad == -(3.5 * mad) && (-k.criticalZ) * mad == -(k.criticalZ * mad);
    hide Score, RelativeChange, Scale;
  }

  lemma BandIff(m: Metric, median: real, mad: real, v: real)
    requires mad > 0.0
    ensures ResolvedFor(m, Score(v, median, mad)) <==> InBand(m, v, median, mad)
  {
    ScoreIff(v, median, mad, 1.5);
    ScoreIff(v, median, mad, -1.5);
    assert (-1.5) * mad == -(1.5 * mad);
    hide Score;
  }

  // ----- the baseline -----

  // Bucket i is the last one before the dwell window that carried traffic.
  ghost predicate LastLive(x: Input, i: int) {
    && 0 <= i < |x.buckets| - x.dwell && i < |x.rates| && x.rates[i] != 0.0
    && forall j :: i < j < |x.buckets| - x.dwell && j < |x.rates| ==> x.rates[j] == 0.0
  }

  lemma {:induction false} LiveLengthIs(rates: seq<real>, n: nat)
    requires n <= |rates|
    ensures LiveLength(rates, n) <= n && (LiveLength(rates, n) > 0 ==> rates[LiveLength(rates, n) - 1] != 0.0)
    ensures forall i :: LiveLength(rates, n) <= i < n ==> rates[i] == 0.0
  {
    if n > 0 && rates[n - 1] == 0.0 {
      LiveLengthIs(rates, n - 1);
    }
  }

  // A verdict needs a dozen buckets before its dwell window, up to the last one
  // with traffic; without a seasonal baseline those are the baseline.
  lemma BaselineIff(x: Input)
    ensures Evaluable(x) <==> exists i :: i >= 11 && LastLive(x, i)
    ensures Evaluable(x) && |x.seasonal| >= x.seasonalMinSamples ==> ChosenBaseline(x) == x.seasonal
    ensures Evaluable(x) && |x.seasonal| < x.seasonalMinSamples ==>
              forall i :: LastLive(x, i) ==> ChosenBaseline(x) == x.buckets[..i + 1]
  {
    var before := |x.buckets| - x.dwell;
    if before >= 12 {
      LiveLengthIs(x.rates, if |x.rates| < before then |x.rates| else before);
      var n := Consecutive(x);
      assert n > 0 ==> LastLive(x, n - 1);
      assert forall i :: LastLive(x, i) ==> i == n - 1;
    }
  }

  // ----- the sustained rise of the error ratio -----

  // The rule has all it needs, and bucket i is above its threshold with enough
  // errors per second.
  ghost predicate Rising(x: Input, i: int) {
    var c, baseline := ErrorRamp.Normalize(x.ramp), RampBaseline(x);
    && x.metric == ErrorRate && c.on && |x.rates| == |x.buckets| && |x.buckets| >= c.windowBuckets
    && |baseline| >= 12 && 0 <= i < |x.buckets|
    && x.buckets[i] >= ErrorRamp.LearnedThreshold(baseline, c)
    && x.buckets[i] * x.rates[i] >= 100.0 * c.minErrorsPerSec
  }

  ghost predicate SustainedRise(x: Input) {
    forall i :: |x.buckets| - ErrorRamp.Normalize(x.ramp).windowBuckets <= i < |x.buckets| ==> Rising(x, i)
  }

  lemma RisingIff(x: Input, i: nat)
    requires i < |x.buckets|
    ensures Rising(x, i) <==> RampRuns(x) && RampBreachesAt(x, i)
  {
    var c := ErrorRamp.Normalize(x.ramp);
    hide ErrorRamp.LearnedThreshold, RampBaseline, ErrorRamp.Normalize;
    if |x.rates| == |x.buckets| {
      ErrorsPerSecond(x.buckets[i], x.rates[i], c.minErrorsPerSec);
    }
  }

  // Bucket i is the last one before the window of the rule that carried traffic.
  ghost predicate LastLiveBeforeRise(x: Input, i: int) {
    var split := |x.buckets| - ErrorRamp.Normalize(x.ramp).windowBuckets;
    && 0 <= i < split && i < |x.rates| && x.rates[i] != 0.0
    && forall j :: i < j < split && j < |x.rates| ==> x.rates[j] == 0.0
  }

  // The rule never learns from the window it judges.
  lemma RampBaselineIff(x: Input)
    requires |x.buckets| >= ErrorRamp.Normalize(x.ramp).windowBuckets
    ensures |x.seasonal| >= x.seasonalMinSamples ==> RampBaseline(x) == x.seasonal
    ensures |x.seasonal| < x.seasonalMinSamples ==>
              && (forall i :: LastLiveBeforeRise(x, i) ==> RampBaseline(x) == x.buckets[..i + 1])
              && ((forall i :: !LastLiveBeforeRise(x, i)) ==> RampBaseline(x) == [])
  {
    WindowSize(x.ramp);
    var split := |x.buckets| - ErrorRamp.Normalize(x.ramp).windowBuckets;
    hide ErrorRamp.Normalize;
    var r := if |x.rates| > split then x.rates[..split] else x.rates;
    assert |r| <= split && forall j :: 0 <= j < |r| ==> r[j] == x.rates[j];
    LiveLengthIs(r, |r|);
    var n := LiveLength(r, |r|);
    assert n > 0 ==> LastLiveBeforeRise(x, n - 1);
    assert forall i :: LastLiveBeforeRise(x, i) ==> i == n - 1;
    assert TrimmedLength(x.buckets[..split], r) == n;
    assert |x.seasonal| < x.seasonalMinSamples ==> RampBaseline(x) == x.buckets[..split][..n];
    assert n <= split ==> x.buckets[..split][..n] == x.buckets[..n];
  }

  predicate RampBreachesAt(x: Input, i: nat)
    requires i < |x.buckets| && RampRuns(x)
  {
    var c := ErrorRamp.Normalize(x.ramp);
    ErrorRamp.Breaches(x.buckets, x.rates, i, ErrorRamp.LearnedThreshold(RampBaseline(x), c), c)
  }

  lemma ErrorsPerSecond(value: real, rate: real, min: real)
    ensures value / 100.0 * rate >= min <==> value * rate >= 100.0 * min
  {
    assert value / 100.0 * rate * 100.0 == value * rate;
  }

  lemma WindowSize(c: ErrorRamp.Config)
    ensures 2 <= ErrorRamp.Normalize(c).windowBuckets <= 24
  {}

  lemma RampIff(x: Input)
    requires x.buckets != []
    ensures RampHolds(x) <==> SustainedRise(x)
    ensures RampLatest(x) <==> Rising(x, |x.buckets| - 1)
  {
    forall i: nat | i < |x.buckets| ensures Rising(x, i) <==> RampRuns(x) && RampBreachesAt(x, i) {
      RisingIff(x, i);
    }
    HoldsIff(x);
    LatestIff(x);
  }

  lemma LatestIff(x: Input)
    requires x.buckets != []
    requires forall i: nat :: i < |x.buckets| ==> (Rising(x, i) <==> RampRuns(x) && RampBreachesAt(x, i))
    ensures RampLatest(x) <==> Rising(x, |x.buckets| - 1)
  {
    var last := |x.buckets| - 1;
    hide ErrorRamp.LearnedThreshold, RampBaseline, ErrorRamp.Normalize, Rising, RampRuns, ErrorRamp.Breaches;
    assert Rising(x, last) <==> RampRuns(x) && RampBreachesAt(x, last);
  }

  lemma HoldsIff(x: Input)
    requires x.buckets != []
    requires forall i: nat :: i < |x.buckets| ==> (Rising(x, i) <==> RampRuns(x) && RampBreachesAt(x, i))
    ensures RampHolds(x) <==> SustainedRise(x)
  {
    var w := ErrorRamp.Normalize(x.ramp).windowBuckets;
    var from := |x.buckets| - w;
    WindowSize(x.ramp);
    LongEnough(x);
    hide ErrorRamp.LearnedThreshold, RampBaseline, ErrorRamp.Normalize, Rising, RampRuns, ErrorRamp.Breaches;
    if RampHolds(x) {
      forall i | from <= i < |x.buckets| ensures Rising(x, i) {
        assert RampBreachesAt(x, i);
      }
    }
    if SustainedRise(x) {
      var c := ErrorRamp.Normalize(x.ramp);
      assert Rising(x, |x.buckets| - 1) && Rising(x, from);
      forall i | from <= i < |x.buckets|
        ensures ErrorRamp.Breaches(x.buckets, x.rates, i, ErrorRamp.LearnedThreshold(RampBaseline(x), c), c)
      {
        assert Rising(x, i);
        assert RampBreachesAt(x, i);
      }
    }
  }

  lemma LongEnough(x: Input)
    ensures RampRuns(x) ==> |x.rates| == |x.buckets| >= ErrorRamp.Normalize(x.ramp).windowBuckets
    ensures forall i :: Rising(x, i) ==> |x.buckets| >= ErrorRamp.Normalize(x.ramp).windowBuckets
  {}

  // ----- the verdict -----

  ghost predicate Volume(x: Input, k: Knobs) {
    k.minBaselineRate <= 0.0 || x.rates == [] || x.rates[|x.rates| - 1] >= k.minBaselineRate
  }

  // All samples are far above, or all far below.
  ghost predicate AllFarOut(m: Metric, window: seq<real>, median: real, mad: real, k: Knobs) {
    || (forall i :: 0 <= i < |window| ==> FarAbove(window[i], median, mad, k))
    || (TwoSided(m) && forall i :: 0 <= i < |window| ==> FarBelow(m, window[i], median, mad, k))
  }

  ghost predicate WindowFarOut(x: Input, k: Knobs)
    requires Evaluable(x)
  {
    && x.dwell > 0
    && AllFarOut(x.metric, x.buckets[|x.buckets| - x.dwell..], WorkingMedian(x), WorkingMAD(x, k), k)
  }

  lemma AllOpenIff(m: Metric, median: real, mad: real, window: seq<real>, k: Knobs)
    requires mad > 0.0
    ensures AllOpen(m, median, mad, window, DirectionFor(m), k)
       <==> window != [] && AllFarOut(m, window, median, mad, k)
  {
    forall i | 0 <= i < |window|
      ensures SampleVerdict(m, median, mad, window[i], DirectionFor(m), k) == Opens(Spiked)
         <==> FarAbove(window[i], median, mad, k)
      ensures SampleVerdict(m, median, mad, window[i], DirectionFor(m), k) == Opens(Dropped)
         <==> TwoSided(m) && FarBelow(m, window[i], median, mad, k)
    {
      SampleOpensIff(m, median, mad, window[i], k);
    }
    hide SampleVerdict, FarAbove, FarBelow, DirectionFor, TwoSided;
    if window != [] {
      var first := SampleVerdict(m, median, mad, window[0], DirectionFor(m), k);
      assert first == Quiet || first == Opens(Spiked) || first == Opens(Dropped);
    }
  }

  // A verdict opens exactly when the whole dwell window is far out, and no batch
  // load mutes it, or the error ratio has risen for its whole window; in both
  // cases with enough volume.
  lemma OpensIff(x: Input, k: Knobs)
    ensures Decide(x, k) == Open
       <==> && Evaluable(x) && Volume(x, k)
            && ((WindowFarOut(x, k) && !MutedByBatchLoad(x, Split(x), Consecutive(x))) || SustainedRise(x))
  {
    if Evaluable(x) {
      AllOpenIff(x.metric, WorkingMedian(x), WorkingMAD(x, k), x.buckets[Split(x)..], k);
      RampIff(x);
      assert HasEnoughVolume(x.rates, k.minBaselineRate) == Volume(x, k);
      hide AllOpen, WorkingMedian, WorkingMAD, MutedByBatchLoad, RampHolds, SustainedRise, BackInBand, RampLatest;
      hide AllFarOut;
    }
  }

  // A verdict resolves exactly when there is an open row, the newest bucket is
  // back in the band of its metric, and the error ratio is not still rising.
  lemma ResolvesIff(x: Input, k: Knobs)
    ensures Decide(x, k) == Resolve
       <==> && Evaluable(x) && x.hasOpen
            && InBand(x.metric, x.buckets[|x.buckets| - 1], WorkingMedian(x), WorkingMAD(x, k))
            && !Rising(x, |x.buckets| - 1)
  {
    if Evaluable(x) {
      var last := x.buckets[|x.buckets| - 1];
      BandIff(x.metric, WorkingMedian(x), WorkingMAD(x, k), last);
      RampIff(x);
      BandExcludesOpening(x, k);
      HoldsIsLatest(x);
      hide OpensByScore, WorkingMedian, WorkingMAD, RampHolds, SustainedRise, RampLatest, InBand, Rising;
    }
  }

  lemma HoldsIsLatest(x: Input)
    requires x.buckets != []
    ensures RampHolds(x) ==> RampLatest(x)
  {
    WindowSize(x.ramp);
    LongEnough(x);
    hide ErrorRamp.LearnedThreshold, RampBaseline, ErrorRamp.Normalize, RampRuns, ErrorRamp.Breaches;
  }

  // The newest bucket cannot be in the band while the whole window is out.
  lemma BandExcludesOpening(x: Input, k: Knobs)
    requires Evaluable(x)
    ensures !(OpensByScore(x, k) && BackInBand(x, k))
  {
    var window := x.buckets[Split(x)..];
    if OpensByScore(x, k) && BackInBand(x, k) {
      var i := |window| - 1;
      assert window[i] == x.buckets[|x.buckets| - 1];
      OpenExcludesResolved(x.metric, WorkingMedian(x), WorkingMAD(x, k), window[i], k);
      assert false;
    }
  }

  // So an open row of any other metric is resolved as soon as its newest bucket
  // is the median of its baseline, and one of the error ratio never while the
  // newest bucket is above the learned threshold.
  lemma BackAtMedian(x: Input, k: Knobs)
    requires Evaluable(x) && x.hasOpen && x.metric != ErrorRate
    requires x.buckets[|x.buckets| - 1] == MedianOf(ChosenBaseline(x))
    ensures Decide(x, k) == Resolve
  {
    ResolvesIff(x, k);
    assert WorkingMedian(x) == MedianOf(ChosenBaseline(x));
    hide WorkingMAD, Decide, MedianOf, ChosenBaseline, Evaluable;
  }

  lemma StillRising(x: Input, k: Knobs)
    requires x.buckets != [] && Rising(x, |x.buckets| - 1)
    ensures Decide(x, k) != Resolve
  {
    ResolvesIff(x, k);
  }

  // ----- a series watched over many ticks -----

  // What every tick reads, whatever the settings are at the time; the inputs say
  // nothing about the row, which follows from the verdicts before.
  datatype Watch = Watch(inputs: seq<Input>, knobs: seq<Knobs>) {
    ghost predicate Valid() { |inputs| == |knobs| }

    // Whether a row is open before tick i.
    ghost predicate HasRow(i: nat)
      requires Valid() && i <= |inputs|
      decreases i, 0
    {
      i > 0 && (VerdictAt(i - 1) == Open || (VerdictAt(i - 1) != Resolve && HasRow(i - 1)))
    }

    ghost function VerdictAt(i: nat): Outcome
      requires Valid() && i < |inputs|
      decreases i, 1
    {
      Decide(inputs[i].(hasOpen := HasRow(i)), knobs[i])
    }

    // Rows opened and rows resolved before tick i.
    ghost function Opened(i: nat): nat
      requires Valid() && i <= |inputs|
    {
      if i == 0 then 0 else Opened(i - 1) + if VerdictAt(i - 1) == Open && !HasRow(i - 1) then 1 else 0
    }

    ghost function Resolved(i: nat): nat
      requires Valid() && i <= |inputs|
    {
      if i == 0 then 0 else Resolved(i - 1) + if VerdictAt(i - 1) == Resolve then 1 else 0
    }
  }

  // Over any run of verdicts, with any reads and settings, opens minus resolves
  // is 1 while a row is open and 0 otherwise.
  lemma {:induction false} VerdictsBalance(w: Watch, i: nat)
    requires w.Valid() && i <= |w.inputs|
    ensures w.Opened(i) == w.Resolved(i) + if w.HasRow(i) then 1 else 0
  {
    hide Decide;
    if i > 0 {
      VerdictsBalance(w, i - 1);
      var x := w.inputs[i - 1].(hasOpen := w.HasRow(i - 1));
      if w.VerdictAt(i - 1) == Resolve {
        ResolvesOnlyOpenRows(x, w.knobs[i - 1]);
      }
    }
  }

  // x reads buckets [from, to) of a series.
  ghost predicate Reads(x: Input, values: seq<real>, rates: seq<real>, from: nat, to: nat) {
    && from <= to <= |values| == |rates|
    && x.buckets == values[from..to] && x.rates == rates[from..to]
  }

  // Two reads of one series with the same settings of the series and the same
  // baselines.
  ghost predicate SameBaselines(x: Input, y: Input, k: Knobs, k': Knobs) {
    && x.metric == y.metric && x.dwell == y.dwell && x.ramp == y.ramp
    && (Evaluable(x) && Evaluable(y) ==>
          WorkingMedian(x) == WorkingMedian(y) && WorkingMAD(x, k) == WorkingMAD(y, k'))
    && RampBaseline(x) == RampBaseline(y)
  }

  // A bucket back in the band is not part of a window that opens later.
  lemma BandBeforeWindow(
    x: Input, y: Input, k: Knobs, k': Knobs, values: seq<real>, rates: seq<real>, f: nat, to: nat, f': nat, to': nat)
    requires Reads(x, values, rates, f, to) && Reads(y, values, rates, f', to') && to <= to'
    requires SameBaselines(x, y, k, k') && Decide(x, k) == Resolve
    requires Evaluable(y) && WindowFarOut(y, k')
    ensures to' >= to + x.dwell
  {
    ResolvesIff(x, k);
    LongHistory(x);
    LongHistory(y);
    hide *;
    if to' < to + x.dwell {
      SharedBucket(x, y, values, rates, f, to, f', to');
      SameNumbers(x, y, k, k');
      WindowMember(y, k', to - 1 - f');
      OutOfBand(x.metric, x.buckets[|x.buckets| - 1], WorkingMedian(x), WorkingMAD(x, k), k');
    }
  }

  lemma SharedBucket(
    x: Input, y: Input, values: seq<real>, rates: seq<real>, f: nat, to: nat, f': nat, to': nat)
    requires Reads(x, values, rates, f, to) && Reads(y, values, rates, f', to') && to <= to'
    ensures |y.buckets| == |y.rates| == to' - f' && |x.buckets| == |x.rates|
    ensures f < to && f' < to ==>
              var i := to - 1 - f';
              0 <= i < |y.buckets| && y.buckets[i] == x.buckets[|x.buckets| - 1] && y.rates[i] == x.rates[|x.rates| - 1]
  {}

  lemma SameNumbers(x: Input, y: Input, k: Knobs, k': Knobs)
    requires SameBaselines(x, y, k, k')
    ensures x.metric == y.metric && x.dwell == y.dwell && x.ramp == y.ramp && RampBaseline(x) == RampBaseline(y)
    ensures Evaluable(x) && Evaluable(y) ==>
              WorkingMedian(x) == WorkingMedian(y) && WorkingMAD(x, k) == WorkingMAD(y, k')
  {
    hide Evaluable, WorkingMedian, WorkingMAD, RampBaseline;
  }

  lemma WindowMember(y: Input, k: Knobs, i: int)
    requires Evaluable(y) && WindowFarOut(y, k) && |y.buckets| - y.dwell <= i < |y.buckets|
    ensures 0 <= i
    ensures FarAbove(y.buckets[i], WorkingMedian(y), WorkingMAD(y, k), k)
         || (TwoSided(y.metric) && FarBelow(y.metric, y.buckets[i], WorkingMedian(y), WorkingMAD(y, k), k))
  {
    LongHistory(y);
    hide WorkingMedian, WorkingMAD, AllFarOut, FarAbove, FarBelow, Evaluable;
    var j := i - (|y.buckets| - y.dwell);
    Tail(y.buckets, |y.buckets| - y.dwell, j);
    MemberFarOut(y.metric, y.buckets[|y.buckets| - y.dwell..], WorkingMedian(y), WorkingMAD(y, k), k, j);
  }

  lemma Tail(xs: seq<real>, from: nat, j: nat)
    requires from + j < |xs|
    ensures j < |xs[from..]| && xs[from..][j] == xs[from + j]
  {}

  lemma MemberFarOut(m: Metric, window: seq<real>, median: real, mad: real, k: Knobs, j: nat)
    requires AllFarOut(m, window, median, mad, k) && j < |window|
    ensures FarAbove(window[j], median, mad, k) || (TwoSided(m) && FarBelow(m, window[j], median, mad, k))
  {
    hide FarAbove, FarBelow;
  }

  lemma LongHistory(x: Input)
    requires Evaluable(x)
    ensures |x.buckets| >= x.dwell + 12
  {}

  lemma OutOfBand(m: Metric, v: real, median: real, mad: real, k: Knobs)
    requires mad > 0.0
    ensures !(InBand(m, v, median, mad) && FarAbove(v, median, mad, k))
    ensures !(InBand(m, v, median, mad) && TwoSided(m) && FarBelow(m, v, median, mad, k))
  {}

  lemma RisingBeforeWindow(
    x: Input, y: Input, k: Knobs, k': Knobs, values: seq<real>, rates: seq<real>, f: nat, to: nat, f': nat, to': nat)
    requires Reads(x, values, rates, f, to) && Reads(y, values, rates, f', to') && to <= to'
    requires SameBaselines(x, y, k, k') && Decide(x, k) == Resolve && SustainedRise(y)
    requires |x.buckets| >= ErrorRamp.Normalize(x.ramp).windowBuckets
    ensures to' >= to + ErrorRamp.Normalize(x.ramp).windowBuckets
  {
    ResolvesIff(x, k);
    WindowSize(x.ramp);
    LongHistory(x);
    RiseMember(y, 0);
    hide *;
    SharedBucket(x, y, values, rates, f, to, f', to');
    SameNumbers(x, y, k, k');
    if to' < to + ErrorRamp.Normalize(x.ramp).windowBuckets {
      RiseMember(y, to - 1 - f');
      SameRise(x, y, to - 1 - f');
    }
  }

  lemma RiseMember(y: Input, i: int)
    requires SustainedRise(y)
    ensures |y.buckets| >= ErrorRamp.Normalize(y.ramp).windowBuckets
    ensures |y.buckets| - ErrorRamp.Normalize(y.ramp).windowBuckets <= i < |y.buckets| ==> Rising(y, i)
  {
    WindowSize(y.ramp);
    LongEnough(y);
    assert Rising(y, |y.buckets| - 1);
    hide Rising, ErrorRamp.Normalize;
  }

  lemma SameRise(x: Input, y: Input, i: nat)
    requires x.metric == y.metric && x.ramp == y.ramp && RampBaseline(x) == RampBaseline(y)
    requires |x.rates| == |x.buckets| >= ErrorRamp.Normalize(x.ramp).windowBuckets && x.buckets != []
    requires i < |y.buckets| == |y.rates|
    requires y.buckets[i] == x.buckets[|x.buckets| - 1] && y.rates[i] == x.rates[|x.rates| - 1]
    ensures Rising(y, i) ==> Rising(x, |x.buckets| - 1)
  {
    hide RampBaseline, ErrorRamp.LearnedThreshold, ErrorRamp.Normalize;
  }

  // After a resolve nothing opens over the same baselines before a whole dwell
  // window of newer buckets has arrived, or, for the error ratio, the whole
  // window of its rule.
  lemma NoVerdictReopens(
    x: Input, y: Input, k: Knobs, k': Knobs, values: seq<real>, rates: seq<real>, f: nat, to: nat, f': nat, to': nat)
    requires Reads(x, values, rates, f, to) && Reads(y, values, rates, f', to') && to <= to'
    requires SameBaselines(x, y, k, k') && Decide(x, k) == Resolve && Decide(y, k') == Open
    requires |x.buckets| >= ErrorRamp.Normalize(x.ramp).windowBuckets || x.metric != ErrorRate
    ensures || to' >= to + x.dwell
            || (x.metric == ErrorRate && to' >= to + ErrorRamp.Normalize(x.ramp).windowBuckets)
  {
    OpensIff(y, k');
    if SustainedRise(y) {
      NeedsErrorRate(y);
    }
    hide Decide, Evaluable, SustainedRise, WindowFarOut, Rising, SameBaselines, RampBaseline;
    if WindowFarOut(y, k') {
      BandBeforeWindow(x, y, k, k', values, rates, f, to, f', to');
    } else {
      SameMetric(x, y, k, k');
      RisingBeforeWindow(x, y, k, k', values, rates, f, to, f', to');
    }
  }

  lemma SameMetric(x: Input, y: Input, k: Knobs, k': Knobs)
    requires SameBaselines(x, y, k, k')
    ensures x.metric == y.metric
  {}

  lemma NeedsErrorRate(x: Input)
    requires SustainedRise(x)
    ensures x.metric == ErrorRate
  {
    WindowSize(x.ramp);
    assert Rising(x, |x.buckets| - 1);
  }

  // The same over a watched series: tick n reads its buckets [from[n], to[n]).
  lemma WatchNeverFlaps(
    w: Watch, values: seq<real>, rates: seq<real>, from: seq<nat>, to: seq<nat>, i: nat, j: nat)
    requires w.Valid() && |from| == |to| == |w.inputs| && i <= j < |w.inputs|
    requires Reads(w.inputs[i], values, rates, from[i], to[i]) && Reads(w.inputs[j], values, rates, from[j], to[j])
    requires to[i] <= to[j] && SameBaselines(w.inputs[i], w.inputs[j], w.knobs[i], w.knobs[j])
    requires w.VerdictAt(i) == Resolve && w.VerdictAt(j) == Open
    requires |w.inputs[i].buckets| >= ErrorRamp.Normalize(w.inputs[i].ramp).windowBuckets
               || w.inputs[i].metric != ErrorRate
    ensures || to[j] >= to[i] + w.inputs[i].dwell
            || (w.inputs[i].metric == ErrorRate
                && to[j] >= to[i] + ErrorRamp.Normalize(w.inputs[i].ramp).windowBuckets)
  {
    var x, y := w.inputs[i].(hasOpen := w.HasRow(i)), w.inputs[j].(hasOpen := w.HasRow(j));
    RowIsNoBaseline(w.inputs[i], w.HasRow(i), w.knobs[i]);
    RowIsNoBaseline(w.inputs[j], w.HasRow(j), w.knobs[j]);
    hide Decide, Evaluable, WorkingMedian, WorkingMAD, RampBaseline, ErrorRamp.Normalize;
    NoVerdictReopens(x, y, w.knobs[i], w.knobs[j], values, rates, from[i], to[i], from[j], to[j]);
  }

  // Whether a row is open is no part of the baselines.
  lemma RowIsNoBaseline(x: Input, hasOpen: bool, k: Knobs)
    ensures var y := x.(hasOpen := hasOpen);
            && Evaluable(x) == Evaluable(y) && RampBaseline(x) == RampBaseline(y)
            && (Evaluable(x) ==> WorkingMedian(x) == WorkingMedian(y) && WorkingMAD(x, k) == WorkingMAD(y, k))
  {
    hide MedianMAD, TrimmedLength, EffectiveMAD, ErrorRamp.Normalize;
  }

  // ----- the deviation and the batch gate -----

  // A history that never moved: half a point of error ratio counts as its
  // deviation, otherwise 5% of the median, but at least a millisecond, a unit, a
  // tenth of a request per second, or a thousandth.
  lemma FlatHistory(m: Metric, median: real, minMAD: real)
    requires minMAD <= 0.0
    ensures var mad := EffectiveMAD(m, median, 0.0, minMAD);
            var least := if m == P99Ms || m.External? then 1.0 else if m == RequestRate then 0.1 else 0.001;
            if m == ErrorRate then mad == 0.5
            else mad >= least && 20.0 * mad >= Abs(median) && (mad == least || 20.0 * mad == Abs(median))
  {}

  // A history that moved is judged by its own deviation, and the operator's
  // least deviation is a floor in both cases.
  lemma MovedHistory(m: Metric, median: real, mad: real, minMAD: real)
    requires mad >= 0.000000001
    ensures EffectiveMAD(m, median, mad, minMAD) == if minMAD > mad then minMAD else mad
  {}

  // The rates that belong to the chosen baseline, when they are known.
  ghost predicate KnownLoad(x: Input, base: seq<real>) {
    && base != []
    && if |x.seasonal| >= x.seasonalMinSamples then |x.seasonalRates| == |x.seasonal| && base == x.seasonalRates
       else exists n :: LastLive(x, n) && 0 <= n && base == x.rates[..n + 1]
  }

  // The batch gate mutes the opening of a latency row of a batch service exactly
  // when every bucket of the dwell window carried at least twice the median load.
  lemma MutedIff(x: Input)
    requires Evaluable(x)
    ensures MutedByBatchLoad(x, Split(x), Consecutive(x))
       <==> && !x.hasOpen && x.batch && x.metric == P99Ms && |x.rates| == |x.buckets| && x.dwell > 0
            && exists base :: KnownLoad(x, base) && MedianOf(base) > 0.0
                 && forall i :: |x.rates| - x.dwell <= i < |x.rates| ==> x.rates[i] >= 2.0 * MedianOf(base)
  {
    var split, n := Split(x), Consecutive(x);
    var base := if |x.seasonal| >= x.seasonalMinSamples then x.seasonalRates
                else if n <= |x.rates| then x.rates[..n] else [];
    LiveIsConsecutive(x);
    LongHistory(x);
    if |x.rates| == |x.buckets| && x.dwell > 0 {
      assert forall b :: KnownLoad(x, b) ==> b == base;
      LoadIff(x.rates[split..], base);
      assert forall i :: split <= i < |x.rates| ==> x.rates[split..][i - split] == x.rates[i];
      hide MedianOf, Evaluable, LastLive, Consecutive, RatesUnderLoad;
    }
  }

  lemma LiveIsConsecutive(x: Input)
    requires Evaluable(x)
    ensures Consecutive(x) <= |x.rates| && LastLive(x, Consecutive(x) - 1)
    ensures forall i :: LastLive(x, i) ==> i == Consecutive(x) - 1
  {
    var before := |x.buckets| - x.dwell;
    LiveLengthIs(x.rates, if |x.rates| < before then |x.rates| else before);
  }

  lemma LoadIff(window: seq<real>, base: seq<real>)
    ensures RatesUnderLoad(window, base)
       <==> window != [] && base != []
            && (forall i :: 0 <= i < |window| ==> window[i] >= 2.0 * MedianOf(base)) && MedianOf(base) > 0.0
  {
    hide MedianOf;
    if window != [] && RatesUnderLoad(window, base) {
      assert BatchLoadSurge(window[0], MedianOf(base));
    }
  }
}
