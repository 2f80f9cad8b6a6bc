// What a candidate of the behaviour engine says about its service, and when
// there is one.
module BehaviourMeaning {
  import opened Problems
  import opened Collecting
  import opened Sorting
  import opened Baseline
  import opened BaselineLaws
  import opened Decision
  import opened Behaviour
  import opened BehaviourScan

  // ----- what the rows measure -----

  // Percentage of failed spans, and spans per second of a five-minute bucket.
  lemma MetricMeaning(r: Row)
    ensures r.spans > 0 ==> MetricValue(ErrorRate, r) * (r.spans as real) == 100.0 * (r.errs as real)
    ensures r.spans == 0 ==> MetricValue(ErrorRate, r) == 0.0
    ensures MetricValue(RequestRate, r) * 300.0 == r.spans as real
    ensures MetricValue(P99Ms, r) == r.p99
  {
    if r.spans > 0 {
      Percentage(r.errs as real, r.spans as real);
    }
  }

  lemma Percentage(a: real, b: real)
    requires b > 0.0
    ensures a / b * 100.0 * b == 100.0 * a
  {
    assert a / b * b == a;
  }

  // The 0.5-quantile is the median.
  lemma HalfQuantileIsMedian(xs: seq<real>)
    ensures QuantileOf(xs, 0.5) == MedianOf(xs)
  {
    var k := |xs| / 2;
    Middles(xs, k);
    if xs != [] {
      PositionInRange(0.5, |xs|);
      HalfPosition(|xs|, k);
      hide Sort, MedianOf;
    }
  }

  lemma HalfPosition(n: nat, k: nat)
    requires n > 0 && k == n / 2
    ensures n == 2 * k + 1 ==> Position(0.5, n) == k as real && BehaviourScan.Floor(Position(0.5, n)) == k
    ensures n == 2 * k ==> Position(0.5, n) == (k as real) - 0.5 && BehaviourScan.Floor(Position(0.5, n)) == k - 1
  {}

  // ----- one slice -----

  lemma RatioIff(v: real, b: real, bound: real)
    requires b > 0.0
    ensures v / b >= bound <==> v >= bound * b
    ensures v / b <= bound <==> v <= bound * b
  {
    assert v / b * b == v;
    ProductOrder(bound, v / b, b);
    ProductOrder(v / b, bound, b);
  }

  lemma InverseIff(q: real, r: real)
    requires r > 0.0
    ensures q <= 1.0 / r <==> q * r <= 1.0
  {
    assert 1.0 / r * r == 1.0;
    ProductOrder(q, 1.0 / r, r);
  }

  // value has moved this far from the baseline of its hour.
  ghost predicate Moved(signal: Signal, way: Way, baseline: real, value: real, c: Config) {
    && (signal == Regime && c.regimeRatio > 1.0 && baseline >= MAGNITUDE_EPS ==>
          && (way == Rise <==> value >= c.regimeRatio * baseline)
          && (way == Fall <==> value * c.regimeRatio <= baseline))
    && (signal == Seasonal && c.seasonalZ > 0.0 ==>
          (way == Rise ==> value > baseline) && (way == Fall ==> value < baseline))
  }

  lemma FallIff(v: real, b: real, r: real)
    requires b > 0.0 && r > 0.0
    ensures v / b <= 1.0 / r <==> v * r <= b
  {
    assert v / b * b == v;
    InverseIff(v / b, r);
    assert v / b * r * b == v * r;
    ProductOrder(v / b * r, 1.0, b);
  }

  lemma NotBoth(v: real, b: real, r: real)
    requires b > 0.0 && r > 1.0
    ensures !(v >= r * b && v * r <= b)
  {
    if v >= r * b {
      ProductOrder(1.0, r, b);
      assert v > b;
      ProductOrder(1.0, r, v);
    }
  }

  // Bucket b holds the history of the slice's hour.
  lemma SliceMoved(
    m: Metric, baseline: map<int, Bucket>, r: Row, k: Knobs, c: Config, signal: Signal, way: Way)
    requires SliceMoves(m, baseline, r, k, c, signal, way)
    ensures Moved(signal, way, Mid(BucketAt(baseline, r.how)), MetricValue(m, r), c)
    ensures signal == Regime ==> c.regimeRatio > 1.0
  {
    var b, v := BucketAt(baseline, r.how), MetricValue(m, r);
    hide *;
    MoveFires(m, baseline, r, k, c, signal, way);
    if signal == Regime {
      FiresNeedsRatio(SliceZ(m, b, v, k.minMAD), SliceRatio(b, v), c);
      RegimeMoved(SliceZ(m, b, v, k.minMAD), b, v, way, c);
    } else {
      SeasonMoved(m, b, v, k.minMAD, way, c);
    }
  }

  lemma MoveFires(m: Metric, baseline: map<int, Bucket>, r: Row, k: Knobs, c: Config, signal: Signal, way: Way)
    requires SliceMoves(m, baseline, r, k, c, signal, way)
    ensures var b, v := BucketAt(baseline, r.how), MetricValue(m, r);
            Fires(signal, SliceZ(m, b, v, k.minMAD), SliceRatio(b, v), c) == Some(way)
  {
    hide Fires, SliceZ, SliceRatio, BucketAt, MetricValue, AboveSpikyBand;
  }

  lemma FiresNeedsRatio(z: real, ratio: real, c: Config)
    ensures Fires(Regime, z, ratio, c).Some? ==> c.regimeRatio > 1.0
  {}

  lemma RegimeMoved(z: real, b: Bucket, v: real, way: Way, c: Config)
    requires Fires(Regime, z, SliceRatio(b, v), c) == Some(way) && c.regimeRatio > 1.0
    ensures Moved(Regime, way, Mid(b), v, c)
  {
    SliceRatioIs(b, v);
    hide Mid, Fires, SliceRatio;
    if Mid(b) >= MAGNITUDE_EPS {
      FiresIff(z, v, Mid(b), c);
    }
  }

  lemma SeasonMoved(m: Metric, b: Bucket, v: real, minMAD: real, way: Way, c: Config)
    requires Fires(Seasonal, SliceZ(m, b, v, minMAD), SliceRatio(b, v), c) == Some(way)
    ensures Moved(Seasonal, way, Mid(b), v, c)
  {
    var mad := EffectiveMAD(m, Mid(b), MedianMAD(b.values).1, minMAD);
    assert SliceZ(m, b, v, minMAD) == Score(v, Mid(b), mad);
    ScoreSign(v, Mid(b), mad);
    hide Mid, SliceZ, SliceRatio, Score, EffectiveMAD;
  }

  // ----- a candidate -----

  // Every slice the candidate was judged on moved as it did.
  ghost predicate AllSlicesMoved(cand: Candidate, m: Metric, baseline: map<int, Bucket>, recent: seq<Row>, c: Config) {
    && 0 < cand.dwell <= |recent|
    && forall i :: |recent| - cand.dwell <= i < |recent| ==>
         Moved(cand.signal, cand.way, Mid(BucketAt(baseline, recent[i].how)), MetricValue(m, recent[i]), c)
  }

  // What a candidate says about itself: its way is that of its current value
  // against its baseline, and it is not under the operator's floors.
  ghost predicate Sound(cand: Candidate, m: Metric, k: Knobs, c: Config) {
    && Moved(cand.signal, cand.way, cand.baseline, cand.current, c)
    && (cand.signal == Regime ==> c.regimeRatio > 1.0)
    && cand.dwell == (if cand.signal == Regime then c.dwellRegime else c.dwellSeasonal)
    && (cand.baseline >= MAGNITUDE_EPS ==>
          && cand.ratio * cand.baseline == cand.current
          && Abs(cand.current - cand.baseline) >= k.floorPct * cand.baseline)
    && (k.minAbsDelta > 0.0 ==> Abs(cand.current - cand.baseline) >= k.minAbsDelta)
    && (m == P99Ms && c.minP99 > 0.0 ==> cand.current >= c.minP99)
    && (m == P99Ms && cand.way == Rise && k.absFloor > 0.0 ==> cand.current >= k.absFloor)
    && (m == ErrorRate && !c.highVolumeOn && c.minErrorRate > 0.0 ==> cand.current >= c.minErrorRate)
  }

  lemma LastMatters(m: Metric, window: seq<Row>, median: real, value: real, way: Way, k: Knobs, c: Config)
    requires Matters(m, window, median, value, way, k, c)
    ensures median >= MAGNITUDE_EPS ==> Abs(value - median) >= k.floorPct * median
    ensures k.minAbsDelta > 0.0 ==> Abs(value - median) >= k.minAbsDelta
    ensures m == P99Ms && c.minP99 > 0.0 ==> value >= c.minP99
    ensures m == P99Ms && way == Rise && k.absFloor > 0.0 ==> value >= k.absFloor
    ensures m == ErrorRate && !c.highVolumeOn && c.minErrorRate > 0.0 ==> value >= c.minErrorRate
  {
    if median >= MAGNITUDE_EPS {
      RatioIff(Abs(value - median), median, k.floorPct);
    }
  }

  lemma RatioTimes(v: real, b: real)
    requires b > 0.0
    ensures v / b * b == v
  {}

  lemma WindowIsSound(
    service: string, name: string, m: Metric, baseline: map<int, Bucket>, recent: seq<Row>, k: Knobs, c: Config,
    signal: Signal, cand: Candidate)
    requires var dwell := if signal == Regime then c.dwellRegime else c.dwellSeasonal;
             WindowCandidate(service, name, m, baseline, recent, k, c, signal, dwell) == Some(cand)
    ensures cand.signal == signal && Sound(cand, m, k, c) && AllSlicesMoved(cand, m, baseline, recent, c)
  {
    var dwell := if signal == Regime then c.dwellRegime else c.dwellSeasonal;
    hide *;
    CandidateOpens(service, name, m, baseline, recent, k, c, signal, dwell, cand);
    OpensMeans(m, baseline, recent, k, c, signal, dwell, cand.way);
    SlicesMoved(m, baseline, recent, k, c, signal, dwell, cand.way);
    var b, v := BucketAt(baseline, recent[|recent| - 1].how), MetricValue(m, recent[|recent| - 1]);
    LastMatters(m, recent[|recent| - dwell..], Mid(b), v, cand.way, k, c);
    RatioIs(b, v);
    SlicesAre(cand, m, baseline, recent, c);
    SoundIs(cand, m, k, c);
  }

  lemma OpensMeans(
    m: Metric, baseline: map<int, Bucket>, recent: seq<Row>, k: Knobs, c: Config, signal: Signal, dwell: int, way: Way)
    requires BehaviourScan.Opens(m, baseline, recent, k, c, signal, dwell, way)
    ensures 0 < dwell <= |recent| && AllMove(m, baseline, recent[|recent| - dwell..], k, c, signal, way)
    ensures var last := recent[|recent| - 1];
            Matters(m, recent[|recent| - dwell..], Mid(BucketAt(baseline, last.how)), MetricValue(m, last), way, k, c)
  {
    hide AllMove, Matters, Mid, MetricValue, BucketAt;
  }

  lemma SlicesMoved(
    m: Metric, baseline: map<int, Bucket>, recent: seq<Row>, k: Knobs, c: Config, signal: Signal, dwell: int, way: Way)
    requires 0 < dwell <= |recent| && AllMove(m, baseline, recent[|recent| - dwell..], k, c, signal, way)
    ensures forall i :: |recent| - dwell <= i < |recent| ==>
              Moved(signal, way, Mid(BucketAt(baseline, recent[i].how)), MetricValue(m, recent[i]), c)
    ensures signal == Regime ==> c.regimeRatio > 1.0
  {
    var window := recent[|recent| - dwell..];
    hide SliceMoves, Moved, Mid, MetricValue, BucketAt;
    forall i | |recent| - dwell <= i < |recent|
      ensures Moved(signal, way, Mid(BucketAt(baseline, recent[i].how)), MetricValue(m, recent[i]), c)
      ensures signal == Regime ==> c.regimeRatio > 1.0
    {
      assert window[i - (|recent| - dwell)] == recent[i];
      SliceMoved(m, baseline, recent[i], k, c, signal, way);
    }
    assert recent[|recent| - 1] == window[dwell - 1];
  }

  lemma RatioIs(b: Bucket, v: real)
    ensures Mid(b) >= MAGNITUDE_EPS ==> SliceRatio(b, v) * Mid(b) == v
  {
    hide Mid;
    if Mid(b) >= MAGNITUDE_EPS {
      RatioTimes(v, Mid(b));
    }
  }

  lemma SlicesAre(cand: Candidate, m: Metric, baseline: map<int, Bucket>, recent: seq<Row>, c: Config)
    requires 0 < cand.dwell <= |recent|
    requires forall i :: |recent| - cand.dwell <= i < |recent| ==>
               Moved(cand.signal, cand.way, Mid(BucketAt(baseline, recent[i].how)), MetricValue(m, recent[i]), c)
    ensures AllSlicesMoved(cand, m, baseline, recent, c)
  {
    hide Moved, Mid, MetricValue, BucketAt;
  }

  lemma SoundIs(cand: Candidate, m: Metric, k: Knobs, c: Config)
    requires Moved(cand.signal, cand.way, cand.baseline, cand.current, c)
    requires cand.signal == Regime ==> c.regimeRatio > 1.0
    requires cand.dwell == if cand.signal == Regime then c.dwellRegime else c.dwellSeasonal
    requires cand.baseline >= MAGNITUDE_EPS ==>
               cand.ratio * cand.baseline == cand.current
               && Abs(cand.current - cand.baseline) >= k.floorPct * cand.baseline
    requires k.minAbsDelta > 0.0 ==> Abs(cand.current - cand.baseline) >= k.minAbsDelta
    requires m == P99Ms && c.minP99 > 0.0 ==> cand.current >= c.minP99
    requires m == P99Ms && cand.way == Rise && k.absFloor > 0.0 ==> cand.current >= k.absFloor
    requires m == ErrorRate && !c.highVolumeOn && c.minErrorRate > 0.0 ==> cand.current >= c.minErrorRate
    ensures Sound(cand, m, k, c)
  {
    hide Moved;
  }

  lemma CandidateOpens(
    service: string, name: string, m: Metric, baseline: map<int, Bucket>, recent: seq<Row>, k: Knobs, c: Config,
    signal: Signal, dwell: int, cand: Candidate)
    requires WindowCandidate(service, name, m, baseline, recent, k, c, signal, dwell) == Some(cand)
    ensures BehaviourScan.Opens(m, baseline, recent, k, c, signal, dwell, cand.way)
    ensures cand == CandidateOf(service, name, m, baseline, recent, k, c, signal, dwell, cand.way)
    ensures cand.signal == signal && cand.dwell == dwell && recent != []
    ensures var last := recent[|recent| - 1];
            var b, v := BucketAt(baseline, last.how), MetricValue(m, last);
            cand.baseline == Mid(b) && cand.current == v && cand.ratio == SliceRatio(b, v)
  {
    hide AllMove, Matters, Mid, MetricValue, BucketAt, SliceZ, SliceRatio, SpansOf;
  }

  lemma JudgedIsSound(
    service: string, name: string, m: Metric, baseline: map<int, Bucket>, recent: seq<Row>, k: Knobs, c: Config,
    cand: Candidate)
    requires Judged(service, name, m, baseline, recent, k, c) == Some(cand)
    ensures Sound(cand, m, k, c) && AllSlicesMoved(cand, m, baseline, recent, c)
  {
    hide WindowCandidate, Sound, AllSlicesMoved;
    var regime := WindowCandidate(service, name, m, baseline, recent, k, c, Regime, c.dwellRegime);
    WindowIsSound(service, name, m, baseline, recent, k, c, if regime.Some? then Regime else Seasonal, cand);
  }

  // The candidates of the whole fleet, before and after the storm cap.
  lemma FleetIsSound(f: Fleet, exempt: string -> bool, cands: seq<Candidate>, kept: seq<Candidate>, max: int)
    requires IsFleet(cands, f, exempt) && IsCapped(kept, cands, max)
    ensures forall cand :: cand in cands || cand in kept ==>
              exists name, m :: (name, m) in METRICS && name == cand.metric && Sound(cand, m, f.knobs(name), f.config)
  {
    forall cand | cand in cands
      ensures exists name, m :: (name, m) in METRICS && name == cand.metric && Sound(cand, m, f.knobs(name), f.config)
    {
      hide Sound, Yields, IsCapped;
      var s: string, j: nat :| Yields(f, exempt, s, j, cand);
      YieldIsSound(f, exempt, s, j, cand);
    }
    hide IsFleet, Sound;
    KeptAreCandidates(cands, kept, max);
  }

  lemma YieldIsSound(f: Fleet, exempt: string -> bool, s: string, j: nat, cand: Candidate)
    requires Yields(f, exempt, s, j, cand)
    ensures METRICS[j] in METRICS && METRICS[j].0 == cand.metric
    ensures Sound(cand, METRICS[j].1, f.knobs(METRICS[j].0), f.config)
  {
    YieldsNames(f, exempt, s, j, cand);
    var (name, m) := METRICS[j];
    var rows := f.rows[s];
    JudgedNames(f, s, name, m);
    assert JudgedAt(f, s, name, m) == Some(cand) by {
      hide JudgedAt, Muted;
    }
    hide Judged, Sound, SplitBaseline, CandidateAt;
    JudgedIsSound(s, name, m, SplitBaseline(rows, m, f.cutoff), Collect(rows, RecentStep(f.cutoff)), f.knobs(name),
                  f.config, cand);
  }

  lemma KeptAreCandidates(cands: seq<Candidate>, kept: seq<Candidate>, max: int)
    requires IsCapped(kept, cands, max)
    ensures forall cand :: cand in kept ==> cand in cands
  {
    var ranked := RankedOf(kept, cands, max);
    SameElements(ranked, cands);
    hide IsCapped, CandBefore;
  }

  // ----- when there is a candidate -----

  // A slice with enough history at the ratio of a lasting shift, above the band
  // its hour has always had.
  ghost predicate Risen(m: Metric, baseline: map<int, Bucket>, r: Row, c: Config) {
    var b, v := BucketAt(baseline, r.how), MetricValue(m, r);
    && |b.values| >= c.minSamples && b.repeats >= c.minRepeats
    && v >= c.regimeRatio * Max(Abs(Mid(b)), MAGNITUDE_EPS)
    && (c.spikyBandFactor > 0.0 && b.values != [] ==> v > c.spikyBandFactor * QuantileOf(b.values, 0.9))
  }

  ghost predicate Fallen(m: Metric, baseline: map<int, Bucket>, r: Row, c: Config) {
    var b, v := BucketAt(baseline, r.how), MetricValue(m, r);
    && |b.values| >= c.minSamples && b.repeats >= c.minRepeats
    && v * c.regimeRatio <= Max(Abs(Mid(b)), MAGNITUDE_EPS)
  }

  lemma MovesIs(m: Metric, baseline: map<int, Bucket>, r: Row, k: Knobs, c: Config, way: Way)
    requires var b := BucketAt(baseline, r.how);
             |b.values| >= c.minSamples && b.repeats >= c.minRepeats
    ensures var b, v := BucketAt(baseline, r.how), MetricValue(m, r);
            SliceMoves(m, baseline, r, k, c, Regime, way)
            <==> Fires(Regime, SliceZ(m, b, v, k.minMAD), SliceRatio(b, v), c) == Some(way)
                 && (way == Rise ==> AboveSpikyBand(v, b.values, c.spikyBandFactor))
  {
    hide BucketAt, MetricValue, Fires, SliceZ, SliceRatio, AboveSpikyBand;
  }

  lemma FiresIff(z: real, v: real, d: real, c: Config)
    requires c.regimeRatio > 1.0 && d > 0.0
    ensures Fires(Regime, z, v / d, c) == Some(Rise) <==> v >= c.regimeRatio * d
    ensures Fires(Regime, z, v / d, c) == Some(Fall) <==> v * c.regimeRatio <= d
  {
    RatioIff(v, d, c.regimeRatio);
    FallIff(v, d, c.regimeRatio);
    NotBoth(v, d, c.regimeRatio);
  }

  lemma SliceRatioIs(b: Bucket, v: real)
    ensures SliceRatio(b, v) == v / Max(Abs(Mid(b)), MAGNITUDE_EPS)
  {
    hide Mid;
  }

  lemma ShiftMoves(m: Metric, baseline: map<int, Bucket>, r: Row, k: Knobs, c: Config)
    requires c.regimeRatio > 1.0
    ensures Risen(m, baseline, r, c) ==> SliceMoves(m, baseline, r, k, c, Regime, Rise)
    ensures Fallen(m, baseline, r, c) ==> SliceMoves(m, baseline, r, k, c, Regime, Fall)
  {
    var b, v := BucketAt(baseline, r.how), MetricValue(m, r);
    hide *;
    ShiftIs(m, baseline, r, c);
    Positive(b);
    SliceRatioIs(b, v);
    FiresIff(SliceZ(m, b, v, k.minMAD), v, Max(Abs(Mid(b)), MAGNITUDE_EPS), c);
    if |b.values| >= c.minSamples && b.repeats >= c.minRepeats {
      MovesIs(m, baseline, r, k, c, Rise);
      MovesIs(m, baseline, r, k, c, Fall);
    }
  }

  lemma Positive(b: Bucket)
    ensures Max(Abs(Mid(b)), MAGNITUDE_EPS) > 0.0
  {
    hide Mid;
  }

  lemma ShiftIs(m: Metric, baseline: map<int, Bucket>, r: Row, c: Config)
    ensures var b, v := BucketAt(baseline, r.how), MetricValue(m, r);
            var d := Max(Abs(Mid(b)), MAGNITUDE_EPS);
            && (Risen(m, baseline, r, c)
                <==> |b.values| >= c.minSamples && b.repeats >= c.minRepeats && v >= c.regimeRatio * d
                     && AboveSpikyBand(v, b.values, c.spikyBandFactor))
            && (Fallen(m, baseline, r, c)
                <==> |b.values| >= c.minSamples && b.repeats >= c.minRepeats && v * c.regimeRatio <= d)
  {
    hide BucketAt, MetricValue, Mid, QuantileOf, Max;
  }

  // A service that is heard, whose whole regime window rose (or fell) to the
  // ratio, and whose last slice matters, has a candidate that says so.
  lemma LastingShiftIsFound(
    service: string, name: string, m: Metric, baseline: map<int, Bucket>, recent: seq<Row>, k: Knobs, c: Config,
    way: Way)
    requires Heard(recent, k) && c.regimeRatio > 1.0 && 0 < c.dwellRegime <= |recent|
    requires forall i :: |recent| - c.dwellRegime <= i < |recent| ==>
               if way == Rise then Risen(m, baseline, recent[i], c) else Fallen(m, baseline, recent[i], c)
    requires var last := recent[|recent| - 1];
             Matters(m, recent[|recent| - c.dwellRegime..], Mid(BucketAt(baseline, last.how)), MetricValue(m, last),
                     way, k, c)
    ensures var cand := Judged(service, name, m, baseline, recent, k, c);
            cand.Some? && cand.value.signal == Regime && cand.value.way == way
  {
    var window := recent[|recent| - c.dwellRegime..];
    hide *;
    forall i | 0 <= i < |window| ensures SliceMoves(m, baseline, window[i], k, c, Regime, way) {
      assert window[i] == recent[|recent| - c.dwellRegime + i];
      ShiftMoves(m, baseline, window[i], k, c);
    }
    MoveTogether(m, baseline, window, k, c, way);
    RegimeIsFound(service, name, m, baseline, recent, k, c, way);
  }

  lemma MoveTogether(m: Metric, baseline: map<int, Bucket>, window: seq<Row>, k: Knobs, c: Config, way: Way)
    requires forall i :: 0 <= i < |window| ==> SliceMoves(m, baseline, window[i], k, c, Regime, way)
    ensures AllMove(m, baseline, window, k, c, Regime, way)
  {
    hide SliceMoves;
  }

  lemma RegimeIsFound(
    service: string, name: string, m: Metric, baseline: map<int, Bucket>, recent: seq<Row>, k: Knobs, c: Config,
    way: Way)
    requires Heard(recent, k) && 0 < c.dwellRegime <= |recent|
    requires AllMove(m, baseline, recent[|recent| - c.dwellRegime..], k, c, Regime, way)
    requires var last := recent[|recent| - 1];
             Matters(m, recent[|recent| - c.dwellRegime..], Mid(BucketAt(baseline, last.how)), MetricValue(m, last),
                     way, k, c)
    ensures var cand := Judged(service, name, m, baseline, recent, k, c);
            cand.Some? && cand.value.signal == Regime && cand.value.way == way
  {
    hide AllMove, Matters, Heard, Mid, MetricValue, BucketAt, SliceZ, SliceRatio, SpansOf;
    assert BehaviourScan.Opens(m, baseline, recent, k, c, Regime, c.dwellRegime, way);
    OneWay(m, baseline, recent, k, c, Regime, c.dwellRegime);
    hide BehaviourScan.Opens;
  }

  lemma OneWay(
    m: Metric, baseline: map<int, Bucket>, recent: seq<Row>, k: Knobs, c: Config, signal: Signal, dwell: int)
    ensures !(BehaviourScan.Opens(m, baseline, recent, k, c, signal, dwell, Rise)
              && BehaviourScan.Opens(m, baseline, recent, k, c, signal, dwell, Fall))
  {
    hide Matters, Mid, MetricValue, BucketAt, SliceZ, SliceRatio, Sufficient, AboveSpikyBand, Fires;
    if 0 < dwell <= |recent| {
      var window := recent[|recent| - dwell..];
      assert SliceMoves(m, baseline, window[0], k, c, signal, Rise) ==>
          !SliceMoves(m, baseline, window[0], k, c, signal, Fall);
    }
  }

  // A slice whose score against its hour reaches the seasonal limit.
  ghost predicate SeasonallyRisen(m: Metric, baseline: map<int, Bucket>, r: Row, k: Knobs, c: Config) {
    var b, v := BucketAt(baseline, r.how), MetricValue(m, r);
    && |b.values| >= c.minSamples && b.repeats >= c.minRepeats
    && 0.6745 * (v - Mid(b)) >= c.seasonalZ * EffectiveMAD(m, Mid(b), MedianMAD(b.values).1, k.minMAD)
    && (c.spikyBandFactor > 0.0 && b.values != [] ==> v > c.spikyBandFactor * QuantileOf(b.values, 0.9))
  }

  lemma SeasonMoves(m: Metric, baseline: map<int, Bucket>, r: Row, k: Knobs, c: Config)
    requires SeasonallyRisen(m, baseline, r, k, c)
    ensures SliceMoves(m, baseline, r, k, c, Seasonal, Rise)
  {
    var b, v := BucketAt(baseline, r.how), MetricValue(m, r);
    var mid, dev := Mid(b), MedianMAD(b.values).1;
    hide Mid, MetricValue, BucketAt, EffectiveMAD, QuantileOf, Score;
    ScoreIff(v, mid, EffectiveMAD(m, mid, dev, k.minMAD), c.seasonalZ);
  }

  // A service that is heard, whose whole seasonal window rose out of what its
  // hours are used to, and whose last slice matters, has a candidate.
  lemma SeasonalRiseIsFound(
    service: string, name: string, m: Metric, baseline: map<int, Bucket>, recent: seq<Row>, k: Knobs, c: Config)
    requires Heard(recent, k) && 0 < c.dwellSeasonal <= |recent|
    requires forall i :: |recent| - c.dwellSeasonal <= i < |recent| ==> SeasonallyRisen(m, baseline, recent[i], k, c)
    requires var last := recent[|recent| - 1];
             Matters(m, recent[|recent| - c.dwellSeasonal..], Mid(BucketAt(baseline, last.how)), MetricValue(m, last),
                     Rise, k, c)
    ensures var cand := Judged(service, name, m, baseline, recent, k, c);
            cand.Some? && (cand.value.signal == Seasonal ==> cand.value.way == Rise)
  {
    var window := recent[|recent| - c.dwellSeasonal..];
    hide *;
    forall i | 0 <= i < |window| ensures SliceMoves(m, baseline, window[i], k, c, Seasonal, Rise) {
      assert window[i] == recent[|recent| - c.dwellSeasonal + i];
      SeasonMoves(m, baseline, window[i], k, c);
    }
    SeasonIsFound(service, name, m, baseline, recent, k, c);
  }

  lemma SeasonIsFound(
    service: string, name: string, m: Metric, baseline: map<int, Bucket>, recent: seq<Row>, k: Knobs, c: Config)
    requires Heard(recent, k) && 0 < c.dwellSeasonal <= |recent|
    requires var window := recent[|recent| - c.dwellSeasonal..];
             forall i :: 0 <= i < |window| ==> SliceMoves(m, baseline, window[i], k, c, Seasonal, Rise)
    requires var last := recent[|recent| - 1];
             Matters(m, recent[|recent| - c.dwellSeasonal..], Mid(BucketAt(baseline, last.how)), MetricValue(m, last),
                     Rise, k, c)
    ensures var cand := Judged(service, name, m, baseline, recent, k, c);
            cand.Some? && (cand.value.signal == Seasonal ==> cand.value.way == Rise)
  {
    hide SliceMoves, Matters, Heard, Mid, MetricValue, BucketAt, SliceZ, SliceRatio, SpansOf;
    assert BehaviourScan.Opens(m, baseline, recent, k, c, Seasonal, c.dwellSeasonal, Rise);
    hide BehaviourScan.Opens;
  }

  // ----- what a candidate rests on -----

  // Every slice has enough history on enough days, and a rise is above the band
  // its hour has always had.
  ghost predicate Founded(m: Metric, baseline: map<int, Bucket>, r: Row, way: Way, c: Config) {
    var b, v := BucketAt(baseline, r.how), MetricValue(m, r);
    && |b.values| >= c.minSamples && b.repeats >= c.minRepeats
    && (way == Rise && c.spikyBandFactor > 0.0 && b.values != [] ==> v > c.spikyBandFactor * QuantileOf(b.values, 0.9))
  }

  // Errors of every slice of the window, five minutes each, reach the limit.
  ghost predicate ManyErrors(recent: seq<Row>, dwell: nat, perSec: real) {
    dwell <= |recent| && forall i :: |recent| - dwell <= i < |recent| ==> recent[i].errs as real >= 300.0 * perSec
  }

  lemma ManyErrorsIff(m: Metric, recent: seq<Row>, dwell: nat, c: Config)
    requires 0 < dwell <= |recent|
    ensures HighVolumeErrors(m, recent[|recent| - dwell..], c)
       <==> && m == ErrorRate && c.highVolumeOn && c.highVolumeErrorsPerSec > 0.0
            && ManyErrors(recent, dwell, c.highVolumeErrorsPerSec)
  {
    var window := recent[|recent| - dwell..];
    if ManyErrors(recent, dwell, c.highVolumeErrorsPerSec) {
      forall i | 0 <= i < |window| ensures (window[i].errs as real) / 300.0 >= c.highVolumeErrorsPerSec {
        assert window[i] == recent[|recent| - dwell + i];
      }
    }
    if m == ErrorRate && c.highVolumeOn && c.highVolumeErrorsPerSec > 0.0 && HighVolumeErrors(m, window, c) {
      forall i | |recent| - dwell <= i < |recent| ensures recent[i].errs as real >= 300.0 * c.highVolumeErrorsPerSec {
        assert window[i - (|recent| - dwell)] == recent[i];
      }
    }
  }

  // An error candidate is under the floors of its rate only when it rose with
  // many errors in every slice, and then not under the lower floor.
  lemma ErrorFloors(
    service: string, name: string, baseline: map<int, Bucket>, recent: seq<Row>, k: Knobs, c: Config, cand: Candidate)
    requires Judged(service, name, ErrorRate, baseline, recent, k, c) == Some(cand)
    requires c.minErrorRate > 0.0 && cand.current < c.minErrorRate
    ensures cand.way == Rise && c.highVolumeOn && ManyErrors(recent, cand.dwell, c.highVolumeErrorsPerSec)
    ensures c.highVolumeMinErrorRate > 0.0 ==> cand.current >= c.highVolumeMinErrorRate
  {
    hide *;
    var signal := JudgedSignal(service, name, ErrorRate, baseline, recent, k, c, cand);
    var dwell := if signal == Regime then c.dwellRegime else c.dwellSeasonal;
    CandidateOpens(service, name, ErrorRate, baseline, recent, k, c, signal, dwell, cand);
    OpensMeans(ErrorRate, baseline, recent, k, c, signal, dwell, cand.way);
    ManyErrorsIff(ErrorRate, recent, dwell, c);
    var last := recent[|recent| - 1];
    LoweredFloors(recent[|recent| - dwell..], Mid(BucketAt(baseline, last.how)), cand.current, cand.way, k, c);
  }

  lemma LoweredFloors(window: seq<Row>, median: real, value: real, way: Way, k: Knobs, c: Config)
    requires Matters(ErrorRate, window, median, value, way, k, c) && c.minErrorRate > 0.0 && value < c.minErrorRate
    ensures way == Rise && HighVolumeErrors(ErrorRate, window, c)
    ensures c.highVolumeMinErrorRate > 0.0 ==> value >= c.highVolumeMinErrorRate
  {
    hide HighVolumeErrors;
  }

  lemma JudgedSignal(
    service: string, name: string, m: Metric, baseline: map<int, Bucket>, recent: seq<Row>, k: Knobs, c: Config,
    cand: Candidate)
    returns (signal: Signal)
    requires Judged(service, name, m, baseline, recent, k, c) == Some(cand)
    ensures var dwell := if signal == Regime then c.dwellRegime else c.dwellSeasonal;
            WindowCandidate(service, name, m, baseline, recent, k, c, signal, dwell) == Some(cand)
    ensures Heard(recent, k)
  {
    hide WindowCandidate, Heard;
    var regime := WindowCandidate(service, name, m, baseline, recent, k, c, Regime, c.dwellRegime);
    signal := if regime.Some? then Regime else Seasonal;
  }

  // A candidate rests on enough history in every slice, and on a service that is
  // heard: at least the least number of requests per second in the last slice.
  // Its onset is the first of its slices and its hour that of the last.
  lemma CandidateIsFounded(
    service: string, name: string, m: Metric, baseline: map<int, Bucket>, recent: seq<Row>, k: Knobs, c: Config,
    cand: Candidate)
    requires Judged(service, name, m, baseline, recent, k, c) == Some(cand)
    ensures 0 < cand.dwell <= |recent| && cand.service == service && cand.metric == name
    ensures forall i :: |recent| - cand.dwell <= i < |recent| ==> Founded(m, baseline, recent[i], cand.way, c)
    ensures recent[|recent| - 1].spans as real >= 300.0 * k.minBaselineRate
    ensures cand.onset == recent[|recent| - cand.dwell].unix && cand.how == recent[|recent| - 1].how
  {
    hide *;
    var signal := JudgedSignal(service, name, m, baseline, recent, k, c, cand);
    var dwell := if signal == Regime then c.dwellRegime else c.dwellSeasonal;
    CandidateOpens(service, name, m, baseline, recent, k, c, signal, dwell, cand);
    OpensMeans(m, baseline, recent, k, c, signal, dwell, cand.way);
    CandidateNames(service, name, m, baseline, recent, k, c, signal, dwell, cand.way);
    HeardIs(recent, k);
    AllFounded(m, baseline, recent, k, c, signal, dwell, cand.way);
  }

  lemma CandidateNames(
    service: string, name: string, m: Metric, baseline: map<int, Bucket>, recent: seq<Row>, k: Knobs, c: Config,
    signal: Signal, dwell: int, way: Way)
    requires 0 < dwell <= |recent|
    ensures var cand := CandidateOf(service, name, m, baseline, recent, k, c, signal, dwell, way);
            && cand.service == service && cand.metric == name
            && cand.onset == recent[|recent| - dwell].unix && cand.how == recent[|recent| - 1].how
  {
    hide Mid, MetricValue, BucketAt, SliceZ, SliceRatio, SpansOf;
  }

  lemma HeardIs(recent: seq<Row>, k: Knobs)
    requires Heard(recent, k)
    ensures recent != [] && recent[|recent| - 1].spans as real >= 300.0 * k.minBaselineRate
  {}

  lemma AllFounded(
    m: Metric, baseline: map<int, Bucket>, recent: seq<Row>, k: Knobs, c: Config, signal: Signal, dwell: int, way: Way)
    requires 0 < dwell <= |recent| && AllMove(m, baseline, recent[|recent| - dwell..], k, c, signal, way)
    ensures forall i :: |recent| - dwell <= i < |recent| ==> Founded(m, baseline, recent[i], way, c)
  {
    var window := recent[|recent| - dwell..];
    hide SliceMoves, Founded;
    forall i | |recent| - dwell <= i < |recent| ensures Founded(m, baseline, recent[i], way, c) {
      assert window[i - (|recent| - dwell)] == recent[i];
      SliceFounded(m, baseline, recent[i], k, c, signal, way);
    }
  }

  lemma SliceFounded(
    m: Metric, baseline: map<int, Bucket>, r: Row, k: Knobs, c: Config, signal: Signal, way: Way)
    requires SliceMoves(m, baseline, r, k, c, signal, way)
    ensures Founded(m, baseline, r, way, c)
  {
    hide MetricValue, BucketAt, Fires, SliceZ, SliceRatio, QuantileOf;
  }

  // ----- the batch gate -----

  // The hour of a slice has enough history of its load, and the slice carried at
  // least twice the median of it.
  ghost predicate Surging(r: Row, volume: map<int, Bucket>, c: Config) {
    && r.how in volume && |volume[r.how].values| >= c.minSamples && volume[r.how].repeats >= c.minRepeats
    && MedianOf(volume[r.how].values) > 0.0
    && MetricValue(RequestRate, r) >= 2.0 * MedianOf(volume[r.how].values)
  }

  // A latency rise of a batch service goes when its load surged in every slice
  // of both windows, unless an event of the service is active.
  lemma LoadedRiseIsMuted(f: Fleet, exempt: string -> bool, service: string, cand: Candidate)
    requires service in f.rows && f.isBatch(service) && !exempt(service)
    requires JudgedAt(f, service, "p99_ms", P99Ms) == Some(cand) && cand.way == Rise
    requires cand.baseline >= MAGNITUDE_EPS && f.config.seasonalZ > 0.0
    requires var recent := Collect(f.rows[service], RecentStep(f.cutoff));
             var volume := SplitBaseline(f.rows[service], RequestRate, f.cutoff);
             forall i :: 0 <= i < |recent|
                         && (i >= |recent| - f.config.dwellRegime || i >= |recent| - f.config.dwellSeasonal) ==>
               Surging(recent[i], volume, f.config)
    ensures CandidateAt(f, exempt, service, "p99_ms", P99Ms) == None
  {
    var rows, c, k := f.rows[service], f.config, f.knobs("p99_ms");
    var baseline, recent := SplitBaseline(rows, P99Ms, f.cutoff), Collect(rows, RecentStep(f.cutoff));
    var volume := SplitBaseline(rows, RequestRate, f.cutoff);
    hide *;
    JudgedNames(f, service, "p99_ms", P99Ms);
    JudgedAtIs(f, service, "p99_ms", P99Ms);
    Explained(service, "p99_ms", baseline, recent, volume, k, c, cand);
    MutedIs(f, exempt, service, cand);
  }

  lemma JudgedAtIs(f: Fleet, service: string, name: string, m: Metric)
    requires service in f.rows
    ensures JudgedAt(f, service, name, m)
         == Judged(service, name, m, SplitBaseline(f.rows[service], m, f.cutoff),
                   Collect(f.rows[service], RecentStep(f.cutoff)), f.knobs(name), f.config)
  {}

  lemma MutedIs(f: Fleet, exempt: string -> bool, service: string, cand: Candidate)
    requires service in f.rows && f.isBatch(service) && !exempt(service)
    requires JudgedAt(f, service, "p99_ms", P99Ms) == Some(cand) && cand.service == service && cand.metric == "p99_ms"
    requires ExplainedByLoad(cand, P99Ms, SplitBaseline(f.rows[service], P99Ms, f.cutoff),
                             Collect(f.rows[service], RecentStep(f.cutoff)),
                             SplitBaseline(f.rows[service], RequestRate, f.cutoff), f.knobs("p99_ms"), f.config)
    ensures CandidateAt(f, exempt, service, "p99_ms", P99Ms) == None
  {
    hide JudgedAt, ExplainedByLoad, SplitBaseline, Collect;
  }

  lemma Explained(
    service: string, name: string, baseline: map<int, Bucket>, recent: seq<Row>, volume: map<int, Bucket>, k: Knobs,
    c: Config, cand: Candidate)
    requires Judged(service, name, P99Ms, baseline, recent, k, c) == Some(cand) && cand.way == Rise
    requires cand.service == service && cand.metric == name
    requires cand.baseline >= MAGNITUDE_EPS && c.seasonalZ > 0.0
    requires forall i :: 0 <= i < |recent| && (i >= |recent| - c.dwellRegime || i >= |recent| - c.dwellSeasonal) ==>
               Surging(recent[i], volume, c)
    ensures ExplainedByLoad(cand, P99Ms, baseline, recent, volume, k, c)
  {
    JudgedIsSound(service, name, P99Ms, baseline, recent, k, c, cand);
    assert 0 < cand.dwell <= |recent|;
    assert cand.dwell == if cand.signal == Regime then c.dwellRegime else c.dwellSeasonal;
    var seasonal := WindowCandidate(service, name, P99Ms, baseline, recent, k, c, Seasonal, c.dwellSeasonal);
    JudgedRegime(service, name, baseline, recent, k, c, cand);
    hide Judged, WindowCandidate, Sound, AllSlicesMoved, Moved, Surging, UnderLoad;
    SurgingIsLoad(cand.dwell, recent, volume, c);
    if cand.signal == Regime && seasonal.Some? {
      SeasonalAgrees(service, name, baseline, recent, k, c, cand, seasonal.value);
      SurgingIsLoad(seasonal.value.dwell, recent, volume, c);
    }
  }

  lemma JudgedRegime(
    service: string, name: string, baseline: map<int, Bucket>, recent: seq<Row>, k: Knobs, c: Config, cand: Candidate)
    requires Judged(service, name, P99Ms, baseline, recent, k, c) == Some(cand)
    ensures cand.signal == Regime ==>
              WindowCandidate(service, name, P99Ms, baseline, recent, k, c, Regime, c.dwellRegime) == Some(cand)
  {
    hide WindowCandidate;
    var regime := WindowCandidate(service, name, P99Ms, baseline, recent, k, c, Regime, c.dwellRegime);
    if regime.None? {
      CandidateOpens(service, name, P99Ms, baseline, recent, k, c, Seasonal, c.dwellSeasonal, cand);
    }
  }

  lemma SurgingIsLoad(dwell: nat, recent: seq<Row>, volume: map<int, Bucket>, c: Config)
    requires 0 < dwell <= |recent|
    requires forall i :: |recent| - dwell <= i < |recent| ==> Surging(recent[i], volume, c)
    ensures UnderLoad(dwell, recent, volume, c)
  {
    forall i | |recent| - dwell <= i < |recent| ensures SliceUnderLoad(recent[i], volume, c) {
      assert Surging(recent[i], volume, c);
      hide MedianOf, MetricValue;
    }
    hide SliceUnderLoad;
  }

  // Both windows end in the same slice: it cannot have risen and fallen.
  lemma SeasonalAgrees(
    service: string, name: string, baseline: map<int, Bucket>, recent: seq<Row>, k: Knobs, c: Config,
    cand: Candidate, other: Candidate)
    requires WindowCandidate(service, name, P99Ms, baseline, recent, k, c, Regime, c.dwellRegime) == Some(cand)
    requires WindowCandidate(service, name, P99Ms, baseline, recent, k, c, Seasonal, c.dwellSeasonal) == Some(other)
    requires cand.way == Rise && cand.baseline >= MAGNITUDE_EPS && c.seasonalZ > 0.0
    ensures other.way == Rise && 0 < other.dwell <= |recent| && other.dwell == c.dwellSeasonal
  {
    hide *;
    WindowIsSound(service, name, P99Ms, baseline, recent, k, c, Regime, cand);
    WindowIsSound(service, name, P99Ms, baseline, recent, k, c, Seasonal, other);
    CandidateOpens(service, name, P99Ms, baseline, recent, k, c, Regime, c.dwellRegime, cand);
    CandidateOpens(service, name, P99Ms, baseline, recent, k, c, Seasonal, c.dwellSeasonal, other);
    SlicesExist(other, P99Ms, baseline, recent, c);
    RiseIsRise(cand, other, k, c);
  }

  lemma SlicesExist(cand: Candidate, m: Metric, baseline: map<int, Bucket>, recent: seq<Row>, c: Config)
    requires AllSlicesMoved(cand, m, baseline, recent, c)
    ensures 0 < cand.dwell <= |recent|
  {
    hide Moved;
  }

  lemma RiseIsRise(cand: Candidate, other: Candidate, k: Knobs, c: Config)
    requires Sound(cand, P99Ms, k, c) && Sound(other, P99Ms, k, c) && cand.signal == Regime && other.signal == Seasonal
    requires cand.way == Rise && cand.baseline >= MAGNITUDE_EPS && c.seasonalZ > 0.0
    requires cand.baseline == other.baseline && cand.current == other.current
    ensures other.way == Rise
  {
    ProductOrder(1.0, c.regimeRatio, cand.baseline);
  }
}
