// Judging a service's window against its seasonal buckets, the batch gate with
// its lazy read, the fleet loop and the storm cap.
module BehaviourScan {
  import opened Problems
  import opened Sorting
  import opened Collecting
  import opened Baseline
  import opened Decision
  import opened Behaviour

  // The settings of the behaviour engine; score ranks candidates.
  datatype Config = Config(
    minSamples: nat, minRepeats: nat, seasonalZ: real, regimeRatio: real,
    dwellRegime: int, dwellSeasonal: int, spikyBandFactor: real,
    minP99: real, minErrorRate: real,
    highVolumeOn: bool, highVolumeErrorsPerSec: real, highVolumeMinErrorRate: real,
    maxCandidates: int, score: (real, real) -> real)

  datatype Signal = Regime | Seasonal

  datatype Way = Rise | Fall

  datatype Candidate = Candidate(
    service: string, metric: string, signal: Signal, way: Way, ratio: real, z: real,
    baseline: real, current: real, how: int, dwell: nat, onset: int, spans: nat, score: real)

  // ----- quantiles -----

  function Floor(x: real): int { x.Floor }

  // Linear interpolation between the two ranks next to a position.
  function Interpolate(s: seq<real>, pos: real): real
    requires s != [] && 0.0 <= pos
  {
    var lo := Floor(pos);
    if lo >= |s| - 1 then s[|s| - 1] else s[lo] + (pos - (lo as real)) * (s[lo + 1] - s[lo])
  }

  // The position of a quantile among n samples.
  function Position(q: real, n: nat): real
    requires n > 0
  {
    q * ((n - 1) as real)
  }

  lemma PositionInRange(q: real, n: nat)
    requires 0.0 <= q && n > 0
    ensures 0.0 <= Position(q, n)
    ensures q <= 1.0 ==> Position(q, n) <= (n - 1) as real
  {}

  function QuantileOf(xs: seq<real>, q: real): real
    requires 0.0 <= q
  {
    if |xs| == 0 then 0.0
    else
      SortPermutes(xs, Below);
      PositionInRange(q, |xs|);
      Interpolate(Sort(xs, Below), Position(q, |xs|))
  }

  predicate AboveSpikyBand(v: real, values: seq<real>, factor: real) {
    factor <= 0.0 || values == [] || v > factor * QuantileOf(values, 0.9)
  }

  lemma Interpolated(s: seq<real>, pos: real)
    requires s != [] && 0.0 <= pos <= (|s| - 1) as real && SortedBy(s, Below)
    ensures 0 <= Floor(pos) < |s| && s[Floor(pos)] <= Interpolate(s, pos)
  {
    var lo := Floor(pos);
    if lo < |s| - 1 {
      assert !Below(s[lo + 1], s[lo]);
      Product(pos - (lo as real), s[lo + 1] - s[lo]);
    }
  }

  lemma Product(a: real, b: real)
    requires 0.0 <= a && 0.0 <= b
    ensures 0.0 <= a * b
  {}

  // A quantile is at least as high as that share of the samples: a value above
  // the p90 of an hour exceeds nine tenths of what the hour has seen.
  lemma QuantileCovers(xs: seq<real>, q: real, low: real)
    requires xs != [] && 0.0 <= q <= 1.0 && forall x :: x in xs ==> low <= x
    ensures CountIn(xs, low, QuantileOf(xs, q)) >= Floor(Position(q, |xs|)) + 1
  {
    var s, pos := Sort(xs, Below), Position(q, |xs|);
    SortFacts(xs);
    PositionInRange(q, |xs|);
    assert QuantileOf(xs, q) == Interpolate(s, pos);
    hide *;
    Interpolated(s, pos);
    CountUpToRank(xs, Floor(pos), low);
    CountGrows(xs, low, s[Floor(pos)], Interpolate(s, pos));
  }

  function Ceiling(x: real): int { -((-x).Floor) }

  // The alert engine's own interpolation over samples that are sorted already.
  function InterpolateBetween(s: seq<real>, pos: real): real
    requires s != [] && 0.0 <= pos <= (|s| - 1) as real
  {
    var lo, up := Floor(pos), Ceiling(pos);
    var hi := if up >= |s| then |s| - 1 else up;
    s[lo] + (s[hi] - s[lo]) * (pos - (lo as real))
  }

  function AlertQuantile(sorted: seq<real>, q: real): real
    requires 0.0 <= q <= 1.0
  {
    if |sorted| == 0 then 0.0
    else
      PositionInRange(q, |sorted|);
      InterpolateBetween(sorted, Position(q, |sorted|))
  }

  lemma SameInterpolation(s: seq<real>, pos: real)
    requires s != [] && 0.0 <= pos <= (|s| - 1) as real
    ensures InterpolateBetween(s, pos) == Interpolate(s, pos)
  {
    var lo := Floor(pos);
    assert Ceiling(pos) == if pos == (lo as real) then lo else lo + 1;
    if pos == (lo as real) {
      assert pos - (lo as real) == 0.0;
    } else {
      Commutes(s[lo + 1] - s[lo], pos - (lo as real));
    }
  }

  lemma Commutes(a: real, b: real)
    ensures a * b == b * a
  {}

  // The two quantiles of the program are the same.
  lemma QuantilesAgree(xs: seq<real>, q: real)
    requires 0.0 <= q <= 1.0
    ensures AlertQuantile(Sort(xs, Below), q) == QuantileOf(xs, q)
  {
    SortFacts(xs);
    if |xs| > 0 {
      PositionInRange(q, |xs|);
      hide Sort, Interpolate, InterpolateBetween, Position;
      SameInterpolation(Sort(xs, Below), Position(q, |xs|));
    }
  }

  // ----- one slice of the window -----

  predicate Sufficient(b: Bucket, c: Config) { |b.values| >= c.minSamples && b.repeats >= c.minRepeats }

  function Fires(signal: Signal, z: real, ratio: real, c: Config): Option<Way> {
    match signal
    case Regime =>
      if c.regimeRatio <= 1.0 then None
      else if ratio >= c.regimeRatio then Some(Rise)
      else if ratio <= 1.0 / c.regimeRatio then Some(Fall)
      else None
    case Seasonal => if z >= c.seasonalZ then Some(Rise) else if z <= -c.seasonalZ then Some(Fall) else None
  }

  function Mid(b: Bucket): real { MedianMAD(b.values).0 }

  function SliceZ(m: Metric, b: Bucket, v: real, minMAD: real): real {
    Score(v, Mid(b), EffectiveMAD(m, Mid(b), MedianMAD(b.values).1, minMAD))
  }

  function SliceRatio(b: Bucket, v: real): real { v / Max(Abs(Mid(b)), MAGNITUDE_EPS) }

  // The slice has enough history, moved this way, and a rise is above the band
  // its hour has always had.
  predicate SliceMoves(m: Metric, baseline: map<int, Bucket>, r: Row, k: Knobs, c: Config, signal: Signal, way: Way) {
    var b, v := BucketAt(baseline, r.how), MetricValue(m, r);
    && Sufficient(b, c)
    && Fires(signal, SliceZ(m, b, v, k.minMAD), SliceRatio(b, v), c) == Some(way)
    && (way == Rise ==> AboveSpikyBand(v, b.values, c.spikyBandFactor))
  }

  predicate HighVolumeErrors(m: Metric, window: seq<Row>, c: Config) {
    && m == ErrorRate && c.highVolumeOn && c.highVolumeErrorsPerSec > 0.0 && window != []
    && forall i :: 0 <= i < |window| ==> (window[i].errs as real) / 300.0 >= c.highVolumeErrorsPerSec
  }

  function OwnFloor(m: Metric, c: Config): real {
    match m case P99Ms => c.minP99 case ErrorRate => c.minErrorRate case _ => 0.0
  }

  function Smaller(a: real, b: real): real { if a < b then a else b }

  // The last slice matters in absolute terms.
  predicate Matters(m: Metric, window: seq<Row>, median: real, value: real, way: Way, k: Knobs, c: Config) {
    var lowered := way == Rise && HighVolumeErrors(m, window, c);
    var shared := if lowered then Smaller(k.absFloor, c.highVolumeMinErrorRate) else k.absFloor;
    var own := if lowered then Smaller(OwnFloor(m, c), c.highVolumeMinErrorRate) else OwnFloor(m, c);
    && RelativeChange(value, median) >= k.floorPct
    && (k.minAbsDelta > 0.0 ==> Abs(value - median) >= k.minAbsDelta)
    && (way == Rise && shared > 0.0 ==> value >= shared)
    && (own > 0.0 ==> value >= own)
  }

  predicate AllMove(
    m: Metric, baseline: map<int, Bucket>, window: seq<Row>, k: Knobs, c: Config, signal: Signal, way: Way)
  {
    forall i :: 0 <= i < |window| ==> SliceMoves(m, baseline, window[i], k, c, signal, way)
  }

  // The window of a signal opens this way: every slice moved so, and the last
  // one matters.
  predicate Opens(
    m: Metric, baseline: map<int, Bucket>, recent: seq<Row>, k: Knobs, c: Config, signal: Signal, dwell: int, way: Way)
  {
    && 0 < dwell <= |recent|
    && AllMove(m, baseline, recent[|recent| - dwell..], k, c, signal, way)
    && var last := recent[|recent| - 1];
       Matters(m, recent[|recent| - dwell..], Mid(BucketAt(baseline, last.how)), MetricValue(m, last), way, k, c)
  }

  function SpansOf(window: seq<Row>): nat {
    if window == [] then 0 else SpansOf(window[..|window| - 1]) + window[|window| - 1].spans
  }

  function CandidateOf(
    service: string, name: string, m: Metric, baseline: map<int, Bucket>, recent: seq<Row>, k: Knobs, c: Config,
    signal: Signal, dwell: int, way: Way): Candidate
    requires 0 < dwell <= |recent|
  {
    var last := recent[|recent| - 1];
    var b, v := BucketAt(baseline, last.how), MetricValue(m, last);
    var z, ratio := SliceZ(m, b, v, k.minMAD), SliceRatio(b, v);
    Candidate(service, name, signal, way, ratio, z, Mid(b), v, last.how, dwell, recent[|recent| - dwell].unix,
              SpansOf(recent[|recent| - dwell..]), c.score(z, ratio))
  }

  // What a window yields: the specification of EvalBehaviorWindow.
  function WindowCandidate(
    service: string, name: string, m: Metric, baseline: map<int, Bucket>, recent: seq<Row>, k: Knobs, c: Config,
    signal: Signal, dwell: int): Option<Candidate>
  {
    if Opens(m, baseline, recent, k, c, signal, dwell, Rise) then
      Some(CandidateOf(service, name, m, baseline, recent, k, c, signal, dwell, Rise))
    else if Opens(m, baseline, recent, k, c, signal, dwell, Fall) then
      Some(CandidateOf(service, name, m, baseline, recent, k, c, signal, dwell, Fall))
    else None
  }

  method HighVolume(m: Metric, window: seq<Row>, c: Config) returns (r: bool)
    ensures r == HighVolumeErrors(m, window, c)
  {
    if m != ErrorRate || !c.highVolumeOn || c.highVolumeErrorsPerSec <= 0.0 || |window| == 0 {
      return false;
    }
    for i := 0 to |window|
      invariant forall j :: 0 <= j < i ==> (window[j].errs as real) / 300.0 >= c.highVolumeErrorsPerSec
    {
      if (window[i].errs as real) / 300.0 < c.highVolumeErrorsPerSec {
        return false;
      }
    }
    r := true;
  }

  method LastMatters(
    m: Metric, window: seq<Row>, median: real, value: real, way: Way, k: Knobs, c: Config)
    returns (r: bool)
    ensures r == Matters(m, window, median, value, way, k, c)
  {
    var absDelta := Abs(value - median);
    if absDelta / Max(Abs(median), MAGNITUDE_EPS) < k.floorPct {
      return false;
    }
    if k.minAbsDelta > 0.0 && absDelta < k.minAbsDelta {
      return false;
    }
    var sharedFloor, ownFloor := k.absFloor, OwnFloor(m, c);
    var highVolume := HighVolume(m, window, c);
    if way == Rise && highVolume {
      sharedFloor := Smaller(sharedFloor, c.highVolumeMinErrorRate);
      ownFloor := Smaller(ownFloor, c.highVolumeMinErrorRate);
    }
    if way == Rise && sharedFloor > 0.0 && value < sharedFloor {
      return false;
    }
    r := !(ownFloor > 0.0 && value < ownFloor);
  }

  // The direction of one slice, if it has one.
  method SliceWay(
    m: Metric, baseline: map<int, Bucket>, r: Row, k: Knobs, c: Config, signal: Signal)
    returns (way: Option<Way>)
    ensures forall w :: way == Some(w) <==> SliceMoves(m, baseline, r, k, c, signal, w)
  {
    var b, v := BucketAt(baseline, r.how), MetricValue(m, r);
    hide AboveSpikyBand, Sufficient, Fires, SliceZ, SliceRatio, MetricValue, BucketAt;
    if !Sufficient(b, c) {
      return None;
    }
    var d := Fires(signal, SliceZ(m, b, v, k.minMAD), SliceRatio(b, v), c);
    if d == Some(Rise) && !AboveSpikyBand(v, b.values, c.spikyBandFactor) {
      return None;
    }
    way := d;
  }

  // The direction all slices of a window share, if they do.
  method WindowWay(m: Metric, baseline: map<int, Bucket>, window: seq<Row>, k: Knobs, c: Config, signal: Signal)
    returns (way: Option<Way>, spans: nat)
    requires window != []
    ensures forall w :: way == Some(w) <==> AllMove(m, baseline, window, k, c, signal, w)
    ensures way.Some? ==> spans == SpansOf(window)
  {
    way, spans := None, 0;
    hide *;
    NoSpans(window);
    for i := 0 to |window|
      invariant i == 0 ==> way.None?
      invariant i > 0 ==>
                  way.Some? && forall w :: way == Some(w) <==> AllMove(m, baseline, window[..i], k, c, signal, w)
      invariant spans == SpansOf(window[..i])
    {
      var d := SliceWay(m, baseline, window[i], k, c, signal);
      MoveNext(m, baseline, window, i, k, c, signal);
      SpansNext(window, i);
      if d.None? || (i > 0 && d != way) {
        MoveWhole(m, baseline, window, i + 1, k, c, signal);
        return None, 0;
      }
      way := d;
      spans := spans + window[i].spans;
    }
    assert window[..|window|] == window;
  }

  lemma NoSpans(window: seq<Row>)
    ensures SpansOf(window[..0]) == 0
  {}

  lemma SpansNext(window: seq<Row>, i: nat)
    requires i < |window|
    ensures SpansOf(window[..i + 1]) == SpansOf(window[..i]) + window[i].spans
  {
    assert window[..i + 1][..i] == window[..i];
  }

  lemma MoveNext(m: Metric, baseline: map<int, Bucket>, window: seq<Row>, i: nat, k: Knobs, c: Config, signal: Signal)
    requires i < |window|
    ensures forall w ::
              AllMove(m, baseline, window[..i + 1], k, c, signal, w)
              <==> (AllMove(m, baseline, window[..i], k, c, signal, w)
                    && SliceMoves(m, baseline, window[i], k, c, signal, w))
    ensures i == 0 ==> forall w :: AllMove(m, baseline, window[..i], k, c, signal, w)
  {
    hide SliceMoves;
    assert window[..i + 1] == window[..i] + [window[i]];
  }

  lemma MoveWhole(m: Metric, baseline: map<int, Bucket>, window: seq<Row>, n: nat, k: Knobs, c: Config, signal: Signal)
    requires n <= |window|
    ensures forall w :: AllMove(m, baseline, window, k, c, signal, w) ==>
              AllMove(m, baseline, window[..n], k, c, signal, w)
  {
    hide SliceMoves;
    assert forall i :: 0 <= i < n ==> window[..n][i] == window[i];
  }

  method EvalBehaviorWindow(
    service: string, name: string, m: Metric, baseline: map<int, Bucket>, recent: seq<Row>, k: Knobs, c: Config,
    signal: Signal, dwell: int)
    returns (r: Option<Candidate>)
    ensures r == WindowCandidate(service, name, m, baseline, recent, k, c, signal, dwell)
  {
    if dwell <= 0 || |recent| < dwell {
      return None;
    }
    hide *;
    var window := recent[|recent| - dwell..];
    var way, spans := WindowWay(m, baseline, window, k, c, signal);
    WindowIs(service, name, m, baseline, recent, k, c, signal, dwell, way);
    if way.None? {
      return None;
    }
    var last := recent[|recent| - 1];
    var b, v := BucketAt(baseline, last.how), MetricValue(m, last);
    var matters := LastMatters(m, window, Mid(b), v, way.value, k, c);
    if !matters {
      return None;
    }
    var z, ratio := SliceZ(m, b, v, k.minMAD), SliceRatio(b, v);
    CandidateIs(service, name, m, baseline, recent, k, c, signal, dwell, way.value);
    r := Some(Candidate(service, name, signal, way.value, ratio, z, Mid(b), v, last.how, dwell, window[0].unix, spans,
                        c.score(z, ratio)));
  }

  lemma WindowIs(
    service: string, name: string, m: Metric, baseline: map<int, Bucket>, recent: seq<Row>, k: Knobs, c: Config,
    signal: Signal, dwell: int, way: Option<Way>)
    requires 0 < dwell <= |recent|
    requires forall w :: way == Some(w) <==> AllMove(m, baseline, recent[|recent| - dwell..], k, c, signal, w)
    ensures var last := recent[|recent| - 1];
            WindowCandidate(service, name, m, baseline, recent, k, c, signal, dwell)
            == if way.Some?
                  && Matters(m, recent[|recent| - dwell..], Mid(BucketAt(baseline, last.how)), MetricValue(m, last),
                             way.value, k, c)
               then Some(CandidateOf(service, name, m, baseline, recent, k, c, signal, dwell, way.value)) else None
  {
    hide AllMove, Matters, CandidateOf, Mid, MetricValue, BucketAt;
    var window := recent[|recent| - dwell..];
    var last := recent[|recent| - 1];
    forall w ensures Opens(m, baseline, recent, k, c, signal, dwell, w)
      <==> way == Some(w) && Matters(m, window, Mid(BucketAt(baseline, last.how)), MetricValue(m, last), w, k, c)
    {
      assert way == Some(w) <==> AllMove(m, baseline, window, k, c, signal, w);
    }
    hide Opens;
    assert way.Some? ==> way.value == Rise || way.value == Fall;
  }

  lemma CandidateIs(
    service: string, name: string, m: Metric, baseline: map<int, Bucket>, recent: seq<Row>, k: Knobs, c: Config,
    signal: Signal, dwell: int, way: Way)
    requires 0 < dwell <= |recent|
    ensures var last := recent[|recent| - 1];
            var b, v := BucketAt(baseline, last.how), MetricValue(m, last);
            var z, ratio := SliceZ(m, b, v, k.minMAD), SliceRatio(b, v);
            CandidateOf(service, name, m, baseline, recent, k, c, signal, dwell, way)
            == Candidate(service, name, signal, way, ratio, z, Mid(b), v, last.how, dwell,
                         recent[|recent| - dwell..][0].unix, SpansOf(recent[|recent| - dwell..]), c.score(z, ratio))
  {
    hide SliceZ, SliceRatio, Mid, MetricValue, BucketAt, SpansOf;
  }

  // ----- both signals -----

  predicate Heard(recent: seq<Row>, k: Knobs) {
    recent != [] && (k.minBaselineRate <= 0.0 || MetricValue(RequestRate, recent[|recent| - 1]) >= k.minBaselineRate)
  }

  // The verdict on a service and metric: the lasting shift before the seasonal
  // one, and nothing under the volume floor.
  function Judged(
    service: string, name: string, m: Metric, baseline: map<int, Bucket>, recent: seq<Row>, k: Knobs, c: Config)
    : Option<Candidate>
  {
    if !Heard(recent, k) then None
    else
      var regime := WindowCandidate(service, name, m, baseline, recent, k, c, Regime, c.dwellRegime);
      if regime.Some? then regime
      else WindowCandidate(service, name, m, baseline, recent, k, c, Seasonal, c.dwellSeasonal)
  }

  method EvalBehavior(
    service: string, name: string, m: Metric, baseline: map<int, Bucket>, recent: seq<Row>, k: Knobs, c: Config)
    returns (r: Option<Candidate>)
    ensures r == Judged(service, name, m, baseline, recent, k, c)
  {
    hide WindowCandidate;
    if |recent| == 0 {
      return None;
    }
    var rate := MetricValue(RequestRate, recent[|recent| - 1]);
    if k.minBaselineRate > 0.0 && rate < k.minBaselineRate {
      return None;
    }
    r := EvalBehaviorWindow(service, name, m, baseline, recent, k, c, Regime, c.dwellRegime);
    if r.Some? {
      return;
    }
    r := EvalBehaviorWindow(service, name, m, baseline, recent, k, c, Seasonal, c.dwellSeasonal);
  }

  // ----- the batch gate -----

  predicate SliceUnderLoad(r: Row, volume: map<int, Bucket>, c: Config) {
    && r.how in volume && Sufficient(volume[r.how], c)
    && BatchLoadSurge(MetricValue(RequestRate, r), MedianOf(volume[r.how].values))
  }

  // Every slice the candidate was judged on carried twice its usual load.
  predicate UnderLoad(dwell: nat, recent: seq<Row>, volume: map<int, Bucket>, c: Config) {
    && 0 < dwell <= |recent|
    && forall i :: |recent| - dwell <= i < |recent| ==> SliceUnderLoad(recent[i], volume, c)
  }

  method WindowUnderLoad(dwell: nat, recent: seq<Row>, volume: map<int, Bucket>, c: Config) returns (r: bool)
    ensures r == UnderLoad(dwell, recent, volume, c)
  {
    if dwell <= 0 || |recent| < dwell {
      return false;
    }
    hide MedianOf, MetricValue, Sufficient;
    for i := |recent| - dwell to |recent|
      invariant forall j :: |recent| - dwell <= j < i ==> SliceUnderLoad(recent[j], volume, c)
    {
      var row := recent[i];
      if row.how !in volume || !Sufficient(volume[row.how], c) {
        return false;
      }
      if !BatchLoadSurge(MetricValue(RequestRate, row), MedianOf(volume[row.how].values)) {
        return false;
      }
    }
    r := true;
  }

  // The load explains the candidate: a rise under load, and so is the seasonal
  // window beside a lasting one when it opens too.
  predicate ExplainedByLoad(
    cand: Candidate, m: Metric, baseline: map<int, Bucket>, recent: seq<Row>, volume: map<int, Bucket>, k: Knobs,
    c: Config)
  {
    && cand.way == Rise && UnderLoad(cand.dwell, recent, volume, c)
    && (cand.signal == Regime ==>
          var s := WindowCandidate(cand.service, cand.metric, m, baseline, recent, k, c, Seasonal, c.dwellSeasonal);
          s.Some? ==> s.value.way == Rise && UnderLoad(s.value.dwell, recent, volume, c))
  }

  // The services whose latency event is active, read at most once a tick and
  // only when a candidate is about to be muted. None stands for a failed read
  // or too many events: then nobody is muted.
  class ActiveEvents {
    const stored: Option<set<string>>
    var exempt: Option<Option<set<string>>>
    var fetches: nat

    ghost predicate Valid()
      reads this
    {
      && fetches == (if exempt.Some? then 1 else 0)
      && (exempt.Some? ==> exempt.value == stored)
    }

    constructor (stored: Option<set<string>>)
      ensures Valid() && fetches == 0 && this.stored == stored
    {
      this.stored, exempt, fetches := stored, None, 0;
    }

    predicate Exempts(service: string) { stored.None? || service in stored.value }

    method Active(service: string) returns (r: bool)
      requires Valid()
      modifies this
      ensures Valid() && fetches == 1 && r == Exempts(service)
    {
      if exempt.None? {
        exempt := Some(stored);
        fetches := fetches + 1;
      }
      r := exempt.value.None? || service in exempt.value.value;
    }

    // A candidate either stays as it is or goes; the events are read only for a
    // candidate that the load explains.
    method BatchLatencyGate(
      cand: Candidate, m: Metric, baseline: map<int, Bucket>, recent: seq<Row>, volume: map<int, Bucket>, k: Knobs,
      c: Config)
      returns (r: Option<Candidate>)
      requires Valid()
      modifies this
      ensures Valid()
      ensures r == if ExplainedByLoad(cand, m, baseline, recent, volume, k, c) && !Exempts(cand.service)
                   then None else Some(cand)
      ensures fetches == if ExplainedByLoad(cand, m, baseline, recent, volume, k, c) then 1 else old(fetches)
    {
      hide WindowCandidate, UnderLoad;
      var loaded := WindowUnderLoad(cand.dwell, recent, volume, c);
      if cand.way != Rise || !loaded {
        return Some(cand);
      }
      if cand.signal == Regime {
        var s := EvalBehaviorWindow(cand.service, cand.metric, m, baseline, recent, k, c, Seasonal, c.dwellSeasonal);
        if s.Some? {
          var seasonalLoaded := WindowUnderLoad(s.value.dwell, recent, volume, c);
          if s.value.way != Rise || !seasonalLoaded {
            return Some(cand);
          }
        }
      }
      var active := Active(cand.service);
      if active {
        return Some(cand);
      }
      r := None;
    }
  }

  // ----- the fleet -----

  datatype Fleet = Fleet(
    rows: map<string, seq<Row>>, cutoff: int, knobs: string -> Knobs, isBatch: string -> bool, config: Config)

  const METRICS := [("error_rate", ErrorRate), ("p99_ms", P99Ms), ("request_rate", RequestRate)]

  function JudgedAt(f: Fleet, service: string, name: string, m: Metric): Option<Candidate>
    requires service in f.rows
  {
    var rows := f.rows[service];
    Judged(service, name, m, SplitBaseline(rows, m, f.cutoff), Collect(rows, RecentStep(f.cutoff)),
           f.knobs(name), f.config)
  }

  // The load of a batch service mutes its latency candidate.
  predicate Muted(f: Fleet, exempt: string -> bool, cand: Candidate)
    requires cand.service in f.rows
  {
    var rows := f.rows[cand.service];
    && f.isBatch(cand.service) && cand.metric == "p99_ms" && !exempt(cand.service)
    && ExplainedByLoad(cand, P99Ms, SplitBaseline(rows, P99Ms, f.cutoff), Collect(rows, RecentStep(f.cutoff)),
                       SplitBaseline(rows, RequestRate, f.cutoff), f.knobs("p99_ms"), f.config)
  }

  // The candidate of one service and metric, if there is one.
  function CandidateAt(f: Fleet, exempt: string -> bool, service: string, name: string, m: Metric): Option<Candidate>
    requires service in f.rows
  {
    if name == "request_rate" && f.isBatch(service) then None
    else
      JudgedNames(f, service, name, m);
      var cand := JudgedAt(f, service, name, m);
      if cand.Some? && Muted(f, exempt, cand.value) then None else cand
  }

  lemma JudgedNames(f: Fleet, service: string, name: string, m: Metric)
    requires service in f.rows
    ensures JudgedAt(f, service, name, m).Some? ==>
              JudgedAt(f, service, name, m).value.service == service
                && JudgedAt(f, service, name, m).value.metric == name
  {
    hide Opens, SplitBaseline, Collect, SliceZ, SliceRatio, Mid, SpansOf, Heard;
  }

  // The batch gate only removes: a candidate is what the judgement said, and
  // only a batch service's latency rise under load is missing.
  lemma GateOnlyRemoves(f: Fleet, exempt: string -> bool, service: string, name: string, m: Metric)
    requires service in f.rows
    ensures CandidateAt(f, exempt, service, name, m).Some? ==>
              CandidateAt(f, exempt, service, name, m) == JudgedAt(f, service, name, m)
    ensures !f.isBatch(service) ==> CandidateAt(f, exempt, service, name, m) == JudgedAt(f, service, name, m)
    ensures name != "request_rate" && CandidateAt(f, exempt, service, name, m) != JudgedAt(f, service, name, m) ==>
              name == "p99_ms" && JudgedAt(f, service, name, m).value.way == Rise && !exempt(service)
  {
    JudgedNames(f, service, name, m);
    hide JudgedAt, Opens, SplitBaseline, Collect, UnderLoad, WindowCandidate;
  }

  ghost predicate SamePair(a: Candidate, b: Candidate) { a.service == b.service && a.metric == b.metric }

  ghost predicate Yields(f: Fleet, exempt: string -> bool, service: string, k: nat, cand: Candidate) {
    k < 3 && service in f.rows && CandidateAt(f, exempt, service, METRICS[k].0, METRICS[k].1) == Some(cand)
  }

  // The candidate of a service in done, or of the first k metrics of one more.
  ghost predicate InPart(f: Fleet, exempt: string -> bool, done: set<string>, service: string, k: nat, c: Candidate) {
    exists s: string, j: nat :: Yields(f, exempt, s, j, c) && (s in done || (s == service && j < k))
  }

  ghost predicate IsPart(
    cands: seq<Candidate>, f: Fleet, exempt: string -> bool, done: set<string>, service: string, k: nat)
  {
    Apart(cands, SamePair) && forall c :: c in cands <==> InPart(f, exempt, done, service, k, c)
  }

  ghost predicate InFleet(f: Fleet, exempt: string -> bool, c: Candidate) {
    exists s: string, j: nat :: Yields(f, exempt, s, j, c)
  }

  // The candidates of the whole fleet, each once.
  ghost predicate IsFleet(cands: seq<Candidate>, f: Fleet, exempt: string -> bool) {
    Apart(cands, SamePair) && forall c :: c in cands <==> InFleet(f, exempt, c)
  }

  lemma YieldsNames(f: Fleet, exempt: string -> bool, s: string, j: nat, c: Candidate)
    requires Yields(f, exempt, s, j, c)
    ensures c.service == s && c.metric == METRICS[j].0
  {
    JudgedNames(f, s, METRICS[j].0, METRICS[j].1);
    hide JudgedAt, Muted;
  }

  lemma MetricsDiffer(i: nat, j: nat)
    requires i < 3 && j < 3 && METRICS[i].0 == METRICS[j].0
    ensures i == j
  {}

  lemma PartGrows(
    cands: seq<Candidate>, f: Fleet, exempt: string -> bool, done: set<string>, service: string, k: nat,
    next: Option<Candidate>)
    requires IsPart(cands, f, exempt, done, service, k) && k < 3 && service in f.rows && service !in done
    requires next == CandidateAt(f, exempt, service, METRICS[k].0, METRICS[k].1)
    ensures IsPart(cands + (if next.Some? then [next.value] else []), f, exempt, done, service, k + 1)
  {
    hide *;
    PartParts(cands, f, exempt, done, service, k);
    var more := if next.Some? then [next.value] else [];
    forall c ensures c in cands + more <==> InPart(f, exempt, done, service, k + 1, c) {
      OneMoreMetric(f, exempt, done, service, k, c);
    }
    forall i | next.Some? && 0 <= i < |cands| ensures !SamePair(cands[i], next.value) {
      OneMoreMetric(f, exempt, done, service, k, next.value);
      assert cands[i] in cands;
      NewPair(f, exempt, done, service, k, cands[i], next.value);
    }
    PartFormed(cands + more, f, exempt, done, service, k + 1, cands, next);
  }

  lemma PartParts(cands: seq<Candidate>, f: Fleet, exempt: string -> bool, done: set<string>, service: string, k: nat)
    requires IsPart(cands, f, exempt, done, service, k)
    ensures Apart(cands, SamePair) && forall c :: c in cands <==> InPart(f, exempt, done, service, k, c)
  {}

  lemma PartFormed(
    all: seq<Candidate>, f: Fleet, exempt: string -> bool, done: set<string>, service: string, k: nat,
    cands: seq<Candidate>, next: Option<Candidate>)
    requires all == cands + (if next.Some? then [next.value] else [])
    requires Apart(cands, SamePair) && (next.Some? ==> forall i :: 0 <= i < |cands| ==> !SamePair(cands[i], next.value))
    requires forall c :: c in all <==> InPart(f, exempt, done, service, k, c)
    ensures IsPart(all, f, exempt, done, service, k)
  {
    hide InPart, SamePair;
  }

  lemma OneMoreMetric(f: Fleet, exempt: string -> bool, done: set<string>, service: string, k: nat, c: Candidate)
    requires k < 3 && service in f.rows
    ensures InPart(f, exempt, done, service, k + 1, c)
       <==> (InPart(f, exempt, done, service, k, c)
             || CandidateAt(f, exempt, service, METRICS[k].0, METRICS[k].1) == Some(c))
    ensures CandidateAt(f, exempt, service, METRICS[k].0, METRICS[k].1) == Some(c) <==> Yields(f, exempt, service, k, c)
  {
    hide CandidateAt;
    assert CandidateAt(f, exempt, service, METRICS[k].0, METRICS[k].1) == Some(c) <==> Yields(f, exempt, service, k, c);
  }

  lemma NewPair(
    f: Fleet, exempt: string -> bool, done: set<string>, service: string, k: nat, c: Candidate, d: Candidate)
    requires k < 3 && service !in done && InPart(f, exempt, done, service, k, c) && Yields(f, exempt, service, k, d)
    ensures !SamePair(c, d)
  {
    var s: string, j: nat :| Yields(f, exempt, s, j, c) && (s in done || (s == service && j < k));
    hide CandidateAt;
    YieldsNames(f, exempt, s, j, c);
    YieldsNames(f, exempt, service, k, d);
    if SamePair(c, d) {
      MetricsDiffer(j, k);
    }
  }

  lemma PartDone(
    cands: seq<Candidate>, f: Fleet, exempt: string -> bool, done: set<string>, service: string, service': string)
    requires IsPart(cands, f, exempt, done, service, 3)
    ensures IsPart(cands, f, exempt, done + {service}, service', 0)
  {
    hide CandidateAt, Apart;
    forall c ensures c in cands <==> InPart(f, exempt, done + {service}, service', 0, c) {
      WholeService(f, exempt, done, service, service', c);
    }
  }

  lemma WholeService(
    f: Fleet, exempt: string -> bool, done: set<string>, service: string, service': string, c: Candidate)
    ensures InPart(f, exempt, done, service, 3, c) <==> InPart(f, exempt, done + {service}, service', 0, c)
    ensures InPart(f, exempt, done, service, 0, c) <==> InPart(f, exempt, done, service', 0, c)
    ensures InPart(f, exempt, f.rows.Keys, service, 0, c) <==> InFleet(f, exempt, c)
  {
    hide CandidateAt;
  }

  lemma NothingYet(f: Fleet, exempt: string -> bool, service: string)
    ensures IsPart([], f, exempt, {}, service, 0)
  {
    hide Yields;
  }

  function ExemptOf(stored: Option<set<string>>): string -> bool {
    (s: string) => stored.None? || s in stored.value
  }

  lemma AnyService(
    cands: seq<Candidate>, f: Fleet, exempt: string -> bool, done: set<string>, service: string, service': string)
    requires IsPart(cands, f, exempt, done, service, 0)
    ensures IsPart(cands, f, exempt, done, service', 0)
  {
    hide InPart, Apart;
    forall c ensures c in cands <==> InPart(f, exempt, done, service', 0, c) {
      WholeService(f, exempt, done, service, service', c);
    }
  }

  lemma FleetDone(cands: seq<Candidate>, f: Fleet, exempt: string -> bool, service: string)
    requires IsPart(cands, f, exempt, f.rows.Keys, service, 0)
    ensures IsFleet(cands, f, exempt)
  {
    hide InPart, InFleet, Apart;
    forall c ensures c in cands <==> InFleet(f, exempt, c) {
      WholeService(f, exempt, {}, service, service, c);
    }
  }

  method MetricCandidate(f: Fleet, events: ActiveEvents, service: string, name: string, m: Metric)
    returns (cand: Option<Candidate>)
    requires events.Valid() && service in f.rows && ByTime(f.rows[service]) && (name == "p99_ms" ==> m == P99Ms)
    modifies events
    ensures events.Valid() && events.fetches <= 1
    ensures cand == CandidateAt(f, ExemptOf(events.stored), service, name, m)
  {
    var rows, k := f.rows[service], f.knobs(name);
    hide IsBucket, SplitBaseline, Judged, ExplainedByLoad, Collect, RecentStep;
    var baseline, recent := SplitBehaviorSeries(rows, m, f.cutoff);
    if name == "request_rate" && f.isBatch(service) {
      return None;
    }
    cand := EvalBehavior(service, name, m, baseline, recent, k, f.config);
    JudgedNames(f, service, name, m);
    if cand.Some? && f.isBatch(service) && name == "p99_ms" {
      var volume, _ := SplitBehaviorSeries(rows, RequestRate, f.cutoff);
      cand := events.BatchLatencyGate(cand.value, m, baseline, recent, volume, k, f.config);
    }
  }

  method ServiceCandidates(
    f: Fleet, events: ActiveEvents, service: string, cands0: seq<Candidate>, ghost done: set<string>)
    returns (cands: seq<Candidate>)
    requires events.Valid() && service in f.rows && ByTime(f.rows[service]) && service !in done
    requires IsPart(cands0, f, ExemptOf(events.stored), done, service, 0)
    modifies events
    ensures events.Valid() && events.fetches <= 1
    ensures IsPart(cands, f, ExemptOf(events.stored), done, service, 3)
  {
    cands := cands0;
    hide IsPart, CandidateAt, ByTime, ExemptOf;
    for k := 0 to 3
      invariant events.Valid() && events.fetches <= 1
      invariant IsPart(cands, f, ExemptOf(events.stored), done, service, k)
    {
      var next := MetricCandidate(f, events, service, METRICS[k].0, METRICS[k].1);
      PartGrows(cands, f, ExemptOf(events.stored), done, service, k, next);
      cands := cands + if next.Some? then [next.value] else [];
    }
  }

  // Services in any order; the active events are read at most once for all.
  method BehaviorFleetCandidates(f: Fleet, events: ActiveEvents) returns (cands: seq<Candidate>)
    requires events.Valid()
    requires forall s :: s in f.rows ==> ByTime(f.rows[s])
    modifies events
    ensures events.Valid() && events.fetches <= 1
    ensures IsFleet(cands, f, ExemptOf(events.stored))
  {
    cands := [];
    ghost var exempt := ExemptOf(events.stored);
    hide ExemptOf;
    var todo := f.rows.Keys;
    NothingYet(f, exempt, "");
    hide IsPart;
    ghost var done := {};
    ghost var at := "";
    while todo != {}
      invariant todo <= f.rows.Keys && done == f.rows.Keys - todo
      invariant events.Valid() && IsPart(cands, f, exempt, done, at, 0)
      decreases todo
    {
      var service :| service in todo;
      AnyService(cands, f, exempt, done, at, service);
      cands := ServiceCandidates(f, events, service, cands, done);
      PartDone(cands, f, exempt, done, service, service);
      at := service;
      todo, done := todo - {service}, done + {service};
    }
    assert done == f.rows.Keys;
    FleetDone(cands, f, exempt, at);
  }

  // ----- the storm cap -----

  // Stronger first, then by service and metric.
  predicate CandBefore(a: Candidate, b: Candidate) {
    if a.score != b.score then a.score > b.score
    else if a.service != b.service then StringLess(a.service, b.service)
    else StringLess(a.metric, b.metric)
  }

  lemma CandOrder()
    ensures WeakOrder(CandBefore)
    ensures forall a: Candidate, b: Candidate :: !SamePair(a, b) ==> CandBefore(a, b) || CandBefore(b, a)
  {
    StringOrder();
  }

  function CapLength(n: nat, max: int): nat { if max > 0 && n > max then max else n }

  // kept is the top of cands: no dropped candidate ranks before a kept one.
  ghost predicate IsCapped(kept: seq<Candidate>, cands: seq<Candidate>, max: int) {
    exists ranked :: multiset(ranked) == multiset(cands) && SortedBy(ranked, CandBefore)
      && |ranked| == |cands| && kept == ranked[..CapLength(|cands|, max)]
  }

  method CapBehaviorCandidates(cands: seq<Candidate>, max: int) returns (kept: seq<Candidate>)
    ensures IsCapped(kept, cands, max)
  {
    CandOrder();
    var ranked := SortSlice(cands, CandBefore);
    assert |ranked| == |multiset(ranked)| == |multiset(cands)| == |cands|;
    if max > 0 && |ranked| > max {
      return ranked[..max];
    }
    assert ranked[..|ranked|] == ranked;
    kept := ranked;
  }

  // What the cap drops never outranks what it keeps, and nothing is made up.
  lemma CapKeepsTop(kept: seq<Candidate>, cands: seq<Candidate>, max: int)
    requires IsCapped(kept, cands, max)
    ensures |kept| == CapLength(|cands|, max) && multiset(kept) <= multiset(cands)
    ensures forall d, k :: d in multiset(cands) - multiset(kept) && k in kept ==>
              !CandBefore(d, k) && d.score <= k.score
  {
    var ranked :| multiset(ranked) == multiset(cands) && SortedBy(ranked, CandBefore)
      && |ranked| == |cands| && kept == ranked[..CapLength(|cands|, max)];
    TopOf(ranked, CapLength(|cands|, max));
  }

  lemma TopOf(ranked: seq<Candidate>, n: nat)
    requires SortedBy(ranked, CandBefore) && n <= |ranked|
    ensures multiset(ranked[..n]) <= multiset(ranked)
    ensures forall d, k :: d in multiset(ranked) - multiset(ranked[..n]) && k in ranked[..n] ==> !CandBefore(d, k)
  {
    var kept, dropped := ranked[..n], ranked[n..];
    hide CandBefore;
    TopAndRest(ranked, n);
    forall d, k | d in dropped && k in kept ensures !CandBefore(d, k) {
      var i :| 0 <= i < |kept| && kept[i] == k;
      var j :| 0 <= j < |dropped| && dropped[j] == d;
      assert ranked[i] == k && ranked[n + j] == d;
    }
  }

  lemma TopAndRest(ranked: seq<Candidate>, n: nat)
    requires n <= |ranked|
    ensures multiset(ranked[..n]) <= multiset(ranked)
    ensures forall d :: d in multiset(ranked) - multiset(ranked[..n]) ==> d in ranked[n..]
  {
    assert ranked == ranked[..n] + ranked[n..];
    assert multiset(ranked) - multiset(ranked[..n]) == multiset(ranked[n..]);
  }

  lemma ApartHasNoRepeats(a: seq<Candidate>)
    requires Apart(a, SamePair)
    ensures NoRepeats(a)
  {
    forall i, j | 0 <= i < j < |a| ensures a[i] != a[j] {
      assert !SamePair(a[i], a[j]);
    }
  }

  // The capped list is the same for every order in which the services are
  // gone through.
  lemma CappedListIsUnique(
    f: Fleet, exempt: string -> bool, cands: seq<Candidate>, cands': seq<Candidate>, max: int,
    kept: seq<Candidate>, kept': seq<Candidate>)
    requires IsFleet(cands, f, exempt) && IsFleet(cands', f, exempt)
    requires IsCapped(kept, cands, max) && IsCapped(kept', cands', max)
    ensures kept == kept'
  {
    SameFleet(f, exempt, cands, cands');
    var ranked := RankedOf(kept, cands, max);
    var ranked' := RankedOf(kept', cands', max);
    CandOrder();
    hide *;
    DistinctPermutes(cands, ranked, CandBefore);
    SortedUnique(ranked, ranked', CandBefore);
  }

  lemma RankedOf(kept: seq<Candidate>, cands: seq<Candidate>, max: int) returns (ranked: seq<Candidate>)
    requires IsCapped(kept, cands, max)
    ensures multiset(ranked) == multiset(cands) && SortedBy(ranked, CandBefore) && |ranked| == |cands|
    ensures CapLength(|cands|, max) <= |ranked| && kept == ranked[..CapLength(|cands|, max)]
  {
    hide CandBefore;
    ranked :| multiset(ranked) == multiset(cands) && SortedBy(ranked, CandBefore)
      && |ranked| == |cands| && kept == ranked[..CapLength(|cands|, max)];
  }

  lemma SameFleet(f: Fleet, exempt: string -> bool, cands: seq<Candidate>, cands': seq<Candidate>)
    requires IsFleet(cands, f, exempt) && IsFleet(cands', f, exempt)
    ensures multiset(cands) == multiset(cands') && DistinctBy(cands, CandBefore)
  {
    hide InFleet;
    ApartHasNoRepeats(cands);
    ApartHasNoRepeats(cands');
    forall c ensures c in cands <==> c in cands' {
      assert c in cands <==> InFleet(f, exempt, c);
    }
    PermutesWithoutRepeats(cands, cands');
    CandOrder();
    hide CandBefore;
    forall i, j | 0 <= i < j < |cands| ensures CandBefore(cands[i], cands[j]) || CandBefore(cands[j], cands[i]) {
      assert !SamePair(cands[i], cands[j]);
    }
  }
}
