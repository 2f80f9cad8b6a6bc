// The open / resolve decision for one metric of one service: the sensitivity
// gates, the dwell window, and the hysteresis between opening and resolving.
module Decision {
  import opened Baseline

  const OPEN_Z := 3.5
  const RESOLVE_Z := 1.5
  const MAD_SCALE := 0.6745
  const MAGNITUDE_EPS := 0.000000001

  datatype Metric = ErrorRate | P99Ms | RequestRate | ConsumerLag | External(name: string) | Other(name: string)

  datatype Direction = Up | Down | Both

  // Which side of the baseline counts as an incident is the metric's meaning,
  // not a setting.
  function DirectionFor(m: Metric): Direction {
    match m
    case ErrorRate | P99Ms | ConsumerLag | External(_) => Up
    case RequestRate | Other(_) => Both
  }

  // The operator's sensitivity settings for one metric.
  datatype Knobs = Knobs(
    floorPct: real, absFloor: real, minAbsDelta: real, minMAD: real,
    minBaselineRate: real, criticalZ: real)

  function Max(a: real, b: real): real { if a < b then b else a }

  // Keeps the score defined for a history that never moved.
  function FlatMADFloor(m: Metric, median: real): real {
    match m
    case External(_) => Max(1.0, 0.05 * Abs(median))
    case ErrorRate => 0.5
    case P99Ms => Max(1.0, 0.05 * Abs(median))
    case RequestRate => Max(0.1, 0.05 * Abs(median))
    case ConsumerLag | Other(_) => Max(0.001, 0.05 * Abs(median))
  }

  function EffectiveMAD(m: Metric, median: real, mad: real, minMAD: real): (r: real)
    ensures r > 0.0 && r >= minMAD && (mad >= MAGNITUDE_EPS ==> r >= mad)
  {
    var floored := if mad < MAGNITUDE_EPS then FlatMADFloor(m, median) else mad;
    if minMAD > 0.0 then Max(floored, minMAD) else floored
  }

  function Score(v: real, median: real, mad: real): real
    requires mad > 0.0
  {
    MAD_SCALE * (v - median) / mad
  }

  datatype Move = Spiked | Dropped

  // A sample either opens (always at critical severity) or stays quiet.
  datatype Verdict = Quiet | Opens(move: Move)

  function RelativeChange(current: real, median: real): real {
    Abs(current - median) / Max(Abs(median), MAGNITUDE_EPS)
  }

  predicate Departs(d: Direction, z: real) {
    match d
    case Up => z >= OPEN_Z
    case Down => z <= -OPEN_Z
    case Both => Abs(z) >= OPEN_Z
  }

  function DecideAnomaly(m: Metric, z: real, current: real, median: real, d: Direction, k: Knobs): Verdict {
    var absDelta := Abs(current - median);
    if !Departs(d, z) || RelativeChange(current, median) < k.floorPct then Quiet
    else if k.minAbsDelta > 0.0 && absDelta < k.minAbsDelta then Quiet
    else if z > 0.0 && k.absFloor > 0.0 && current < k.absFloor then Quiet
    else
      var dropped := z < 0.0;
      var critical := Abs(z) >= k.criticalZ || (m == RequestRate && dropped);
      if !critical then Quiet else Opens(if dropped then Dropped else Spiked)
  }

  datatype Blocker =
    BlockDirection | BlockFloorPct | BlockAbsDelta | BlockAbsFloor | BlockCritical | BlockFlip | NoBlocker

  // The explanation twin of DecideAnomaly: the first gate that stops a sample.
  function DecideBlocker(m: Metric, z: real, current: real, median: real, d: Direction, k: Knobs): Blocker {
    if !Departs(d, z) then BlockDirection
    else if RelativeChange(current, median) < k.floorPct then BlockFloorPct
    else if k.minAbsDelta > 0.0 && Abs(current - median) < k.minAbsDelta then BlockAbsDelta
    else if z > 0.0 && k.absFloor > 0.0 && current < k.absFloor then BlockAbsFloor
    else if Abs(z) < k.criticalZ && !(m == RequestRate && z < 0.0) then BlockCritical
    else NoBlocker
  }

  predicate ResolvedFor(m: Metric, z: real) {
    match DirectionFor(m)
    case Up => z <= RESOLVE_Z
    case Down => z >= -RESOLVE_Z
    case Both => Abs(z) <= RESOLVE_Z
  }

  function SampleVerdict(m: Metric, median: real, mad: real, v: real, d: Direction, k: Knobs): Verdict
    requires mad > 0.0
  {
    DecideAnomaly(m, Score(v, median, mad), v, median, d, k)
  }

  // Every sample opens, all in the same direction.
  predicate AllOpen(m: Metric, median: real, mad: real, window: seq<real>, d: Direction, k: Knobs)
    requires mad > 0.0
  {
    && window != []
    && SampleVerdict(m, median, mad, window[0], d, k).Opens?
    && forall i :: 0 < i < |window| ==>
         SampleVerdict(m, median, mad, window[i], d, k) == SampleVerdict(m, median, mad, window[0], d, k)
  }

  // Sample j stays quiet or moves against sample 0.
  predicate StopsAt(m: Metric, median: real, mad: real, window: seq<real>, j: nat, d: Direction, k: Knobs)
    requires mad > 0.0 && j < |window|
  {
    var v := SampleVerdict(m, median, mad, window[j], d, k);
    v == Quiet || v != SampleVerdict(m, median, mad, window[0], d, k)
  }

  method EvalWindow(m: Metric, median: real, mad: real, window: seq<real>, d: Direction, k: Knobs)
    returns (allOpen: bool, allResolved: bool, cur: Verdict)
    requires mad > 0.0
    ensures allOpen == AllOpen(m, median, mad, window, d, k)
    ensures allResolved ==
      (window != [] && forall i :: 0 <= i < |window| ==> ResolvedFor(m, Score(window[i], median, mad)))
    ensures cur == if window == [] then Quiet else SampleVerdict(m, median, mad, window[|window| - 1], d, k)
  {
    hide DecideAnomaly, ResolvedFor;
    if |window| == 0 {
      return false, false, Quiet;
    }
    allOpen, allResolved, cur := true, true, Quiet;
    var first := Quiet;
    var i := 0;
    while i < |window|
      invariant 0 <= i <= |window|
      invariant i > 0 ==> first == SampleVerdict(m, median, mad, window[0], d, k)
      invariant i > 0 ==> cur == SampleVerdict(m, median, mad, window[i - 1], d, k)
      invariant allOpen ==> forall j :: 0 <= j < i ==> SampleVerdict(m, median, mad, window[j], d, k).Opens?
      invariant allOpen ==> forall j :: 0 <= j < i ==> SampleVerdict(m, median, mad, window[j], d, k) == first
      invariant !allOpen ==> exists j :: 0 <= j < i && StopsAt(m, median, mad, window, j, d, k)
      invariant allResolved <==> forall j :: 0 <= j < i ==> ResolvedFor(m, Score(window[j], median, mad))
    {
      var zv := MAD_SCALE * (window[i] - median) / mad;
      var dv := DecideAnomaly(m, zv, window[i], median, d, k);
      cur := dv;
      if i == 0 {
        first := dv;
      }
      if !dv.Opens? || dv != first {
        assert StopsAt(m, median, mad, window, i, d, k);
        allOpen := false;
      }
      if !ResolvedFor(m, zv) {
        allResolved := false;
      }
      i := i + 1;
    }
  }

  // Sample j is the first that stops the window: by its own gate, or because it
  // moves against the samples before it.
  ghost predicate FirstStop(
    m: Metric, median: real, mad: real, window: seq<real>, j: int, d: Direction, k: Knobs, b: Blocker)
    requires mad > 0.0
  {
    && 0 <= j < |window|
    && (forall i :: 0 <= i < j ==> !StopsAt(m, median, mad, window, i, d, k))
    && StopsAt(m, median, mad, window, j, d, k)
    && b == if SampleVerdict(m, median, mad, window[j], d, k).Opens? then BlockFlip
            else DecideBlocker(m, Score(window[j], median, mad), window[j], median, d, k)
  }

  // The first gate that stops the window.
  method WindowBlocker(m: Metric, median: real, mad: real, window: seq<real>, d: Direction, k: Knobs)
    returns (b: Blocker)
    requires mad > 0.0
    ensures window != [] ==> (b == NoBlocker <==> AllOpen(m, median, mad, window, d, k))
    ensures b != NoBlocker ==> exists j :: FirstStop(m, median, mad, window, j, d, k, b)
  {
    hide DecideAnomaly, DecideBlocker;
    var move := Spiked;
    var i := 0;
    while i < |window|
      invariant 0 <= i <= |window|
      invariant forall j :: 0 <= j < i ==> SampleVerdict(m, median, mad, window[j], d, k) == Opens(move)
    {
      var zv := MAD_SCALE * (window[i] - median) / mad;
      b := DecideBlocker(m, zv, window[i], median, d, k);
      BlockerAgrees(m, zv, window[i], median, d, k);
      if b != NoBlocker {
        assert !SampleVerdict(m, median, mad, window[i], d, k).Opens?;
        assert FirstStop(m, median, mad, window, i, d, k, b);
        return;
      }
      var s := if zv < 0.0 then Dropped else Spiked;
      if i == 0 {
        move := s;
      } else if s != move {
        assert SampleVerdict(m, median, mad, window[0], d, k) == Opens(move);
        assert SampleVerdict(m, median, mad, window[i], d, k) == Opens(s);
        assert FirstStop(m, median, mad, window, i, d, k, BlockFlip);
        return BlockFlip;
      }
      i := i + 1;
    }
    b := NoBlocker;
  }

  // The two separately written gate chains agree on every sample.
  lemma BlockerAgrees(m: Metric, z: real, current: real, median: real, d: Direction, k: Knobs)
    ensures DecideBlocker(m, z, current, median, d, k) == NoBlocker
       <==> DecideAnomaly(m, z, current, median, d, k).Opens?
    ensures DecideAnomaly(m, z, current, median, d, k).Opens? ==>
            DecideAnomaly(m, z, current, median, d, k) == Opens(if z < 0.0 then Dropped else Spiked)
  {}

  datatype Action = ActOpen | ActResolve | ActNone

  // Hard to open (the whole window), fast to resolve (the newest bucket).
  function AnomalyAction(hasOpen: bool, allOpen: bool, m: Metric, latestZ: real): Action {
    if allOpen then ActOpen
    else if hasOpen && ResolvedFor(m, latestZ) then ActResolve
    else ActNone
  }

  // ----- batch load -----

  // Twice the usual load, when that is known.
  predicate BatchLoadSurge(cur: real, base: real) { base > 0.0 && cur >= 2.0 * base }

  // ----- sensitivity knobs -----

  // Every gate at least as strict.
  predicate AtLeastAsStrict(k: Knobs, k': Knobs) {
    && k.floorPct <= k'.floorPct && k.absFloor <= k'.absFloor && k.minAbsDelta <= k'.minAbsDelta
    && k.minMAD <= k'.minMAD && k.minBaselineRate <= k'.minBaselineRate && k.criticalZ <= k'.criticalZ
  }

  lemma ProductOrder(a: real, b: real, d: real)
    requires d > 0.0
    ensures a <= b <==> a * d <= b * d
    ensures a < b <==> a * d < b * d
  {
    assert (b - a) * d == b * d - a * d;
  }

  lemma DivisionGrows(x: real, y: real, d: real)
    requires d > 0.0
    ensures x <= y <==> x / d <= y / d
    ensures x < y <==> x / d < y / d
  {
    assert x / d * d == x && y / d * d == y;
    ProductOrder(x / d, y / d, d);
  }

  lemma DivisionShrinks(x: real, m: real, m': real)
    requires 0.0 < m <= m' && x >= 0.0
    ensures 0.0 <= x / m' <= x / m
    ensures x > 0.0 <==> x / m' > 0.0
  {
    DivisionGrows(0.0, x, m');
    var q, q' := x / m, x / m';
    assert q * m == x && q' * m' == x;
    assert q' * m <= q' * m';
    ProductOrder(q', q, m);
  }

  // Raising the MAD floor moves every score towards zero.
  lemma ScoreShrinks(v: real, median: real, mad: real, mad': real)
    requires 0.0 < mad <= mad'
    ensures Abs(Score(v, median, mad')) <= Abs(Score(v, median, mad))
    ensures Score(v, median, mad') >= 0.0 <==> Score(v, median, mad) >= 0.0
    ensures Score(v, median, mad') > 0.0 <==> Score(v, median, mad) > 0.0
  {
    var x := MAD_SCALE * (v - median);
    DivisionGrows(0.0, x, mad);
    DivisionGrows(0.0, x, mad');
    DivisionShrinks(Abs(x), mad, mad');
    assert Abs(x) == x || ((-x) / mad == -(x / mad) && (-x) / mad' == -(x / mad'));
  }

  lemma StricterGatesOpenLess(m: Metric, z: real, z': real, v: real, median: real, d: Direction, k: Knobs, k': Knobs)
    requires AtLeastAsStrict(k, k')
    requires Abs(z') <= Abs(z) && (z' >= 0.0 <==> z >= 0.0) && (z' > 0.0 <==> z > 0.0)
    requires DecideAnomaly(m, z', v, median, d, k').Opens?
    ensures DecideAnomaly(m, z, v, median, d, k) == DecideAnomaly(m, z', v, median, d, k')
  {}

  // Raising any knob never turns a window that did not open into one that does.
  lemma KnobsAreAntitone(m: Metric, median: real, rawMAD: real, window: seq<real>, d: Direction, k: Knobs, k': Knobs)
    requires AtLeastAsStrict(k, k')
    requires AllOpen(m, median, EffectiveMAD(m, median, rawMAD, k'.minMAD), window, d, k')
    ensures AllOpen(m, median, EffectiveMAD(m, median, rawMAD, k.minMAD), window, d, k)
  {
    var mad, mad' := EffectiveMAD(m, median, rawMAD, k.minMAD), EffectiveMAD(m, median, rawMAD, k'.minMAD);
    assert mad <= mad';
    forall i | 0 <= i < |window|
      ensures SampleVerdict(m, median, mad, window[i], d, k) == SampleVerdict(m, median, mad', window[i], d, k')
    {
      ScoreShrinks(window[i], median, mad, mad');
      assert SampleVerdict(m, median, mad', window[i], d, k').Opens?;
      StricterGatesOpenLess(m, Score(window[i], median, mad), Score(window[i], median, mad'), window[i], median, d,
                            k, k');
    }
  }

  lemma ScoreGrows(v: real, w: real, median: real, mad: real)
    requires mad > 0.0 && v <= w
    ensures Score(v, median, mad) <= Score(w, median, mad)
    ensures Score(v, median, mad) > 0.0 ==> v > median
  {
    DivisionGrows(MAD_SCALE * (v - median), MAD_SCALE * (w - median), mad);
    DivisionGrows(0.0, MAD_SCALE * (v - median), mad);
  }

  // Comparing a score is comparing its numerator.
  lemma ScoreIff(v: real, median: real, mad: real, bound: real)
    requires mad > 0.0
    ensures Score(v, median, mad) >= bound <==> 0.6745 * (v - median) >= bound * mad
    ensures Score(v, median, mad) <= bound <==> 0.6745 * (v - median) <= bound * mad
  {
    var x := 0.6745 * (v - median);
    assert Score(v, median, mad) * mad == x;
    ProductOrder(Score(v, median, mad), bound, mad);
    ProductOrder(bound, Score(v, median, mad), mad);
  }

  lemma ScoreSign(v: real, median: real, mad: real)
    requires mad > 0.0
    ensures Score(v, median, mad) > 0.0 <==> v > median
    ensures Score(v, median, mad) < 0.0 <==> v < median
  {
    ScoreIff(v, median, mad, 0.0);
  }

  // For a metric that only alarms upwards a larger value keeps an opening sample open.
  lemma LargerValueStaysOpen(m: Metric, median: real, mad: real, v: real, w: real, k: Knobs)
    requires mad > 0.0 && v <= w
    requires SampleVerdict(m, median, mad, v, Up, k).Opens?
    ensures SampleVerdict(m, median, mad, w, Up, k) == Opens(Spiked)
  {
    ScoreGrows(v, w, median, mad);
    DivisionGrows(Abs(v - median), Abs(w - median), Max(Abs(median), MAGNITUDE_EPS));
  }

  // ----- hysteresis over a run -----

  // What a run sees: one growing series of buckets, and ticks that look at a
  // prefix of it (several ticks may look at the same prefix).
  datatype Run = Run(
    metric: Metric, median: real, mad: real, knobs: Knobs, dwell: nat, buckets: seq<real>, ticks: seq<nat>)
  {
    ghost predicate Valid() {
      && mad > 0.0 && dwell >= 1
      && (forall i :: 0 <= i < |ticks| ==> dwell <= ticks[i] <= |buckets|)
      && (forall i, j :: 0 <= i <= j < |ticks| ==> ticks[i] <= ticks[j])
    }

    ghost predicate WindowOpens(i: nat)
      requires Valid() && i < |ticks|
    {
      AllOpen(metric, median, mad, buckets[ticks[i] - dwell..ticks[i]], DirectionFor(metric), knobs)
    }

    ghost function LatestZ(i: nat): real
      requires Valid() && i < |ticks|
    {
      Score(buckets[ticks[i] - 1], median, mad)
    }

    // Whether a problem row is open before tick i.
    ghost predicate HasOpen(i: nat)
      requires Valid() && i <= |ticks|
      decreases i, 0
    {
      i > 0 && (ActionAt(i - 1) == ActOpen || (ActionAt(i - 1) == ActNone && HasOpen(i - 1)))
    }

    ghost function ActionAt(i: nat): Action
      requires Valid() && i < |ticks|
      decreases i, 1
    {
      AnomalyAction(HasOpen(i), WindowOpens(i), metric, LatestZ(i))
    }

    // Rows created and rows resolved before tick i.
    ghost function Opened(i: nat): nat
      requires Valid() && i <= |ticks|
    {
      if i == 0 then 0 else Opened(i - 1) + if ActionAt(i - 1) == ActOpen && !HasOpen(i - 1) then 1 else 0
    }

    ghost function Resolved(i: nat): nat
      requires Valid() && i <= |ticks|
    {
      if i == 0 then 0 else Resolved(i - 1) + if ActionAt(i - 1) == ActResolve then 1 else 0
    }
  }

  // A sample that opens is never inside the resolve band of its metric.
  lemma OpenExcludesResolved(m: Metric, median: real, mad: real, v: real, k: Knobs)
    requires mad > 0.0
    ensures !(SampleVerdict(m, median, mad, v, DirectionFor(m), k).Opens? && ResolvedFor(m, Score(v, median, mad)))
  {}

  // One problem at a time, and none left behind.
  lemma {:induction false} OpensBalanceResolves(r: Run, i: nat)
    requires r.Valid() && i <= |r.ticks|
    ensures r.Opened(i) == r.Resolved(i) + if r.HasOpen(i) then 1 else 0
  {
    if i > 0 {
      OpensBalanceResolves(r, i - 1);
    }
  }

  // After a resolve nothing opens until dwell newer buckets have arrived, and
  // no tick meets both conditions.
  lemma NoReopenBeforeDwell(r: Run, i: nat, j: nat)
    requires r.Valid() && i <= j < |r.ticks|
    requires ResolvedFor(r.metric, r.LatestZ(i)) && r.WindowOpens(j)
    ensures r.ticks[j] >= r.ticks[i] + r.dwell
  {
    var from, window := r.ticks[j] - r.dwell, r.buckets[r.ticks[j] - r.dwell..r.ticks[j]];
    forall b | from <= b < r.ticks[j] ensures !ResolvedFor(r.metric, Score(r.buckets[b], r.median, r.mad)) {
      assert window[b - from] == r.buckets[b];
      OpenExcludesResolved(r.metric, r.median, r.mad, window[b - from], r.knobs);
    }
    assert r.ticks[i] <= r.ticks[j];
  }
}
