// Making the dwell window of a sparse series consist of consecutive buckets.
// Buckets are 300 seconds apart.
module DwellGrid {
  import opened Decision

  function Zeros(n: nat): (z: seq<real>)
    ensures |z| == n && forall i :: 0 <= i < n ==> z[i] == 0.0
  {
    seq(n, i => 0.0)
  }

  // Buckets last + 300, last + 2 * 300, ... before upper.
  function TrailingBuckets(last: int, upper: int): nat {
    if upper <= last then 0 else (upper - last - 1) / 300
  }

  // The series with the silent buckets after its last observation as zeros.
  function Padded(series: seq<real>, last: int, upper: int): seq<real> {
    if series == [] || last <= 0 then series else series + Zeros(TrailingBuckets(last, upper))
  }

  method PadTrailingSilence(series: seq<real>, last: int, upper: int) returns (out: seq<real>)
    ensures out == Padded(series, last, upper)
  {
    out := series;
    if |series| == 0 || last <= 0 {
      return;
    }
    var t := last + 300;
    ghost var k := 0;
    while t < upper
      invariant t == last + 300 * (k + 1)
      invariant 0 <= k <= TrailingBuckets(last, upper)
      invariant out == series + Zeros(k)
    {
      out := out + [0.0];
      t := t + 300;
      k := k + 1;
      assert Zeros(k) == Zeros(k - 1) + [0.0];
    }
  }

  ghost predicate Increasing(times: seq<int>) {
    forall i, j :: 0 <= i < j < |times| ==> times[i] < times[j]
  }

  ghost predicate Observed(times: seq<int>, t: int) {
    exists i :: 0 <= i < |times| && times[i] == t
  }

  // What bucket t measured; 0 without an observation.
  ghost function BucketValue(values: seq<real>, times: seq<int>, t: int): real
    requires |values| == |times|
  {
    if Observed(times, t) then
      var i :| 0 <= i < |times| && times[i] == t;
      values[i]
    else 0.0
  }

  lemma BucketValueIs(values: seq<real>, times: seq<int>, i: nat)
    requires |values| == |times| && i < |times| && Increasing(times)
    ensures BucketValue(values, times, times[i]) == values[i]
  {
    assert Observed(times, times[i]);
  }

  // One element per bucket t, t + 300, ... before upper.
  ghost function GridFrom(values: seq<real>, times: seq<int>, t: int, upper: int): seq<real>
    requires |values| == |times|
    decreases upper - t
  {
    if t >= upper then [] else [BucketValue(values, times, t)] + GridFrom(values, times, t + 300, upper)
  }

  // Index of the first bucket at or after start.
  ghost function FirstFrom(times: seq<int>, start: int): (cut: nat)
    ensures cut <= |times|
    ensures forall i :: 0 <= i < cut ==> times[i] < start
    ensures cut < |times| ==> times[cut] >= start
  {
    if times == [] || times[0] >= start then 0
    else
      var c := FirstFrom(times[1..], start);
      assert forall i :: 0 < i < c + 1 ==> times[i] == times[1..][i - 1];
      1 + c
  }

  ghost predicate OnGrid(times: seq<int>, start: int, upper: int) {
    forall i :: 0 <= i < |times| ==> times[i] < upper && (times[i] >= start ==> (times[i] - start) % 300 == 0)
  }

  function FirstGridBucket(times: seq<int>, start: int): int
    requires times != []
  {
    if times[0] <= start then start
    else start + ((times[0] - start + 300 - 1) / 300) * 300
  }

  // What fillDwellGrid makes of one series, for times in increasing order.
  ghost function Filled(values: seq<real>, times: seq<int>, upper: int, dwell: int): seq<real>
    requires |values| == |times|
  {
    if times == [] then values
    else
      var last, start := times[|times| - 1], upper - dwell * 300;
      if dwell <= 0 || last < start || !OnGrid(times, start, upper) then Padded(values, last, upper)
      else values[..FirstFrom(times, start)] + GridFrom(values, times, FirstGridBucket(times, start), upper)
  }

  // The first observation inside the window.
  method FirstInWindow(times: seq<int>, winStart: int) returns (cut: nat)
    requires times != [] && times[|times| - 1] >= winStart
    ensures cut < |times| && times[cut] >= winStart && forall k :: 0 <= k < cut ==> times[k] < winStart
  {
    cut := 0;
    while times[cut] < winStart
      invariant 0 <= cut < |times|
      invariant forall k :: 0 <= k < cut ==> times[k] < winStart
      decreases |times| - cut
    {
      cut := cut + 1;
    }
  }

  // Whether all observations of the window lie on its grid and before its end.
  method LiesOnGrid(times: seq<int>, cut: nat, winStart: int, upper: int) returns (r: bool)
    requires Increasing(times) && cut < |times| && times[cut] >= winStart
    requires forall k :: 0 <= k < cut ==> times[k] < winStart
    ensures r == OnGrid(times, winStart, upper)
  {
    var i := cut;
    while i < |times|
      invariant cut <= i <= |times|
      invariant forall k :: cut <= k < i ==> times[k] < upper && (times[k] - winStart) % 300 == 0
    {
      if times[i] >= upper || (times[i] - winStart) % 300 != 0 {
        assert times[i] >= winStart;
        return false;
      }
      i := i + 1;
    }
    assert forall k :: 0 <= k < cut ==> times[k] < times[cut];
    r := true;
  }

  lemma FilledIs(values: seq<real>, times: seq<int>, upper: int, dwell: int)
    requires |values| == |times| && times != []
    ensures var last, start := times[|times| - 1], upper - dwell * 300;
            Filled(values, times, upper, dwell)
            == if dwell <= 0 || last < start || !OnGrid(times, start, upper) then Padded(values, last, upper)
               else values[..FirstFrom(times, start)] + GridFrom(values, times, FirstGridBucket(times, start), upper)
  {}

  lemma NothingFilled(values: seq<real>, upper: int, dwell: int)
    requires values == []
    ensures Filled(values, [], upper, dwell) == Padded(values, 0, upper)
  {}

  // There is one first index.
  lemma FirstFromIs(times: seq<int>, start: int, cut: nat)
    requires cut < |times| && times[cut] >= start && forall k :: 0 <= k < cut ==> times[k] < start
    ensures FirstFrom(times, start) == cut
  {}

  // Where the grid of the window starts.
  lemma FirstBucketIs(times: seq<int>, start: int, upper: int)
    requires times != [] && OnGrid(times, start, upper)
    ensures FirstGridBucket(times, start) == if times[0] <= start then start else times[0]
  {
    if times[0] > start {
      OnGridItself(start, times[0]);
    }
  }

  // times are the bucket starts of the observations, ascending.
  method FillDwellGrid(values: seq<real>, rates: seq<real>, times: seq<int>, upper: int, dwell: int)
    returns (outV: seq<real>, outR: seq<real>)
    requires Increasing(times)
    ensures |values| == |rates| == |times| ==>
              outV == Filled(values, times, upper, dwell) && outR == Filled(rates, times, upper, dwell)
    ensures !(|values| == |rates| == |times|) ==>
              var last := if times == [] then 0 else times[|times| - 1];
              outV == Padded(values, last, upper) && outR == Padded(rates, last, upper)
  {
    var n := |times|;
    var last := if n > 0 then times[n - 1] else 0;
    hide *;
    if |values| == |rates| == n == 0 {
      NothingFilled(values, upper, dwell);
      NothingFilled(rates, upper, dwell);
    }
    if n == 0 || |values| != n || |rates| != n {
      outV := PadTrailingSilence(values, last, upper);
      outR := PadTrailingSilence(rates, last, upper);
      return;
    }
    FilledIs(values, times, upper, dwell);
    FilledIs(rates, times, upper, dwell);
    var winStart := upper - dwell * 300;
    if dwell <= 0 || last < winStart {
      outV := PadTrailingSilence(values, last, upper);
      outR := PadTrailingSilence(rates, last, upper);
      return;
    }
    var cut := FirstInWindow(times, winStart);
    var onGrid := LiesOnGrid(times, cut, winStart, upper);
    if !onGrid {
      outV := PadTrailingSilence(values, last, upper);
      outR := PadTrailingSilence(rates, last, upper);
      return;
    }
    FirstFromIs(times, winStart, cut);
    FirstBucketIs(times, winStart, upper);
    var tailV, tailR := GridWindow(values, rates, times, winStart, upper, cut, FirstGridBucket(times, winStart));
    outV, outR := values[..cut] + tailV, rates[..cut] + tailR;
  }

  // The loop over the buckets of the window; from is the first one it keeps.
  method GridWindow(
    values: seq<real>, rates: seq<real>, times: seq<int>, winStart: int, upper: int, cut: nat, ghost from: int)
    returns (tailV: seq<real>, tailR: seq<real>)
    requires Increasing(times) && |values| == |rates| == |times|
    requires cut < |times| && cut == FirstFrom(times, winStart) && OnGrid(times, winStart, upper)
    requires from == if times[0] <= winStart then winStart else times[0]
    ensures tailV == GridFrom(values, times, from, upper)
    ensures tailR == GridFrom(rates, times, from, upper)
  {
    hide GridFrom, BucketValue;
    tailV, tailR := [], [];
    var j := cut;
    var t := winStart;
    while t < upper
      invariant cut <= j <= |times| && t >= winStart && (t - winStart) % 300 == 0
      invariant forall k :: 0 <= k < j ==> times[k] < t
      invariant forall k :: j <= k < |times| ==> times[k] >= t
      invariant t <= from ==> tailV == tailR == []
      invariant tailV + GridFrom(values, times, Later(t, from), upper) == GridFrom(values, times, from, upper)
      invariant tailR + GridFrom(rates, times, Later(t, from), upper) == GridFrom(rates, times, from, upper)
      decreases upper - t
    {
      NextOnGrid(winStart, t, times);
      if t < times[0] {
        t := t + 300;
        continue;
      }
      var v, r := 0.0, 0.0;
      if j < |times| && times[j] == t {
        v, r := values[j], rates[j];
        BucketValueIs(values, times, j);
        BucketValueIs(rates, times, j);
        j := j + 1;
      } else {
        NoBucketValue(values, times, t);
        NoBucketValue(rates, times, t);
      }
      GridStep(values, times, t, upper);
      GridStep(rates, times, t, upper);
      AppendNext(tailV, v, GridFrom(values, times, t + 300, upper));
      AppendNext(tailR, r, GridFrom(rates, times, t + 300, upper));
      tailV, tailR := tailV + [v], tailR + [r];
      t := t + 300;
    }
    GridStep(values, times, Later(t, from), upper);
    GridStep(rates, times, Later(t, from), upper);
  }

  lemma AppendNext(xs: seq<real>, x: real, ys: seq<real>)
    ensures xs + ([x] + ys) == (xs + [x]) + ys
  {}

  lemma NoBucketValue(values: seq<real>, times: seq<int>, t: int)
    requires |values| == |times|
    ensures (forall k :: 0 <= k < |times| ==> times[k] != t) ==> BucketValue(values, times, t) == 0.0
  {}

  lemma GridStep(values: seq<real>, times: seq<int>, t: int, upper: int)
    requires |values| == |times|
    ensures t < upper ==>
              GridFrom(values, times, t, upper)
                == [BucketValue(values, times, t)] + GridFrom(values, times, t + 300, upper)
    ensures t >= upper ==> GridFrom(values, times, t, upper) == []
  {}

  // Grid points after t are at least one step away.
  lemma NextOnGrid(start: int, t: int, times: seq<int>)
    requires t >= start && (t - start) % 300 == 0
    requires forall i :: 0 <= i < |times| && times[i] >= start ==> (times[i] - start) % 300 == 0
    ensures (t + 300 - start) % 300 == 0
    ensures forall i :: 0 <= i < |times| && times[i] > t ==> times[i] >= t + 300
  {
    forall i | 0 <= i < |times| && times[i] > t ensures times[i] >= t + 300 {
      GridPoint(start, t, times[i]);
    }
  }

  lemma GridPoint(start: int, t: int, u: int)
    requires (t - start) % 300 == 0 && (u - start) % 300 == 0 && u > t
    ensures u >= t + 300
  {}

  lemma OnGridItself(start: int, u: int)
    requires u >= start && (u - start) % 300 == 0
    ensures start + ((u - start + 300 - 1) / 300) * 300 == u
  {}

  function Later(a: int, b: int): int { if a < b then b else a }

  // The element b places before the end is bucket upper - 300 * b.
  ghost predicate TailBucket(out: seq<real>, values: seq<real>, times: seq<int>, upper: int, b: nat)
    requires |values| == |times|
  {
    1 <= b <= |out| && out[|out| - b] == BucketValue(values, times, upper - 300 * b)
  }

  lemma {:induction false} GridIsTail(values: seq<real>, times: seq<int>, m: nat, t: int, upper: int)
    requires |values| == |times| && t == upper - 300 * m
    ensures |GridFrom(values, times, t, upper)| == m
    ensures forall b :: 1 <= b <= m ==> TailBucket(GridFrom(values, times, t, upper), values, times, upper, b)
    decreases m
  {
    if m > 0 {
      GridIsTail(values, times, m - 1, t + 300, upper);
      var grid, rest := GridFrom(values, times, t, upper), GridFrom(values, times, t + 300, upper);
      assert grid == [BucketValue(values, times, t)] + rest;
      forall b | 1 <= b <= m ensures TailBucket(grid, values, times, upper, b) {
        hide *;
        if b < m {
          assert TailBucket(rest, values, times, upper, b);
          TailGrows(BucketValue(values, times, t), rest, values, times, upper, b);
        } else {
          TailStarts(rest, values, times, upper, b, t);
        }
      }
    }
  }

  lemma TailGrows(x: real, rest: seq<real>, values: seq<real>, times: seq<int>, upper: int, b: nat)
    requires |values| == |times| && TailBucket(rest, values, times, upper, b)
    ensures TailBucket([x] + rest, values, times, upper, b)
  {
    hide BucketValue;
  }

  lemma TailStarts(rest: seq<real>, values: seq<real>, times: seq<int>, upper: int, b: nat, t: int)
    requires |values| == |times| && |rest| == b - 1 && t == upper - 300 * b
    ensures TailBucket([BucketValue(values, times, t)] + rest, values, times, upper, b)
  {
    hide BucketValue;
  }

  // Bucket starts as the detector reads them: complete buckets of the
  // five-minute grid below upper, ascending; observation i is back[i] buckets old.
  ghost predicate BucketTimes(times: seq<int>, upper: int, back: seq<nat>) {
    && |times| == |back| > 0 && times[0] > 0
    && (forall i :: 0 <= i < |back| ==> back[i] >= 1 && times[i] == upper - 300 * back[i])
    && (forall i, j :: 0 <= i < j < |back| ==> back[i] > back[j])
  }

  // How many of the last dwell buckets lie at or after the first observation.
  function Covered(back: seq<nat>, dwell: nat): nat
    requires back != []
  {
    if back[0] < dwell then back[0] else dwell
  }

  lemma TimesIncrease(times: seq<int>, upper: int, back: seq<nat>)
    requires BucketTimes(times, upper, back)
    ensures Increasing(times)
  {}

  // When the newest observation is older than the window, the result is the padding.
  lemma FilledByPadding(values: seq<real>, times: seq<int>, upper: int, back: seq<nat>, dwell: nat)
    requires |values| == |times| && BucketTimes(times, upper, back) && dwell > 0
    ensures Padded(values, times[|times| - 1], upper) == values + Zeros(back[|back| - 1] - 1)
    ensures back[|back| - 1] > dwell ==> Filled(values, times, upper, dwell) == values + Zeros(back[|back| - 1] - 1)
  {
    var last := |times| - 1;
    assert times[0] <= times[last] by { assert back[last] <= back[0]; }
    assert upper - times[last] - 1 == 300 * (back[last] - 1) + (300 - 1);
    assert TrailingBuckets(times[last], upper) == back[last] - 1;
  }

  lemma WindowOnGrid(times: seq<int>, upper: int, back: seq<nat>, dwell: nat)
    requires BucketTimes(times, upper, back) && dwell > 0
    ensures OnGrid(times, upper - dwell * 300, upper)
    ensures FirstGridBucket(times, upper - dwell * 300) == upper - 300 * Covered(back, dwell)
  {
    var start := upper - dwell * 300;
    forall i | 0 <= i < |times| && times[i] >= start ensures (times[i] - start) % 300 == 0 {
      assert times[i] - start == 300 * (dwell - back[i]);
    }
    if times[0] > start {
      assert times[0] - start + 300 - 1 == 300 * (dwell - back[0]) + (300 - 1);
    }
  }

  // Otherwise it is the part before the window and then the grid.
  lemma FilledOnGrid(values: seq<real>, times: seq<int>, upper: int, back: seq<nat>, dwell: nat)
    requires |values| == |times| && BucketTimes(times, upper, back) && dwell > 0
    requires back[|back| - 1] <= dwell
    ensures Filled(values, times, upper, dwell)
         == values[..FirstFrom(times, upper - dwell * 300)]
            + GridFrom(values, times, upper - 300 * Covered(back, dwell), upper)
    ensures FirstFrom(times, upper - dwell * 300) > 0 ==> back[0] > dwell
  {
    WindowOnGrid(times, upper, back, dwell);
  }

  lemma TailOfAppend(xs: seq<real>, tail: seq<real>, values: seq<real>, times: seq<int>, upper: int, b: nat)
    requires |values| == |times| && TailBucket(tail, values, times, upper, b)
    ensures TailBucket(xs + tail, values, times, upper, b)
  {
    assert (xs + tail)[|xs + tail| - b] == tail[|tail| - b];
  }

  // Buckets newer than every observation read zero.
  lemma TailOfZeros(values: seq<real>, times: seq<int>, upper: int, back: seq<nat>, n: nat, b: nat)
    requires |values| == |times| && BucketTimes(times, upper, back)
    requires 1 <= b <= n && b < back[|back| - 1]
    ensures TailBucket(values + Zeros(n), values, times, upper, b)
  {
    assert forall i :: 0 <= i < |back| ==> back[i] >= back[|back| - 1];
    NoBucketValue(values, times, upper - 300 * b);
  }

  lemma TailAt(values: seq<real>, times: seq<int>, upper: int, back: seq<nat>, dwell: nat, b: nat)
    requires |values| == |times| && BucketTimes(times, upper, back) && dwell > 0
    requires 1 <= b <= Covered(back, dwell)
    ensures TailBucket(Filled(values, times, upper, dwell), values, times, upper, b)
  {
    var n, m := back[|back| - 1], Covered(back, dwell);
    if n > dwell {
      FilledByPadding(values, times, upper, back, dwell);
      assert b <= dwell;
      hide *;
      TailOfZeros(values, times, upper, back, n - 1, b);
    } else {
      var head := GridTail(values, times, upper, back, dwell);
      hide *;
      GridIsTail(values, times, m, upper - 300 * m, upper);
      TailOfAppend(head, GridFrom(values, times, upper - 300 * m, upper), values, times, upper, b);
    }
  }

  lemma GridTail(values: seq<real>, times: seq<int>, upper: int, back: seq<nat>, dwell: nat) returns (head: seq<real>)
    requires |values| == |times| && BucketTimes(times, upper, back) && dwell > 0
    requires back[|back| - 1] <= dwell
    ensures Filled(values, times, upper, dwell)
         == head + GridFrom(values, times, upper - 300 * Covered(back, dwell), upper)
  {
    head := values[..FirstFrom(times, upper - dwell * 300)];
    FilledOnGrid(values, times, upper, back, dwell);
  }

  // The tail holds exactly one element for each covered bucket, in order.
  lemma TailIsTheGrid(values: seq<real>, times: seq<int>, upper: int, back: seq<nat>, dwell: nat)
    requires |values| == |times| && BucketTimes(times, upper, back) && dwell > 0
    ensures forall b :: 1 <= b <= Covered(back, dwell) ==>
              TailBucket(Filled(values, times, upper, dwell), values, times, upper, b)
  {
    forall b | 1 <= b <= Covered(back, dwell)
      ensures TailBucket(Filled(values, times, upper, dwell), values, times, upper, b)
    {
      TailAt(values, times, upper, back, dwell, b);
    }
  }

  // Where observation i ends up.
  ghost function PlaceOf(out: seq<real>, back: seq<nat>, dwell: nat, i: nat): int
    requires i < |back|
  {
    if back[i] > dwell then i else |out| - back[i]
  }

  // No observation is lost or moved off its bucket.
  lemma ObservationKept(values: seq<real>, times: seq<int>, upper: int, back: seq<nat>, dwell: nat, i: nat)
    requires |values| == |times| && BucketTimes(times, upper, back) && dwell > 0 && i < |times|
    ensures var out := Filled(values, times, upper, dwell);
            var at := PlaceOf(out, back, dwell, i);
            0 <= at < |out| && out[at] == values[i]
  {
    if back[i] <= dwell {
      KeptInWindow(values, times, upper, back, dwell, i);
    } else if back[|back| - 1] <= dwell {
      KeptBeforeWindow(values, times, upper, back, dwell, i);
    } else {
      hide Filled, Padded;
      FilledByPadding(values, times, upper, back, dwell);
    }
  }

  lemma KeptBeforeWindow(values: seq<real>, times: seq<int>, upper: int, back: seq<nat>, dwell: nat, i: nat)
    requires |values| == |times| && BucketTimes(times, upper, back) && dwell > 0 && i < |times|
    requires back[i] > dwell && back[|back| - 1] <= dwell
    ensures i < |Filled(values, times, upper, dwell)| && Filled(values, times, upper, dwell)[i] == values[i]
  {
    hide Filled, FirstFrom, GridFrom;
    FilledOnGrid(values, times, upper, back, dwell);
    assert times[i] < upper - dwell * 300;
    assert i < FirstFrom(times, upper - dwell * 300);
  }

  lemma KeptInWindow(values: seq<real>, times: seq<int>, upper: int, back: seq<nat>, dwell: nat, i: nat)
    requires |values| == |times| && BucketTimes(times, upper, back) && dwell > 0 && i < |times| && back[i] <= dwell
    ensures var out := Filled(values, times, upper, dwell);
            back[i] <= |out| && out[|out| - back[i]] == values[i]
  {
    assert |back| == |times|;
    hide *;
    assert TailBucket(Filled(values, times, upper, dwell), values, times, upper, back[i]) by {
      TailIsTheGrid(values, times, upper, back, dwell);
      Newer(times, upper, back, dwell, i);
    }
    InTail(Filled(values, times, upper, dwell), values, times, upper, back, i);
  }

  lemma Newer(times: seq<int>, upper: int, back: seq<nat>, dwell: nat, i: nat)
    requires BucketTimes(times, upper, back) && i < |back| && back[i] <= dwell
    ensures 1 <= back[i] <= Covered(back, dwell)
  {
    assert i == 0 || back[0] > back[i];
  }

  lemma InTail(out: seq<real>, values: seq<real>, times: seq<int>, upper: int, back: seq<nat>, i: nat)
    requires |values| == |times| && BucketTimes(times, upper, back) && i < |times|
    requires TailBucket(out, values, times, upper, back[i])
    ensures 1 <= back[i] <= |out| && out[|out| - back[i]] == values[i]
  {
    TimesIncrease(times, upper, back);
    BucketValueIs(values, times, i);
  }

  lemma {:induction false} GridLength(values: seq<real>, rates: seq<real>, times: seq<int>, t: int, upper: int)
    requires |values| == |rates| == |times|
    ensures |GridFrom(values, times, t, upper)| == |GridFrom(rates, times, t, upper)|
    decreases upper - t
  {
    if t < upper {
      GridLength(values, rates, times, t + 300, upper);
    }
  }

  // Values and rates stay aligned.
  lemma SameLength(values: seq<real>, rates: seq<real>, times: seq<int>, upper: int, dwell: int)
    requires |values| == |rates| == |times|
    ensures |Filled(values, times, upper, dwell)| == |Filled(rates, times, upper, dwell)|
  {
    if times != [] {
      GridLength(values, rates, times, FirstGridBucket(times, upper - dwell * 300), upper);
    }
  }

  // No empty bucket between the first and the last observation of the window.
  ghost predicate NoGap(back: seq<nat>, dwell: nat) {
    forall i, j :: 0 <= i && j == i + 1 && j < |back| && back[j] <= dwell ==> back[j] + 1 == back[i]
  }

  // Then the grid adds nothing to the trailing padding.
  lemma NoGapMeansPadding(values: seq<real>, times: seq<int>, upper: int, back: seq<nat>, dwell: nat)
    requires |values| == |times| && BucketTimes(times, upper, back) && dwell > 0 && NoGap(back, dwell)
    ensures Filled(values, times, upper, dwell) == Padded(values, times[|times| - 1], upper)
  {
    FilledByPadding(values, times, upper, back, dwell);
    if back[|back| - 1] <= dwell {
      var out, pad := Filled(values, times, upper, dwell), Padded(values, times[|times| - 1], upper);
      hide Filled, Padded, GridFrom;
      LengthWithoutGap(values, times, upper, back, dwell);
      forall p | 0 <= p < |out| ensures out[p] == pad[p] {
        SamePlace(values, times, upper, back, dwell, p);
      }
    }
  }

  lemma SamePlace(values: seq<real>, times: seq<int>, upper: int, back: seq<nat>, dwell: nat, p: nat)
    requires |values| == |times| && BucketTimes(times, upper, back) && dwell > 0 && NoGap(back, dwell)
    requires back[|back| - 1] <= dwell && p < |Filled(values, times, upper, dwell)|
    ensures Filled(values, times, upper, dwell)[p] == if p < |times| then values[p] else 0.0
  {
    var n, out := |times|, Filled(values, times, upper, dwell);
    hide Filled, GridFrom, BucketValue;
    LengthWithoutGap(values, times, upper, back, dwell);
    if p < n {
      ObservationKept(values, times, upper, back, dwell, p);
      if back[p] <= dwell {
        Consecutive(back, dwell, p, n - 1);
      }
    } else {
      TailIsTheGrid(values, times, upper, back, dwell);
      assert TailBucket(out, values, times, upper, |out| - p);
      assert forall i :: 0 <= i < n ==> back[i] >= back[n - 1];
      NoBucketValue(values, times, upper - 300 * (|out| - p));
    }
  }

  lemma LengthWithoutGap(values: seq<real>, times: seq<int>, upper: int, back: seq<nat>, dwell: nat)
    requires |values| == |times| && BucketTimes(times, upper, back) && dwell > 0 && NoGap(back, dwell)
    requires back[|back| - 1] <= dwell
    ensures |Filled(values, times, upper, dwell)| == |times| + back[|back| - 1] - 1
    ensures back[|back| - 1] - 1 <= Covered(back, dwell)
  {
    hide FirstFrom, Filled, GridFrom, TailBucket, BucketValue, NoGap;
    var m, start := Covered(back, dwell), upper - dwell * 300;
    var cut := FirstFrom(times, start);
    FilledOnGrid(values, times, upper, back, dwell);
    GridIsTail(values, times, m, upper - 300 * m, upper);
    CountWithoutGap(back, dwell, cut) by {
      assert forall i :: 0 <= i < |back| ==> (times[i] < start <==> back[i] > dwell);
      assert times[|times| - 1] >= start;
    }
  }

  lemma CountWithoutGap(back: seq<nat>, dwell: nat, cut: nat)
    requires cut < |back| && NoGap(back, dwell) && dwell > 0 && back[|back| - 1] >= 1
    requires forall a, b :: 0 <= a < b < |back| ==> back[a] > back[b]
    requires forall i :: 0 <= i < cut ==> back[i] > dwell
    requires back[cut] <= dwell
    ensures cut + Covered(back, dwell) == |back| + back[|back| - 1] - 1
    ensures back[|back| - 1] - 1 <= Covered(back, dwell)
  {
    Consecutive(back, dwell, cut, |back| - 1);
    if cut > 0 {
      assert back[cut - 1] > dwell && back[cut] + 1 == back[cut - 1];
      assert back[0] > dwell;
    }
  }

  lemma {:induction false} Consecutive(back: seq<nat>, dwell: nat, i: nat, j: nat)
    requires i <= j < |back| && back[i] <= dwell && NoGap(back, dwell)
    requires forall a, b :: 0 <= a < b < |back| ==> back[a] > back[b]
    ensures back[j] + (j - i) == back[i]
  {
    if i < j {
      Consecutive(back, dwell, i, j - 1);
    }
  }

  // An upward metric over a non-negative baseline opens on the dwell window
  // only if every one of the last dwell buckets was really observed.
  lemma OpensOnlyOnObservedBuckets(
    m: Metric, median: real, mad: real, k: Knobs,
    values: seq<real>, times: seq<int>, upper: int, back: seq<nat>, dwell: nat)
    requires |values| == |times| && BucketTimes(times, upper, back) && dwell > 0
    requires DirectionFor(m) == Up && median >= 0.0 && mad > 0.0
    requires |Filled(values, times, upper, dwell)| >= dwell
    requires var out := Filled(values, times, upper, dwell);
             AllOpen(m, median, mad, out[|out| - dwell..], Up, k)
    ensures forall b :: 1 <= b <= dwell ==> Observed(times, upper - 300 * b)
  {
    var out := Filled(values, times, upper, dwell);
    var window := out[|out| - dwell..];
    LongEnough(values, times, upper, back, dwell);
    TailIsTheGrid(values, times, upper, back, dwell);
    ZeroStaysQuiet(m, median, mad, k);
    hide Filled, GridFrom, DecideAnomaly;
    forall b | 1 <= b <= dwell ensures Observed(times, upper - 300 * b) {
      assert TailBucket(out, values, times, upper, b);
      assert window[dwell - b] == out[|out| - b];
      assert SampleVerdict(m, median, mad, window[dwell - b], Up, k).Opens?;
    }
  }

  lemma LongEnough(values: seq<real>, times: seq<int>, upper: int, back: seq<nat>, dwell: nat)
    requires |values| == |times| && BucketTimes(times, upper, back) && dwell > 0
    requires |Filled(values, times, upper, dwell)| >= dwell
    ensures Covered(back, dwell) == dwell
  {
    if back[|back| - 1] <= dwell {
      FilledOnGrid(values, times, upper, back, dwell);
      hide Filled, GridFrom;
      GridIsTail(values, times, Covered(back, dwell), upper - 300 * Covered(back, dwell), upper);
    } else {
      assert back[|back| - 1] <= back[0];
    }
  }

  lemma ZeroStaysQuiet(m: Metric, median: real, mad: real, k: Knobs)
    requires median >= 0.0 && mad > 0.0
    ensures SampleVerdict(m, median, mad, 0.0, Up, k) == Quiet
  {
    DivisionGrows(MAD_SCALE * (0.0 - median), 0.0, mad);
  }
}
