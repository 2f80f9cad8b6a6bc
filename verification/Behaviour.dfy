// The behaviour engine: a service's rows are split into hour-of-week baselines
// and the window to judge; windows that shifted become candidates, which a
// batch gate and a storm cap may drop again.
module Behaviour {
  import opened Problems
  import opened Collecting
  import opened Decision

  // ----- the seasonal split -----

  // One five-minute bucket of a service.
  datatype Row = Row(unix: int, how: int, spans: nat, errs: nat, p99: real)

  function MetricValue(m: Metric, r: Row): real {
    match m
    case ErrorRate => if r.spans == 0 then 0.0 else (r.errs as real) / (r.spans as real) * 100.0
    case RequestRate => (r.spans as real) / 300.0
    case P99Ms => r.p99
    case _ => 0.0
  }

  // The samples of one hour of the week, and on how many days it was seen.
  datatype Bucket = Bucket(values: seq<real>, repeats: nat, lastDay: int)

  const EMPTY_BUCKET := Bucket([], 0, 0)

  // The UTC day; the division truncates towards zero.
  function DayIndex(unix: int): int { if unix >= 0 then unix / 86400 else -((-unix) / 86400) }

  function BucketAt(baseline: map<int, Bucket>, how: int): Bucket {
    if how in baseline then baseline[how] else EMPTY_BUCKET
  }

  function RecentStep(cutoff: int): Row -> Option<Row> {
    (r: Row) => if r.unix >= cutoff then Some(r) else None
  }

  function ValueStep(m: Metric, how: int, cutoff: int): Row -> Option<real> {
    (r: Row) => if r.unix < cutoff && r.how == how then Some(MetricValue(m, r)) else None
  }

  function DayStep(how: int, cutoff: int): Row -> Option<int> {
    (r: Row) => if r.unix < cutoff && r.how == how then Some(DayIndex(r.unix)) else None
  }

  ghost predicate ByTime(rows: seq<Row>) {
    forall i, j :: 0 <= i < j < |rows| ==> rows[i].unix <= rows[j].unix
  }

  // The bucket of one hour holds the older rows of that hour in order, and
  // counts their distinct days.
  ghost predicate IsBucket(b: Bucket, rows: seq<Row>, m: Metric, how: int, cutoff: int) {
    && b.values == Collect(rows, ValueStep(m, how, cutoff))
    && b.repeats == |Elements(Collect(rows, DayStep(how, cutoff)))|
  }

  // What the loop knows of one hour besides: the last day, and that no day is later.
  ghost predicate BucketSoFar(b: Bucket, rows: seq<Row>, m: Metric, how: int, cutoff: int) {
    var days := Collect(rows, DayStep(how, cutoff));
    && IsBucket(b, rows, m, how, cutoff)
    && (b.repeats == 0 <==> days == [])
    && (days != [] ==> b.lastDay in days && forall d :: d in days ==> d <= b.lastDay)
  }

  lemma NoBucket(m: Metric, how: int, cutoff: int)
    ensures BucketSoFar(EMPTY_BUCKET, [], m, how, cutoff)
  {
    assert Elements<int>([]) == {};
  }

  lemma DaysOrdered(a: int, b: int)
    requires a <= b
    ensures DayIndex(a) <= DayIndex(b)
  {
    DivisionOrdered(a, b);
    DivisionOrdered(-b, -a);
  }

  lemma DivisionOrdered(a: int, b: int)
    requires a <= b
    ensures a / 86400 <= b / 86400
  {}

  // A day in the list was the day of a row.
  lemma DaysAreOlder(rows: seq<Row>, r: Row, how: int, cutoff: int, d: int)
    requires forall i :: 0 <= i < |rows| ==> rows[i].unix <= r.unix
    requires d in Collect(rows, DayStep(how, cutoff))
    ensures d <= DayIndex(r.unix)
  {
    var s := CollectSource(rows, DayStep(how, cutoff), d);
    DaysOrdered(s.unix, r.unix);
  }

  // A row of another hour, or a judged one, leaves a bucket alone.
  lemma BucketUnmoved(b: Bucket, rows: seq<Row>, r: Row, m: Metric, how: int, cutoff: int)
    requires BucketSoFar(b, rows, m, how, cutoff) && (r.unix >= cutoff || r.how != how)
    ensures BucketSoFar(b, rows + [r], m, how, cutoff)
  {
    CollectNext(rows, r, ValueStep(m, how, cutoff));
    CollectNext(rows, r, DayStep(how, cutoff));
    var values, days := Collect(rows, ValueStep(m, how, cutoff)), Collect(rows, DayStep(how, cutoff));
    assert values + [] == values && days + [] == days;
  }

  function Grown(b: Bucket, m: Metric, r: Row): Bucket {
    var day := DayIndex(r.unix);
    if b.repeats == 0 || day != b.lastDay then Bucket(b.values + [MetricValue(m, r)], b.repeats + 1, day)
    else b.(values := b.values + [MetricValue(m, r)])
  }

  lemma BucketGrows(b: Bucket, rows: seq<Row>, r: Row, m: Metric, cutoff: int)
    requires BucketSoFar(b, rows, m, r.how, cutoff) && r.unix < cutoff
    requires forall i :: 0 <= i < |rows| ==> rows[i].unix <= r.unix
    ensures BucketSoFar(Grown(b, m, r), rows + [r], m, r.how, cutoff)
  {
    var days, day := Collect(rows, DayStep(r.how, cutoff)), DayIndex(r.unix);
    CollectNext(rows, r, ValueStep(m, r.how, cutoff));
    CollectNext(rows, r, DayStep(r.how, cutoff));
    forall d | d in days ensures d <= day {
      DaysAreOlder(rows, r, r.how, cutoff, d);
    }
    hide MetricValue, DayIndex, Collect;
    OneMoreDay(days, day);
  }

  lemma OneMoreDay(days: seq<int>, day: int)
    ensures |Elements(days + [day])| == |Elements(days)| + if day in days then 0 else 1
    ensures days == [] ==> |Elements(days)| == 0
    ensures days != [] ==> |Elements(days)| > 0
  {
    assert Elements(days + [day]) == Elements(days) + {day};
    assert days != [] ==> days[0] in Elements(days);
  }

  // The buckets of a series.
  function SplitBaseline(rows: seq<Row>, m: Metric, cutoff: int): map<int, Bucket> {
    if rows == [] then map[]
    else
      var baseline, r := SplitBaseline(rows[..|rows| - 1], m, cutoff), rows[|rows| - 1];
      if r.unix >= cutoff then baseline else baseline[r.how := Grown(BucketAt(baseline, r.how), m, r)]
  }

  // Every row goes to exactly one place: the judged window, or the bucket of
  // its hour. The rows come ordered by time.
  method SplitBehaviorSeries(rows: seq<Row>, m: Metric, cutoff: int)
    returns (baseline: map<int, Bucket>, recent: seq<Row>)
    requires ByTime(rows)
    ensures recent == Collect(rows, RecentStep(cutoff)) && baseline == SplitBaseline(rows, m, cutoff)
    ensures forall how :: IsBucket(BucketAt(baseline, how), rows, m, how, cutoff)
  {
    baseline, recent := map[], [];
    forall how ensures BucketSoFar(EMPTY_BUCKET, rows[..0], m, how, cutoff) {
      NoBucket(m, how, cutoff);
      assert rows[..0] == [];
    }
    assert rows[..0] == [];
    hide BucketSoFar, Grown;
    for i := 0 to |rows|
      invariant recent == Collect(rows[..i], RecentStep(cutoff)) && baseline == SplitBaseline(rows[..i], m, cutoff)
      invariant forall how :: BucketSoFar(BucketAt(baseline, how), rows[..i], m, how, cutoff)
    {
      var r := rows[i];
      CollectStep(rows, i, RecentStep(cutoff));
      SplitStep(rows, i, baseline, m, cutoff);
      assert rows[..i + 1][..i] == rows[..i];
      if r.unix >= cutoff {
        recent := recent + [r];
        continue;
      }
      baseline := baseline[r.how := Grown(BucketAt(baseline, r.how), m, r)];
    }
    assert rows[..|rows|] == rows;
    forall how ensures IsBucket(BucketAt(baseline, how), rows, m, how, cutoff) {
      IsBucketSoFar(BucketAt(baseline, how), rows, m, how, cutoff);
    }
  }

  lemma IsBucketSoFar(b: Bucket, rows: seq<Row>, m: Metric, how: int, cutoff: int)
    requires BucketSoFar(b, rows, m, how, cutoff)
    ensures IsBucket(b, rows, m, how, cutoff)
  {}

  lemma SplitStep(rows: seq<Row>, i: nat, baseline: map<int, Bucket>, m: Metric, cutoff: int)
    requires ByTime(rows) && i < |rows|
    requires forall how :: BucketSoFar(BucketAt(baseline, how), rows[..i], m, how, cutoff)
    ensures var r := rows[i];
            var baseline' := if r.unix >= cutoff then baseline
              else baseline[r.how := Grown(BucketAt(baseline, r.how), m, r)];
            forall how :: BucketSoFar(BucketAt(baseline', how), rows[..i + 1], m, how, cutoff)
  {
    hide BucketSoFar, Grown;
    var r := rows[i];
    assert rows[..i + 1] == rows[..i] + [r];
    var baseline' := if r.unix >= cutoff then baseline else baseline[r.how := Grown(BucketAt(baseline, r.how), m, r)];
    forall how ensures BucketSoFar(BucketAt(baseline', how), rows[..i + 1], m, how, cutoff) {
      if r.unix >= cutoff || r.how != how {
        BucketUnmoved(BucketAt(baseline, how), rows[..i], r, m, how, cutoff);
      } else {
        BucketGrows(BucketAt(baseline, how), rows[..i], r, m, cutoff);
      }
    }
  }

  // The older rows of a series.
  function OlderStep(cutoff: int): Row -> Option<Row> {
    (r: Row) => if r.unix < cutoff then Some(r) else None
  }

  lemma ValuesOfOlder(rows: seq<Row>, m: Metric, how: int, cutoff: int)
    ensures Collect(rows, ValueStep(m, how, cutoff))
              == Collect(Collect(rows, OlderStep(cutoff)), ValueStep(m, how, cutoff))
    ensures Collect(rows, DayStep(how, cutoff)) == Collect(Collect(rows, OlderStep(cutoff)), DayStep(how, cutoff))
  {
    CollectThrough(rows, OlderStep(cutoff), ValueStep(m, how, cutoff));
    CollectThrough(rows, OlderStep(cutoff), DayStep(how, cutoff));
  }

  // A judged row never enters a baseline: series that differ in judged rows
  // only have the same buckets.
  lemma JudgedRowsNeverCount(rows: seq<Row>, rows': seq<Row>, b: Bucket, b': Bucket, m: Metric, how: int, cutoff: int)
    requires Collect(rows, OlderStep(cutoff)) == Collect(rows', OlderStep(cutoff))
    requires IsBucket(b, rows, m, how, cutoff) && IsBucket(b', rows', m, how, cutoff)
    ensures b.values == b'.values && b.repeats == b'.repeats
  {
    ValuesOfOlder(rows, m, how, cutoff);
    ValuesOfOlder(rows', m, how, cutoff);
  }

  // The samples in the buckets of a list of hours.
  function SampleCount(rows: seq<Row>, m: Metric, cutoff: int, hours: seq<int>): nat {
    if hours == [] then 0
    else SampleCount(rows, m, cutoff, hours[1..]) + |Collect(rows, ValueStep(m, hours[0], cutoff))|
  }

  lemma {:induction false} OneMoreSample(init: seq<Row>, last: Row, m: Metric, cutoff: int, hours: seq<int>)
    requires NoRepeats(hours)
    ensures SampleCount(init + [last], m, cutoff, hours)
         == SampleCount(init, m, cutoff, hours) + if last.unix < cutoff && last.how in hours then 1 else 0
  {
    if hours != [] {
      OneMoreSample(init, last, m, cutoff, hours[1..]);
      CollectNext(init, last, ValueStep(m, hours[0], cutoff));
      assert last.how in hours <==> last.how == hours[0] || last.how in hours[1..];
      assert hours[0] !in hours[1..];
      hide Collect, MetricValue;
    }
  }

  lemma {:induction false} NoSamples(m: Metric, cutoff: int, hours: seq<int>)
    ensures SampleCount([], m, cutoff, hours) == 0
  {
    if hours != [] {
      NoSamples(m, cutoff, hours[1..]);
    }
  }

  // Nothing is lost and nothing is counted twice: each row is either judged or
  // a sample of its own hour, and of no other.
  lemma {:induction false} SplitConserves(rows: seq<Row>, m: Metric, cutoff: int, hours: seq<int>)
    requires NoRepeats(hours) && forall i :: 0 <= i < |rows| ==> rows[i].how in hours
    ensures |rows| == |Collect(rows, RecentStep(cutoff))| + SampleCount(rows, m, cutoff, hours)
  {
    if rows == [] {
      NoSamples(m, cutoff, hours);
    } else {
      var init, last := rows[..|rows| - 1], rows[|rows| - 1];
      SplitConserves(init, m, cutoff, hours);
      assert rows == init + [last];
      OneMoreSample(init, last, m, cutoff, hours);
      CollectNext(init, last, RecentStep(cutoff));
      hide Collect, SampleCount;
    }
  }
}
