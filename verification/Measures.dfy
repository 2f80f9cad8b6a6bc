// What the value of a rule measured from VictoriaMetrics means.
module Measures {
  import opened Problems
  import opened AlertPlanner

  // The positive part of what the store answered for a service, 0 without an answer.
  ghost function Answer(t: AlertVMTick, service: string, key: Key): real
    reads t`vals
  {
    if key in t.vals && service in t.vals[key] && t.vals[key][service] > 0.0 then t.vals[key][service] else 0.0
  }

  // The answer for a service and a share of its requests.
  ghost function Share(t: AlertVMTick, service: string, key: Key, phi: string): Option<real>
    reads t`quant
  {
    if key in t.quant && service in t.quant[key] && phi in t.quant[key][service] then Some(t.quant[key][service][phi])
    else None
  }

  // Family 1, the old gRPC one, measures milliseconds; the others seconds.
  function Millis(fi: nat, d: real): real { if fi == 1 then d else 1000.0 * d }

  ghost predicate FromFamily(t: AlertVMTick, service: string, metric: string, window: int, m: Measure, fi: nat)
    reads t`vals, t`quant, t`failed
  {
    ValidState(t.st) && t.IsMeasure(service, metric, window, m) && m.source == FromVM(fi)
  }

  lemma WindowIsLong(t: AlertVMTick, service: string, metric: string, window: int, m: Measure, fi: nat)
    requires FromFamily(t, service, metric, window, m, fi)
    ensures window >= 120 && MetricKinds(metric).Some?
    ensures m.value == MetricValue(metric, t.SampleOf(service, MetricKinds(metric).value, fi, window))
    ensures m.count == Rounded(t.SampleOf(service, MetricKinds(metric).value, fi, window).count)
  {
    hide WhySpans, MetricValue;
    assert UsesVM(t.st, service, metric, window, fi);
  }

  // The measured number of requests is the nearest integer to what was answered.
  lemma CountMeaning(t: AlertVMTick, service: string, metric: string, window: int, m: Measure, fi: nat)
    requires FromFamily(t, service, metric, window, m, fi)
    ensures var requests := Answer(t, service, Key(fi, KCount, window));
            (m.count as real) - 0.5 <= requests < (m.count as real) + 0.5
  {
    WindowIsLong(t, service, metric, window, m, fi);
    hide FromFamily, MetricValue;
  }

  // Requests per second, times the window, are the requests.
  lemma RateMeaning(t: AlertVMTick, service: string, window: int, m: Measure, fi: nat)
    requires FromFamily(t, service, "request_rate", window, m, fi)
    ensures m.value.Some? && m.value.value * (window as real) == Answer(t, service, Key(fi, KCount, window))
  {
    WindowIsLong(t, service, "request_rate", window, m, fi);
    hide FromFamily;
  }

  lemma ErrorsMeaning(t: AlertVMTick, service: string, window: int, m: Measure, fi: nat)
    requires FromFamily(t, service, "error_count", window, m, fi)
    ensures m.value == Some(Answer(t, service, Key(fi, KErr, window)))
  {
    WindowIsLong(t, service, "error_count", window, m, fi);
    hide FromFamily;
  }

  // The percentage of requests that failed, capped at 100.
  lemma ErrorRateMeaning(t: AlertVMTick, service: string, window: int, m: Measure, fi: nat)
    requires FromFamily(t, service, "error_rate", window, m, fi)
    ensures var requests, errors := Answer(t, service, Key(fi, KCount, window)),
              Answer(t, service, Key(fi, KErr, window));
            && (m.value.Some? <==> requests > 0.0)
            && (requests > 0.0 && errors <= requests ==> m.value.value * requests == 100.0 * errors)
            && (requests > 0.0 && errors > requests ==> m.value.value == 100.0)
  {
    WindowIsLong(t, service, "error_rate", window, m, fi);
    var requests, errors := Answer(t, service, Key(fi, KCount, window)), Answer(t, service, Key(fi, KErr, window));
    hide FromFamily;
    if requests > 0.0 {
      RatioOrder(errors, requests);
    }
  }

  lemma RatioOrder(a: real, b: real)
    requires b > 0.0
    ensures a / b * 100.0 * b == 100.0 * a
    ensures a <= b <==> a / b * 100.0 <= 100.0
  {
    assert a / b * b == a;
    if a <= b {
      assert (1.0 - a / b) * b >= 0.0;
    }
  }

  // The average of the durations, in milliseconds whatever the family measures in.
  lemma AverageMeaning(t: AlertVMTick, service: string, window: int, m: Measure, fi: nat)
    requires FromFamily(t, service, "avg_ms", window, m, fi)
    ensures var requests, sums := Answer(t, service, Key(fi, KCount, window)), Key(fi, KSum, window);
            && (m.value.Some? <==>
                  requests > 0.0 && sums in t.vals && service in t.vals[sums] && t.vals[sums][service] >= 0.0)
            && (m.value.Some? ==> m.value.value * requests == Millis(fi, t.vals[sums][service]))
  {
    WindowIsLong(t, service, "avg_ms", window, m, fi);
    hide FromFamily;
    var requests, sums := Answer(t, service, Key(fi, KCount, window)), Key(fi, KSum, window);
    if requests > 0.0 && sums in t.vals && service in t.vals[sums] {
      Average(t.vals[sums][service], requests, Scale(fi));
    }
  }

  lemma Average(sum: real, count: real, scale: real)
    requires count > 0.0
    ensures sum / count * scale * count == sum * scale
  {
    assert sum / count * count == sum;
  }

  // A quantile is the answer for its own share, in milliseconds.
  lemma QuantileMeaning(t: AlertVMTick, service: string, metric: string, phi: string, window: int, m: Measure, fi: nat)
    requires FromFamily(t, service, metric, window, m, fi)
    requires (metric, phi) in {("p50_ms", "0.5"), ("p95_ms", "0.95"), ("p99_ms", "0.99")}
    ensures var answer := Share(t, service, Key(fi, KQuant, window), phi);
            m.value == if answer.Some? then Some(Millis(fi, answer.value)) else None
  {
    WindowIsLong(t, service, metric, window, m, fi);
    hide FromFamily;
  }

  // Quantiles that the store answers in order are measured in order.
  lemma QuantilesInOrder(
    t: AlertVMTick, service: string, window: int, p50: Measure, p95: Measure, p99: Measure, fi: nat)
    requires FromFamily(t, service, "p50_ms", window, p50, fi) && FromFamily(t, service, "p95_ms", window, p95, fi)
    requires FromFamily(t, service, "p99_ms", window, p99, fi)
    requires var key := Key(fi, KQuant, window);
             var (a, b, c) := (Share(t, service, key, "0.5"), Share(t, service, key, "0.95"),
               Share(t, service, key, "0.99"));
             a.Some? && b.Some? && c.Some? && a.value <= b.value <= c.value
    ensures p50.value.Some? && p95.value.Some? && p99.value.Some?
    ensures p50.value.value <= p95.value.value <= p99.value.value
  {
    QuantileMeaning(t, service, "p50_ms", "0.5", window, p50, fi);
    QuantileMeaning(t, service, "p95_ms", "0.95", window, p95, fi);
    QuantileMeaning(t, service, "p99_ms", "0.99", window, p99, fi);
    hide FromFamily, Share;
  }

  // ----- which family is used -----

  // A rule measured from a family: its services were read and hold the service,
  // an error metric has status labels for it, no kind backs off, and every family
  // before it was read and does not hold the service. A family that could not be
  // read hides the ones after it.
  lemma FamilyMeaning(st: State, service: string, metric: string, window: int, fi: nat)
    requires ValidState(st) && UsesVM(st, service, metric, window, fi)
    ensures !st.spanSetting && st.configured && window >= 120
    ensures fi < |st.meta| && st.meta[fi].ok && st.presence[fi].Some? && service in st.presence[fi].value
    ensures metric in {"error_count", "error_rate"} ==>
              st.meta[fi].statusLabels != [] && st.meta[fi].statusServices.Some?
              && service in st.meta[fi].statusServices.value
    ensures forall kind :: Needs(metric, kind) ==>
              !((fi, kind) in st.backoff && st.now < st.backoff[(fi, kind)])
    ensures forall j :: 0 <= j < fi ==>
              if st.meta[j].ok then st.presence[j].Some? && service !in st.presence[j].value
              else !st.meta[j].reason.VMError?
  {
    forall kind | Needs(metric, kind) ensures Measurable(st, fi, service, kind) {
      KindsIff(metric, kind);
      KindsAreMeasurable(st, service, metric, window, fi, Key(fi, kind, window));
    }
    assert metric in {"error_count", "error_rate"} ==> Needs(metric, KErr);
    hide MetricKinds, Needs;
    forall j | 0 <= j < fi
      ensures if st.meta[j].ok then st.presence[j].Some? && service !in st.presence[j].value
              else !st.meta[j].reason.VMError?
    {
      assert PassesOn(st, service, j);
    }
  }

  // ----- what is queried for -----

  // Which query a metric needs: the requests always, and what it is made of.
  predicate Needs(metric: string, kind: Kind) {
    match kind
    case KCount =>
      metric in {"request_rate", "error_count", "error_rate", "avg_ms", "p50_ms", "p95_ms", "p99_ms"}
    case KErr => metric in {"error_count", "error_rate"}
    case KSum => metric == "avg_ms"
    case KQuant => metric in {"p50_ms", "p95_ms", "p99_ms"}
  }

  lemma KindsIff(metric: string, kind: Kind)
    ensures MetricKinds(metric).Some? && kind in MetricKinds(metric).value <==> Needs(metric, kind)
  {}

  // No query is planned or skipped that no rule needs, for a window too short,
  // for a family without services, or for a kind that backs off.
  lemma PlannedIsNeeded(st: State, needs: seq<Need>, plan: seq<Key>, skipped: seq<Key>, key: Key)
    requires ValidState(st) && IsPlan(st, needs, plan, skipped) && (key in plan || key in skipped)
    ensures exists n :: n in needs && n.window == key.window >= 120 && Needs(n.metric, key.kind)
    ensures key.fam < |st.meta| && st.meta[key.fam].ok && st.presence[key.fam].Some? && st.presence[key.fam].value != {}
    ensures !((key.fam, key.kind) in st.backoff && st.now < st.backoff[(key.fam, key.kind)])
    ensures key.kind == KErr ==> st.meta[key.fam].statusLabels != []
  {
    assert key in plan + skipped;
    assert Wanted(st, needs, key);
    hide IsPlan, MetricKinds, Needs;
    var n :| n in needs && Asks(n, key.window, key.kind);
    KindsIff(n.metric, key.kind);
  }
}
