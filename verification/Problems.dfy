// Rows of the problem table and the identities the detector gives them.
module Problems {
  datatype Option<+T> = None | Some(value: T)

  datatype Status = Open | Acknowledged | Resolved

  datatype Problem = Problem(
    id: string, ruleId: string, service: string, metric: string,
    external: bool, severity: string, status: Status, startedAt: int, note: string)

  predicate IsActive(p: Problem) { p.status == Open || p.status == Acknowledged }

  function MetricRule(service: string, metric: string): string {
    "anomaly:" + service + ":" + metric
  }

  const CLUSTER_PREFIX := "anomaly-cluster:"
  const EXT_CLUSTER_PREFIX := "anomaly-cluster:ext:"

  // Rule and row identity of the cluster rooted at a service.
  function ClusterId(source: string): string { CLUSTER_PREFIX + source }

  // The prefix is shared with the external-series clusters, which are not ours.
  predicate OwnsServiceCluster(ruleId: string) {
    CLUSTER_PREFIX <= ruleId && !(EXT_CLUSTER_PREFIX <= ruleId)
  }

  lemma MetricRuleInjective(service: string, m: string, n: string)
    ensures MetricRule(service, m) == MetricRule(service, n) ==> m == n
  {
    var a, b, p := MetricRule(service, m), MetricRule(service, n), "anomaly:" + service + ":";
    assert a == p + m && b == p + n;
    assert a[|p|..] == m && b[|p|..] == n;
  }

  lemma ClusterIdInjective(s: string, t: string)
    ensures ClusterId(s) == ClusterId(t) ==> s == t
  {
    assert ClusterId(s)[|CLUSTER_PREFIX|..] == s && ClusterId(t)[|CLUSTER_PREFIX|..] == t;
  }

  // A metric row is never a cluster row.
  lemma MetricRuleIsNoCluster(service: string, metric: string)
    ensures !(CLUSTER_PREFIX <= MetricRule(service, metric))
  {
    assert MetricRule(service, metric)[7] == ':' && CLUSTER_PREFIX[7] == '-';
  }

  lemma OwnedPrefix(s: string)
    ensures CLUSTER_PREFIX <= ClusterId(s)
  {}
}
