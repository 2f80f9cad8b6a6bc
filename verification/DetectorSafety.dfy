// What every tick keeps, whatever verdicts, blames and failing stores it meets.
module DetectorSafety {
  import opened Problems
  import opened Sorting
  import opened Collecting
  import opened Clustering
  import opened Detector

  // ----- the table -----

  ghost predicate SameKey(p: Problem, q: Problem) { HasKey(p, q.ruleId, q.service) }

  // At most one active row per rule and service.
  ghost predicate UniqueActive(rows: map<string, Problem>) {
    forall a, b ::
      a in rows && b in rows && IsActive(rows[a]) && IsActive(rows[b]) && SameKey(rows[a], rows[b]) ==> a == b
  }

  // The row of a cluster is known by its rule; the ones of this detector are
  // filed under their source.
  ghost predicate ClusterShape(p: Problem) {
    && (CLUSTER_PREFIX <= p.id || CLUSTER_PREFIX <= p.ruleId ==> p.id == p.ruleId)
    && (OwnsServiceCluster(p.ruleId) ==> p.ruleId == ClusterId(p.service))
  }

  ghost predicate WellFormed(rows: map<string, Problem>) {
    && Keyed(rows) && "" !in rows
    && (forall id :: id in rows ==> ClusterShape(rows[id]))
    && UniqueActive(rows)
  }

  // Distinct services and metrics, and random identities that are new.
  ghost predicate FreshIds(r: Reads, rows: map<string, Problem>) {
    && (forall s, m :: r.newId(s, m) !in rows && r.newId(s, m) != "" && !(CLUSTER_PREFIX <= r.newId(s, m)))
    && (forall s, m, s', m' :: r.newId(s, m) == r.newId(s', m') ==> s == s' && m == m')
  }

  ghost predicate GoodReads(r: Reads, rows: map<string, Problem>) {
    NoRepeats(r.services) && NoRepeats(r.tracked) && FreshIds(r, rows)
  }

  // ----- snapshot lookups -----

  lemma {:induction false} ByKeyFacts(snap: seq<Problem>, ruleId: string, service: string)
    ensures ByKey(snap, ruleId, service).Some? ==>
              ByKey(snap, ruleId, service).value in snap && HasKey(ByKey(snap, ruleId, service).value, ruleId, service)
    ensures ByKey(snap, ruleId, service).None? ==> forall p :: p in snap ==> !HasKey(p, ruleId, service)
    ensures ByKey(snap, ruleId, service).Some? ==>
              forall p :: p in snap && HasKey(p, ruleId, service) ==>
                p.startedAt <= ByKey(snap, ruleId, service).value.startedAt
  {
    if snap != [] {
      var init, last := snap[..|snap| - 1], snap[|snap| - 1];
      ByKeyFacts(init, ruleId, service);
      assert forall p :: p in snap <==> p in init || p == last;
    }
  }

  lemma {:induction false} ByIdFacts(snap: seq<Problem>, id: string)
    ensures ById(snap, id).Some? ==> ById(snap, id).value in snap && ById(snap, id).value.id == id
  {
    if snap != [] && snap[|snap| - 1].id != id {
      ByIdFacts(snap[..|snap| - 1], id);
    }
  }

  lemma ExistingFacts(snap: seq<Problem>, rows: map<string, Problem>, service: string, metric: string)
    requires WellFormed(rows) && IsPartial(snap, rows)
    ensures Existing(snap, service, metric).Some? ==>
              Existing(snap, service, metric).value in snap
              && HasKey(Existing(snap, service, metric).value, MetricRule(service, metric), service)
    ensures Existing(snap, service, metric).None? ==>
              forall p :: p in snap ==> !HasKey(p, MetricRule(service, metric), service)
  {
    ByKeyFacts(snap, MetricRule(service, metric), service);
    hide ClusterShape, UniqueActive, ByKey;
  }

  // row replaces a row of the snapshot with this rule and service.
  ghost predicate Replaces(snap: seq<Problem>, row: Problem, ruleId: string, service: string) {
    HasKey(row, ruleId, service) && exists p :: p in snap && p.id == row.id && HasKey(p, ruleId, service)
  }

  lemma SameIdSameKey(snap: seq<Problem>, a: Problem, b: Problem, ra: string, sa: string, rb: string, sb: string)
    requires forall i, j :: 0 <= i < j < |snap| ==> snap[i].id != snap[j].id
    requires Replaces(snap, a, ra, sa) && Replaces(snap, b, rb, sb) && a.id == b.id
    ensures ra == rb && sa == sb
  {}

  // ----- what each phase writes -----

  ghost predicate Clusterish(p: Problem) { CLUSTER_PREFIX <= p.id }

  ghost predicate BatchFact(r: Reads, snap: seq<Problem>, w: Write) {
    && Replaces(snap, w.row, MetricRule(w.row.service, LOAD_METRIC), w.row.service)
    && r.isBatch(w.row.service) && (w.row.ruleId, w.row.service) in Resolving(r, snap)
    && w.row.status == Resolved && !Clusterish(w.row)
  }

  ghost predicate MergeFact(r: Reads, snap: seq<Problem>, cl: Cluster, w: Write) {
    && w.step == Merge(ClusterId(cl.source))
    && Replaces(snap, w.row, MetricRule(w.row.service, w.row.metric), w.row.service)
    && (w.row.ruleId, w.row.service) !in Resolving(r, snap)
    && w.row.service in ClusterServices(cl)
    && w.row.status == Resolved && !Clusterish(w.row)
  }

  ghost predicate ClusterFact(r: Reads, snap: seq<Problem>, joined: seq<Candidate>, cl: Cluster, w: Write) {
    && w.step == ClusterWrite && w.row.id == w.row.ruleId == ClusterId(cl.source)
    && cl.source in Anomalous(r, snap, joined)
    && IsActive(w.row) && ClusterShape(w.row)
  }

  ghost predicate StaleFact(r: Reads, snap: seq<Problem>, joined: seq<Candidate>, w: Write) {
    && Replaces(snap, w.row, w.row.ruleId, w.row.service)
    && w.row.id == ClusterId(w.row.service) && OwnsServiceCluster(w.row.ruleId)
    && w.row.service !in Anomalous(r, snap, joined)
    && w.row.status == Resolved
  }

  ghost predicate RewriteFact(r: Reads, snap: seq<Problem>, merged: set<string>, pa: Pending, w: Write) {
    && Replaces(snap, w.row, MetricRule(pa.service, pa.metric), pa.service)
    && w.row.id !in merged && w.step != OpenNew
  }

  ghost predicate OpenFact(r: Reads, snap: seq<Problem>, pa: Pending, w: Write) {
    && w.step == OpenNew && w.row.id == r.newId(pa.service, pa.metric) && w.row.status == Open
    && HasKey(w.row, MetricRule(pa.service, pa.metric), pa.service)
    && Existing(snap, pa.service, pa.metric).None?
  }

  ghost predicate AppliedFact(r: Reads, snap: seq<Problem>, merged: set<string>, pa: Pending, w: Write) {
    && !Clusterish(w.row)
    && (RewriteFact(r, snap, merged, pa, w) || OpenFact(r, snap, pa, w))
  }

  // A row of the snapshot filed under a metric is no cluster row.
  lemma MetricRowsAreNoClusters(
    rows: map<string, Problem>, snap: seq<Problem>, p: Problem, service: string, metric: string)
    requires WellFormed(rows) && IsPartial(snap, rows) && p in snap && p.ruleId == MetricRule(service, metric)
    ensures !Clusterish(p)
  {
    MetricRuleIsNoCluster(service, metric);
    assert ClusterShape(rows[p.id]);
  }

  lemma BatchFacts(r: Reads, rows: map<string, Problem>, snap: seq<Problem>, w: Write)
    requires WellFormed(rows) && IsPartial(snap, rows) && w in BatchWrites(r, snap)
    ensures BatchFact(r, snap, w)
  {
    var p := CollectSource(snap, BatchStep(r), w);
    MetricRowsAreNoClusters(rows, snap, p, p.service, LOAD_METRIC);
    hide WellFormed, IsPartial, MetricRule, AllPending;
    assert HasKey(p, MetricRule(p.service, LOAD_METRIC), p.service);
  }

  lemma StaleFacts(r: Reads, rows: map<string, Problem>, snap: seq<Problem>, joined: seq<Candidate>, w: Write)
    requires WellFormed(rows) && IsPartial(snap, rows)
    requires w in Collect(snap, StaleStep(Anomalous(r, snap, joined)))
    ensures StaleFact(r, snap, joined, w)
  {
    var p := CollectSource(snap, StaleStep(Anomalous(r, snap, joined)), w);
    assert ClusterShape(rows[p.id]);
    hide Anomalous;
    assert HasKey(p, p.ruleId, p.service);
  }

  lemma AppliedFacts(
    r: Reads, rows: map<string, Problem>, snap: seq<Problem>, suppressed: set<string>, merged: set<string>,
    pa: Pending, w: Write)
    requires WellFormed(rows) && GoodReads(r, rows) && IsPartial(snap, rows)
    requires ApplyStep(r, snap, suppressed, merged)(pa) == Some(w)
    ensures AppliedFact(r, snap, merged, pa, w)
  {
    ExistingFacts(snap, rows, pa.service, pa.metric);
    var ex := Existing(snap, pa.service, pa.metric);
    if ex.Some? {
      MetricRowsAreNoClusters(rows, snap, ex.value, pa.service, pa.metric);
      hide WellFormed, IsPartial, MetricRule, Existing;
      assert HasKey(ex.value, MetricRule(pa.service, pa.metric), pa.service);
    } else {
      hide WellFormed, IsPartial, MetricRule, Existing;
    }
  }

  // ----- candidates and clusters -----

  lemma JoinedFacts(
    r: Reads, snap: seq<Problem>, joined: seq<Candidate>, resolving: set<(string, string)>, c: Candidate)
    requires AreRecent(joined, r, snap, resolving) && c in joined
    ensures c.existing.Some? && c.existing.value in snap && IsRecent(c.existing.value, resolving, r.tracked, r.now)
    ensures c.service == c.existing.value.service && c.metric == c.existing.value.metric
  {
    var recent := Collect(snap, RecentStep(resolving, r.tracked, r.now));
    SameElements(joined, recent);
    var p := CollectSource(snap, RecentStep(resolving, r.tracked, r.now), c);
  }

  lemma FreshFacts(r: Reads, snap: seq<Problem>, c: Candidate)
    requires c in FreshOpens(r, snap)
    ensures c.existing.None? && c.service in OpenServices(AllPending(r, snap))
    ensures Existing(snap, c.service, c.metric).None?
  {
    var pa := CollectSource(AllPending(r, snap), FreshStep(r, snap), c);
    hide AllPending, Existing;
  }

  lemma CandidatesAreAnomalous(r: Reads, snap: seq<Problem>, joined: seq<Candidate>)
    ensures Services(FreshOpens(r, snap) + joined) <= Anomalous(r, snap, joined)
  {
    hide FreshOpens, OpenServices;
    forall c | c in FreshOpens(r, snap) + joined ensures c.service in Anomalous(r, snap, joined) {
      if c in FreshOpens(r, snap) {
        FreshFacts(r, snap, c);
      }
    }
  }

  // The clusters of a tick, each by itself and in pairs.
  ghost predicate ClustersApart(clusters: seq<Cluster>, cands: seq<Candidate>) {
    && (forall k :: 0 <= k < |clusters| ==> clusters[k].source in Services(cands))
    && (forall k, m :: 0 <= k < |clusters| && m in clusters[k].members ==> m in cands)
    && (forall i, j :: 0 <= i < j < |clusters| ==> ClusterServices(clusters[i]) !! ClusterServices(clusters[j]))
  }

  lemma {:induction false} FitMeansApart(clusters: seq<Cluster>, cands: seq<Candidate>)
    requires ClustersFit(clusters, cands)
    ensures ClustersApart(clusters, cands)
  {
    if clusters != [] {
      var before, cl := clusters[..|clusters| - 1], clusters[|clusters| - 1];
      FitMeansApart(before, cands);
      assert forall m :: m in cl.members ==> m in Elements(cands);
      hide ClusterServices, Services, ClustersFit;
      forall i | 0 <= i < |before| ensures ClusterServices(before[i]) !! ClusterServices(cl) {
        assert ClusterServices(before[i]) <= Grouped(before);
      }
    }
  }

  lemma {:induction false} HaveBlocksAt(
    blocks: seq<seq<Attempt>>, clusters: seq<Cluster>, joined: seq<Candidate>, r: Reads, snap: seq<Problem>)
    requires HaveBlocks(blocks, clusters, joined, r, snap)
    ensures |blocks| == |clusters|
    ensures forall k :: 0 <= k < |blocks| ==> HasBlock(blocks[k], clusters[k], joined, r, snap)
  {
    hide HasBlock;
    if blocks != [] {
      HaveBlocksAt(blocks[..|blocks| - 1], clusters[..|clusters| - 1], joined, r, snap);
    }
  }

  // A row that is folded in: of a joined candidate whose service is in the cluster.
  lemma TargetFacts(r: Reads, rows: map<string, Problem>, snap: seq<Problem>, t: Run, k: nat, p: Problem)
    requires WellFormed(rows) && IsPartial(snap, rows) && IsTick(r, snap, t)
    requires k < |t.clusters| && IsTarget(p, t.clusters[k], FreshOpens(r, snap) + t.joined)
    ensures MergeFact(r, snap, t.clusters[k], MergeWrite(t.clusters[k].source, p))
  {
    var cands, cl := FreshOpens(r, snap) + t.joined, t.clusters[k];
    TickClusters(r, snap, t);
    var c :| (c in cl.members || (c in cands && c.service == cl.source)) && c.existing == Some(p);
    TargetIsRecent(r, snap, t, k, p, c);
    MetricRowsAreNoClusters(rows, snap, p, p.service, p.metric);
    hide *;
    RecentIsMergeable(r, snap, cl, p);
  }

  lemma RecentIsMergeable(r: Reads, snap: seq<Problem>, cl: Cluster, p: Problem)
    requires p in snap && IsRecent(p, Resolving(r, snap), r.tracked, r.now) && !Clusterish(p)
    requires p.service in ClusterServices(cl)
    ensures MergeFact(r, snap, cl, MergeWrite(cl.source, p))
  {
    hide Resolving, ClusterServices, MetricRule, ClusterId, Clusterish;
    assert HasKey(p, MetricRule(p.service, p.metric), p.service);
    ClusterishById(p, MergeWrite(cl.source, p).row);
  }

  lemma ClusterishById(a: Problem, b: Problem)
    requires a.id == b.id
    ensures Clusterish(a) == Clusterish(b)
  {}

  lemma TickClusters(r: Reads, snap: seq<Problem>, t: Run)
    requires IsTick(r, snap, t)
    ensures ClustersApart(t.clusters, FreshOpens(r, snap) + t.joined)
    ensures AreRecent(t.joined, r, snap, Resolving(r, snap))
  {
    assert t.Cands(r, snap) == FreshOpens(r, snap) + t.joined;
    hide ClustersFit, AreRecent, FreshOpens, Collect, Writes, HaveBlocks, MergedIds, Flatten, Grouped;
    FitMeansApart(t.clusters, t.Cands(r, snap));
  }

  lemma TargetIsRecent(r: Reads, snap: seq<Problem>, t: Run, k: nat, p: Problem, c: Candidate)
    requires k < |t.clusters| && ClustersApart(t.clusters, FreshOpens(r, snap) + t.joined)
    requires AreRecent(t.joined, r, snap, Resolving(r, snap))
    requires c in t.clusters[k].members || (c in FreshOpens(r, snap) + t.joined && c.service == t.clusters[k].source)
    requires c.existing == Some(p)
    ensures p in snap && IsRecent(p, Resolving(r, snap), r.tracked, r.now)
              && p.service in ClusterServices(t.clusters[k])
  {
    hide FreshOpens, AreRecent, IsRecent, Resolving;
    assert c in FreshOpens(r, snap) + t.joined;
    if c in FreshOpens(r, snap) {
      FreshFacts(r, snap, c);
    }
    JoinedFacts(r, snap, t.joined, Resolving(r, snap), c);
  }

  lemma ClusterFacts(
    r: Reads, rows: map<string, Problem>, snap: seq<Problem>, t: Run, k: nat, row: Problem, targets: seq<Problem>,
    critical: bool)
    requires WellFormed(rows) && IsPartial(snap, rows) && IsTick(r, snap, t) && k < |t.clusters|
    requires IsClusterRow(row, t.clusters[k], targets, critical, r, snap)
    ensures ClusterFact(r, snap, t.joined, t.clusters[k], Write(ClusterWrite, row))
  {
    var cl := t.clusters[k];
    TickClusters(r, snap, t);
    CandidatesAreAnomalous(r, snap, t.joined);
    hide IsTick, Anomalous, FreshOpens;
    assert cl.source in Anomalous(r, snap, t.joined);
    hide ClustersApart, Services;
    ClusterRowShape(r, rows, snap, cl, row, targets, critical);
  }

  lemma ClusterRowShape(
    r: Reads, rows: map<string, Problem>, snap: seq<Problem>, cl: Cluster, row: Problem, targets: seq<Problem>,
    critical: bool)
    requires WellFormed(rows) && IsPartial(snap, rows)
    requires IsClusterRow(row, cl, targets, critical, r, snap)
    ensures row.id == row.ruleId == ClusterId(cl.source) && IsActive(row) && ClusterShape(row)
  {
    ByIdFacts(snap, ClusterId(cl.source));
    OwnedPrefix(cl.source);
    hide ById, IsClusterStart;
    var existing := Named(ById(snap, ClusterId(cl.source)));
    if existing.Some? {
      assert ClusterShape(rows[existing.value.id]);
    }
  }

  // ----- every row is written at most once -----

  ghost predicate Clash(a: Attempt, b: Attempt) { a.ok && b.ok && a.write.row.id == b.write.row.id }

  // No two stored writes of a run are to the same row.
  ghost predicate Once(run: seq<Attempt>) {
    forall i, j :: 0 <= i < j < |run| ==> !Clash(run[i], run[j])
  }

  ghost predicate NoClash(a: seq<Attempt>, b: seq<Attempt>) {
    forall x, y :: x in a && y in b ==> !Clash(x, y)
  }

  lemma OnceConcat(a: seq<Attempt>, b: seq<Attempt>)
    requires Once(a) && Once(b) && NoClash(a, b)
    ensures Once(a + b)
  {
    hide Clash;
    forall i, j | 0 <= i < j < |a + b| ensures !Clash((a + b)[i], (a + b)[j]) {
      if i < |a| && j >= |a| {
        assert a[i] in a && b[j - |a|] in b;
      }
    }
  }

  lemma NoClashConcat(a: seq<Attempt>, b: seq<Attempt>, c: seq<Attempt>)
    requires NoClash(a, b) && NoClash(a, c)
    ensures NoClash(a, b + c)
  {
    hide Clash;
  }

  ghost predicate SameId(w: Write, w': Write) { w.row.id == w'.row.id }

  lemma OnceFromWrites(run: seq<Attempt>, ws: seq<Write>)
    requires Writes(run) == ws && Apart(ws, SameId)
    ensures Once(run)
  {
    forall i, j | 0 <= i < j < |run| ensures !Clash(run[i], run[j]) {
      assert !SameId(ws[i], ws[j]);
    }
  }

  lemma SnapshotRowsOnce(rows: map<string, Problem>, snap: seq<Problem>, f: Problem -> Option<Write>)
    requires IsPartial(snap, rows)
    requires forall p :: p in snap && f(p).Some? ==> f(p).value.row.id == p.id
    ensures Apart(Collect(snap, f), SameId)
  {
    assert NoRepeats(snap);
    forall p, q | p in snap && q in snap && p != q && f(p).Some? && f(q).Some? ensures !SameId(f(p).value, f(q).value) {
      assert p.id != q.id;
    }
    CollectApart(snap, f, SameId);
  }

  lemma BatchOnce(r: Reads, rows: map<string, Problem>, snap: seq<Problem>, run: seq<Attempt>)
    requires IsPartial(snap, rows) && Writes(run) == BatchWrites(r, snap)
    ensures Once(run)
  {
    SnapshotRowsOnce(rows, snap, BatchStep(r));
    OnceFromWrites(run, BatchWrites(r, snap));
  }

  lemma StaleOnce(rows: map<string, Problem>, snap: seq<Problem>, anomalous: set<string>, run: seq<Attempt>)
    requires IsPartial(snap, rows) && Writes(run) == Collect(snap, StaleStep(anomalous))
    ensures Once(run)
  {
    SnapshotRowsOnce(rows, snap, StaleStep(anomalous));
    OnceFromWrites(run, Collect(snap, StaleStep(anomalous)));
  }

  // ----- one verdict per (service, metric) -----

  lemma {:induction false} PairFacts(services: seq<string>, metrics: seq<string>, pair: (string, string))
    ensures pair in Pairs(services, metrics) <==> pair.0 in services && pair.1 in metrics
  {
    if services != [] {
      var init, last := services[..|services| - 1], services[|services| - 1];
      PairFacts(init, metrics, pair);
      RowOfPairsIs(last, metrics, pair);
      assert pair.0 in services <==> pair.0 in init || pair.0 == last;
      hide Pairs;
      PairsStep(services, |init|, metrics);
      assert services[..|init| + 1] == services;
    }
  }

  lemma RowOfPairsIs(service: string, metrics: seq<string>, pair: (string, string))
    ensures pair in RowOfPairs(service, metrics) <==> pair.0 == service && pair.1 in metrics
  {
    var row := RowOfPairs(service, metrics);
    if pair in row {
      var j :| 0 <= j < |row| && row[j] == pair;
    }
    if pair.0 == service && pair.1 in metrics {
      var j :| 0 <= j < |metrics| && metrics[j] == pair.1;
      assert row[j] == pair;
    }
  }

  lemma {:induction false} PairsOnce(services: seq<string>, metrics: seq<string>)
    requires NoRepeats(services) && NoRepeats(metrics)
    ensures NoRepeats(Pairs(services, metrics))
  {
    if services != [] {
      var init, last := services[..|services| - 1], services[|services| - 1];
      PairsOnce(init, metrics);
      var before, row := Pairs(init, metrics), RowOfPairs(last, metrics);
      assert NoRepeats(row);
      hide Pairs, RowOfPairs;
      forall i, j | 0 <= i < |before| && 0 <= j < |row| ensures before[i] != row[j] {
        PairFacts(init, metrics, before[i]);
        RowOfPairsIs(last, metrics, row[j]);
      }
      PairsStep(services, |init|, metrics);
      assert services[..|init| + 1] == services;
    }
  }

  ghost predicate SamePair(a: Pending, b: Pending) { a.service == b.service && a.metric == b.metric }

  lemma PendingOnce(r: Reads, rows: map<string, Problem>, snap: seq<Problem>)
    requires GoodReads(r, rows)
    ensures Apart(AllPending(r, snap), SamePair) && NoRepeats(AllPending(r, snap))
  {
    PairsOnce(r.services, r.tracked);
    var f, pairs := PendingStep(r, snap), Pairs(r.services, r.tracked);
    forall x, y | x in pairs && y in pairs && x != y && f(x).Some? && f(y).Some?
      ensures !SamePair(f(x).value, f(y).value)
    {
      PendingIs(r, snap, x, f(x).value);
      PendingIs(r, snap, y, f(y).value);
    }
    hide PendingStep;
    CollectApart(pairs, f, SamePair);
    ApartIsDistinct(AllPending(r, snap));
  }

  lemma ApartIsDistinct(pending: seq<Pending>)
    requires Apart(pending, SamePair)
    ensures NoRepeats(pending)
    ensures forall a, b :: a in pending && b in pending && a != b ==> !SamePair(a, b)
  {
    forall i, j | 0 <= i < j < |pending| ensures pending[i] != pending[j] {
      assert !SamePair(pending[i], pending[j]);
    }
    forall a, b | a in pending && b in pending && a != b ensures !SamePair(a, b) {
      var i :| 0 <= i < |pending| && pending[i] == a;
      var j :| 0 <= j < |pending| && pending[j] == b;
      assert i < j ==> !SamePair(pending[i], pending[j]);
      assert j < i ==> !SamePair(pending[j], pending[i]);
    }
  }

  // Two verdicts never write the same row.
  lemma VerdictsApart(
    r: Reads, rows: map<string, Problem>, snap: seq<Problem>, merged: set<string>, pa: Pending, w: Write, pb: Pending,
    v: Write)
    requires GoodReads(r, rows) && IsPartial(snap, rows)
    requires AppliedFact(r, snap, merged, pa, w) && AppliedFact(r, snap, merged, pb, v) && !SamePair(pa, pb)
    ensures !SameId(w, v)
  {
    if w.row.id == v.row.id {
      if RewriteFact(r, snap, merged, pa, w) && RewriteFact(r, snap, merged, pb, v) {
        SameIdSameKey(snap, w.row, v.row, MetricRule(pa.service, pa.metric), pa.service,
                      MetricRule(pb.service, pb.metric), pb.service);
        MetricRuleInjective(pa.service, pa.metric, pb.metric);
        assert false;
      }
      NewIdsAreNew(r, rows, snap, pa);
      NewIdsAreNew(r, rows, snap, pb);
    }
  }

  lemma NewIdsAreNew(r: Reads, rows: map<string, Problem>, snap: seq<Problem>, pa: Pending)
    requires FreshIds(r, rows) && IsPartial(snap, rows)
    ensures forall p :: p in snap ==> p.id != r.newId(pa.service, pa.metric)
  {}

  lemma AppliedOnce(
    r: Reads, rows: map<string, Problem>, snap: seq<Problem>, suppressed: set<string>, merged: set<string>,
    run: seq<Attempt>)
    requires WellFormed(rows) && GoodReads(r, rows) && IsPartial(snap, rows)
    requires Writes(run) == Collect(AllPending(r, snap), ApplyStep(r, snap, suppressed, merged))
    ensures Once(run)
  {
    hide *;
    AppliedApart(r, rows, snap, suppressed, merged);
    OnceFromWrites(run, Collect(AllPending(r, snap), ApplyStep(r, snap, suppressed, merged)));
  }

  // No two verdicts even attempt to write the same row.
  lemma AppliedApart(
    r: Reads, rows: map<string, Problem>, snap: seq<Problem>, suppressed: set<string>, merged: set<string>)
    requires WellFormed(rows) && GoodReads(r, rows) && IsPartial(snap, rows)
    ensures Apart(Collect(AllPending(r, snap), ApplyStep(r, snap, suppressed, merged)), SameId)
  {
    PendingOnce(r, rows, snap);
    var pending, f := AllPending(r, snap), ApplyStep(r, snap, suppressed, merged);
    ApartIsDistinct(pending);
    hide *;
    forall x, y | x in pending && y in pending && x != y && f(x).Some? && f(y).Some?
      ensures !SameId(f(x).value, f(y).value)
    {
      AppliedFacts(r, rows, snap, suppressed, merged, x, f(x).value);
      AppliedFacts(r, rows, snap, suppressed, merged, y, f(y).value);
      VerdictsApart(r, rows, snap, merged, x, f(x).value, y, f(y).value);
    }
    CollectApart(pending, f, SameId);
  }

  // ----- the writes of one cluster -----

  ghost predicate GoodBlock(r: Reads, snap: seq<Problem>, joined: seq<Candidate>, cl: Cluster, block: seq<Attempt>) {
    && |block| >= 1 && ClusterFact(r, snap, joined, cl, block[0].write)
    && (|block| > 1 ==> block[0].ok)
    && (forall i :: 1 <= i < |block| ==> MergeFact(r, snap, cl, block[i].write))
  }

  lemma TickBlock(r: Reads, snap: seq<Problem>, t: Run, k: nat)
    requires IsTick(r, snap, t) && k < |t.blocks|
    ensures |t.blocks| == |t.clusters|
    ensures IsBlock(t.blocks[k], t.clusters[k], TargetsOf(t.clusters[k], FreshOpens(r, snap) + t.joined),
                    IsCritical(t.clusters[k].source, r, snap, t.joined), r, snap)
  {
    hide ClustersFit, AreRecent, FreshOpens, Collect, Writes, MergedIds, Flatten, Grouped, IsBlock, IsCritical;
    hide TargetsOf;
    hide HaveBlocks;
    HaveBlocksAt(t.blocks, t.clusters, t.joined, r, snap);
    assert HasBlock(t.blocks[k], t.clusters[k], t.joined, r, snap);
  }

  lemma BlockFacts(r: Reads, rows: map<string, Problem>, snap: seq<Problem>, t: Run, k: nat)
    requires WellFormed(rows) && IsPartial(snap, rows) && IsTick(r, snap, t) && k < |t.blocks|
    ensures |t.blocks| == |t.clusters|
    ensures GoodBlock(r, snap, t.joined, t.clusters[k], t.blocks[k]) && Once(t.blocks[k])
  {
    TickBlock(r, snap, t, k);
    var block, cl := t.blocks[k], t.clusters[k];
    var targets := TargetsOf(cl, FreshOpens(r, snap) + t.joined);
    hide *;
    TargetsAre(cl, FreshOpens(r, snap) + t.joined);
    BlockParts(block, cl, FreshOpens(r, snap) + t.joined, targets, IsCritical(cl.source, r, snap, t.joined), r, snap);
    ClusterFacts(r, rows, snap, t, k, block[0].write.row, targets, IsCritical(cl.source, r, snap, t.joined));
    forall i | 1 <= i < |block| ensures MergeFact(r, snap, cl, block[i].write) {
      TargetFacts(r, rows, snap, t, k, targets[i - 1]);
    }
    BlockIsGood(r, snap, t.joined, cl, block);
    BlockOnce(r, snap, t.joined, cl, block, targets);
  }

  lemma BlockParts(block: seq<Attempt>, cl: Cluster, cands: seq<Candidate>, targets: seq<Problem>, critical: bool,
                   r: Reads, snap: seq<Problem>)
    requires IsBlock(block, cl, targets, critical, r, snap) && AreTargets(targets, cl, cands)
    ensures |block| >= 1 && block[0].write == Write(ClusterWrite, block[0].write.row)
    ensures IsClusterRow(block[0].write.row, cl, targets, critical, r, snap)
    ensures |block| > 1 ==> block[0].ok && |block| == |targets| + 1
    ensures forall t :: t in targets ==> IsTarget(t, cl, cands)
    ensures forall i :: 1 <= i < |block| ==> block[i].write == MergeWrite(cl.source, targets[i - 1])
    ensures forall i, j :: 0 <= i < j < |targets| ==> targets[i].id != targets[j].id
  {
    hide IsTarget, IsClusterRow, MergeWrite;
    forall i, j | 0 <= i < j < |targets| ensures targets[i].id != targets[j].id {
      assert IdBefore(targets[i], targets[j]);
      StringAsymmetric(targets[i].id, targets[j].id);
    }
  }

  lemma BlockIsGood(r: Reads, snap: seq<Problem>, joined: seq<Candidate>, cl: Cluster, block: seq<Attempt>)
    requires |block| >= 1 && ClusterFact(r, snap, joined, cl, block[0].write) && (|block| > 1 ==> block[0].ok)
    requires forall i :: 1 <= i < |block| ==> MergeFact(r, snap, cl, block[i].write)
    ensures GoodBlock(r, snap, joined, cl, block)
  {
    hide ClusterFact, MergeFact;
  }

  lemma BlockOnce(
    r: Reads, snap: seq<Problem>, joined: seq<Candidate>, cl: Cluster, block: seq<Attempt>, targets: seq<Problem>)
    requires GoodBlock(r, snap, joined, cl, block)
    requires |block| > 1 ==> |block| == |targets| + 1
    requires forall i :: 1 <= i < |block| ==> block[i].write == MergeWrite(cl.source, targets[i - 1])
    requires forall i, j :: 0 <= i < j < |targets| ==> targets[i].id != targets[j].id
    ensures Once(block)
  {
    hide Anomalous, Resolving, Replaces, ClusterServices, ClusterShape;
    OwnedPrefix(cl.source);
    forall i, j | 0 <= i < j < |block| ensures !Clash(block[i], block[j]) {
      assert MergeFact(r, snap, cl, block[j].write);
    }
  }

  lemma {:induction false} FlattenMember(blocks: seq<seq<Attempt>>, a: Attempt) returns (k: nat)
    requires a in Flatten(blocks)
    ensures k < |blocks| && a in blocks[k]
  {
    if a in blocks[|blocks| - 1] {
      k := |blocks| - 1;
    } else {
      k := FlattenMember(blocks[..|blocks| - 1], a);
    }
  }

  lemma {:induction false} FlattenOnce(blocks: seq<seq<Attempt>>)
    requires forall k :: 0 <= k < |blocks| ==> Once(blocks[k])
    requires forall j, k :: 0 <= j < k < |blocks| ==> NoClash(blocks[j], blocks[k])
    ensures Once(Flatten(blocks))
  {
    hide Once, NoClash;
    if blocks != [] {
      var init, last := blocks[..|blocks| - 1], blocks[|blocks| - 1];
      FlattenOnce(init);
      assert NoClash(Flatten(init), last) by {
        FlattenNoClash(init, last);
      }
      OnceConcat(Flatten(init), last);
    } else {
      NothingOnce();
    }
  }

  lemma NothingOnce()
    ensures Once([])
  {}

  lemma FlattenNoClash(blocks: seq<seq<Attempt>>, other: seq<Attempt>)
    requires forall j :: 0 <= j < |blocks| ==> NoClash(blocks[j], other)
    ensures NoClash(Flatten(blocks), other)
  {
    forall x, y | x in Flatten(blocks) && y in other ensures !Clash(x, y) {
      var j := FlattenMember(blocks, x);
      assert NoClash(blocks[j], other);
    }
  }

  // Writes for two different clusters.
  lemma BlocksApart(
    r: Reads, snap: seq<Problem>, rows: map<string, Problem>, joined: seq<Candidate>, c: Cluster, d: Cluster,
    a: seq<Attempt>, b: seq<Attempt>)
    requires IsPartial(snap, rows) && GoodBlock(r, snap, joined, c, a) && GoodBlock(r, snap, joined, d, b)
    requires ClusterServices(c) !! ClusterServices(d)
    ensures NoClash(a, b)
  {
    forall x, y | x in a && y in b ensures !Clash(x, y) {
      InBlock(r, snap, joined, c, a, x);
      InBlock(r, snap, joined, d, b, y);
      hide GoodBlock;
      WritesApart(r, snap, rows, joined, c, d, x.write, y.write);
    }
  }

  lemma InBlock(r: Reads, snap: seq<Problem>, joined: seq<Candidate>, cl: Cluster, block: seq<Attempt>, a: Attempt)
    requires GoodBlock(r, snap, joined, cl, block) && a in block
    ensures ClusterFact(r, snap, joined, cl, a.write) || MergeFact(r, snap, cl, a.write)
  {
    hide ClusterFact, MergeFact;
  }

  lemma WritesApart(
    r: Reads, snap: seq<Problem>, rows: map<string, Problem>, joined: seq<Candidate>, c: Cluster, d: Cluster,
    w: Write, v: Write)
    requires IsPartial(snap, rows) && ClusterServices(c) !! ClusterServices(d)
    requires ClusterFact(r, snap, joined, c, w) || MergeFact(r, snap, c, w)
    requires ClusterFact(r, snap, joined, d, v) || MergeFact(r, snap, d, v)
    ensures !SameId(w, v)
  {
    hide Anomalous, Resolving, ClusterShape, MetricRule, Replaces;
    OwnedPrefix(c.source);
    OwnedPrefix(d.source);
    assert c.source in ClusterServices(c) && d.source in ClusterServices(d);
    if w.row.id == v.row.id {
      if ClusterFact(r, snap, joined, c, w) && ClusterFact(r, snap, joined, d, v) {
        ClusterIdInjective(c.source, d.source);
        assert false;
      }
      if MergeFact(r, snap, c, w) && MergeFact(r, snap, d, v) {
        SameIdSameKey(snap, w.row, v.row, MetricRule(w.row.service, w.row.metric), w.row.service,
                      MetricRule(v.row.service, v.row.metric), v.row.service);
        assert false;
      }
    }
  }

  lemma BlocksOnce(r: Reads, rows: map<string, Problem>, snap: seq<Problem>, t: Run)
    requires WellFormed(rows) && IsPartial(snap, rows) && IsTick(r, snap, t)
    ensures Once(Flatten(t.blocks))
  {
    TickClusters(r, snap, t);
    TickShape(r, snap, t);
    forall k | 0 <= k < |t.blocks|
      ensures GoodBlock(r, snap, t.joined, t.clusters[k], t.blocks[k]) && Once(t.blocks[k])
    {
      BlockFacts(r, rows, snap, t, k);
    }
    assert forall j, k :: 0 <= j < k < |t.clusters| ==>
      ClusterServices(t.clusters[j]) !! ClusterServices(t.clusters[k]);
    hide *;
    forall j, k | 0 <= j < k < |t.blocks| ensures NoClash(t.blocks[j], t.blocks[k]) {
      BlocksApart(r, snap, rows, t.joined, t.clusters[j], t.clusters[k], t.blocks[j], t.blocks[k]);
    }
    FlattenOnce(t.blocks);
  }

  // ----- writes of different phases -----

  lemma BatchAgainstBlock(
    r: Reads, snap: seq<Problem>, rows: map<string, Problem>, joined: seq<Candidate>, cl: Cluster, w: Write, v: Write)
    requires IsPartial(snap, rows) && BatchFact(r, snap, w)
    requires ClusterFact(r, snap, joined, cl, v) || MergeFact(r, snap, cl, v)
    ensures !SameId(w, v)
  {
    hide Anomalous, Resolving, ClusterShape, MetricRule, Replaces, ClusterServices;
    OwnedPrefix(cl.source);
    if w.row.id == v.row.id && MergeFact(r, snap, cl, v) {
      RuleOf(snap, w.row, MetricRule(w.row.service, LOAD_METRIC));
      RuleOf(snap, v.row, MetricRule(v.row.service, v.row.metric));
      SameIdSameKey(snap, w.row, v.row, MetricRule(w.row.service, LOAD_METRIC), w.row.service,
                    MetricRule(v.row.service, v.row.metric), v.row.service);
      assert false;
    }
  }

  lemma RuleOf(snap: seq<Problem>, row: Problem, ruleId: string)
    requires Replaces(snap, row, ruleId, row.service)
    ensures row.ruleId == ruleId
  {}

  lemma BatchAgainstApplied(
    r: Reads, snap: seq<Problem>, rows: map<string, Problem>, merged: set<string>, pa: Pending, w: Write, v: Write)
    requires IsPartial(snap, rows) && FreshIds(r, rows) && BatchFact(r, snap, w)
    requires AppliedFact(r, snap, merged, pa, v) && !BatchLoadSkipped(r, pa.service, pa.metric)
    ensures !SameId(w, v)
  {
    NewIdsAreNew(r, rows, snap, pa);
    MetricRuleInjective(pa.service, pa.metric, LOAD_METRIC);
    if w.row.id == v.row.id && RewriteFact(r, snap, merged, pa, v) {
      hide Replaces, MetricRule, Resolving;
      SameIdSameKey(snap, w.row, v.row, MetricRule(w.row.service, LOAD_METRIC), w.row.service,
                    MetricRule(pa.service, pa.metric), pa.service);
      assert false;
    }
  }

  lemma StaleAgainstBlock(r: Reads, snap: seq<Problem>, joined: seq<Candidate>, cl: Cluster, w: Write, v: Write)
    requires StaleFact(r, snap, joined, w)
    requires ClusterFact(r, snap, joined, cl, v) || MergeFact(r, snap, cl, v)
    ensures !SameId(w, v)
  {
    hide Anomalous, Resolving, ClusterShape, MetricRule, Replaces, ClusterServices;
    OwnedPrefix(w.row.service);
    ClusterIdInjective(w.row.service, cl.source);
  }

  lemma AppliedAgainstBlock(
    r: Reads, snap: seq<Problem>, rows: map<string, Problem>, joined: seq<Candidate>, merged: set<string>, pa: Pending,
    cl: Cluster, a: Attempt, w: Write)
    requires IsPartial(snap, rows) && FreshIds(r, rows)
    requires AppliedFact(r, snap, merged, pa, w)
    requires ClusterFact(r, snap, joined, cl, a.write) || MergeFact(r, snap, cl, a.write)
    requires IsMerge(a) ==> a.write.row.id in merged
    requires a.ok
    ensures !SameId(w, a.write)
  {
    hide Anomalous, Resolving, ClusterShape, MetricRule, ClusterServices;
    OwnedPrefix(cl.source);
    NewIdsAreNew(r, rows, snap, pa);
  }

  lemma BatchApart(r: Reads, rows: map<string, Problem>, snap: seq<Problem>, t: Run)
    requires WellFormed(rows) && GoodReads(r, rows) && IsPartial(snap, rows) && IsTick(r, snap, t)
    ensures NoClash(t.batch, Flatten(t.blocks)) && NoClash(t.batch, t.stale) && NoClash(t.batch, t.applied)
  {
    TickShape(r, snap, t);
    hide *;
    forall x, y | x in t.batch && y in Flatten(t.blocks) + t.stale + t.applied ensures !Clash(x, y) {
      WriteOf(t.batch, x);
      BatchFacts(r, rows, snap, x.write);
      if y in Flatten(t.blocks) {
        var k := BlockOf(r, rows, snap, t, y);
        BatchAgainstBlock(r, snap, rows, t.joined, t.clusters[k], x.write, y.write);
      } else if y in t.stale {
        WriteOf(t.stale, y);
        StaleFacts(r, rows, snap, t.joined, y.write);
        BatchAgainstStale(r, snap, t.joined, x.write, y.write);
      } else {
        var pa := VerdictOf(r, rows, snap, t, y);
        BatchAgainstApplied(r, snap, rows, MergedIds(Flatten(t.blocks)), pa, x.write, y.write);
      }
      DifferentRows(x, y);
    }
    NoClashParts(t.batch, Flatten(t.blocks), t.stale, t.applied);
  }

  lemma BatchAgainstStale(r: Reads, snap: seq<Problem>, joined: seq<Candidate>, w: Write, v: Write)
    requires BatchFact(r, snap, w) && StaleFact(r, snap, joined, v)
    ensures !SameId(w, v)
  {
    OwnedPrefix(v.row.service);
  }

  lemma DifferentRows(x: Attempt, y: Attempt)
    requires x.ok && y.ok ==> !SameId(x.write, y.write)
    ensures !Clash(x, y)
  {}

  lemma NoClashParts(a: seq<Attempt>, b: seq<Attempt>, c: seq<Attempt>, d: seq<Attempt>)
    requires forall x, y :: x in a && y in b + c + d ==> !Clash(x, y)
    ensures NoClash(a, b) && NoClash(a, c) && NoClash(a, d)
  {
    hide Clash;
    assert forall y :: y in b || y in c || y in d ==> y in b + c + d;
  }

  // The parts of a tick, without its definition.
  lemma TickShape(r: Reads, snap: seq<Problem>, t: Run)
    requires IsTick(r, snap, t)
    ensures |t.blocks| == |t.clusters| && Writes(t.batch) == BatchWrites(r, snap)
    ensures Writes(t.stale) == Collect(snap, StaleStep(Anomalous(r, snap, t.joined)))
    ensures Writes(t.applied)
         == Collect(AllPending(r, snap), ApplyStep(r, snap, Grouped(t.clusters), MergedIds(Flatten(t.blocks))))
    ensures t.All() == t.batch + (Flatten(t.blocks) + (t.stale + t.applied))
  {
    hide ClustersFit, AreRecent, FreshOpens, Collect, Writes, HaveBlocks, MergedIds, Flatten, Grouped, AllPending;
    hide BatchWrites;
    HaveBlocksAt(t.blocks, t.clusters, t.joined, r, snap);
  }

  lemma WriteOf(run: seq<Attempt>, a: Attempt)
    requires a in run
    ensures a.write in Writes(run)
  {
    var i :| 0 <= i < |run| && run[i] == a;
    assert Writes(run)[i] == a.write;
  }

  lemma BlockOf(r: Reads, rows: map<string, Problem>, snap: seq<Problem>, t: Run, a: Attempt) returns (k: nat)
    requires WellFormed(rows) && IsPartial(snap, rows) && IsTick(r, snap, t) && a in Flatten(t.blocks)
    ensures k < |t.blocks| == |t.clusters| && a in t.blocks[k]
    ensures ClusterFact(r, snap, t.joined, t.clusters[k], a.write) || MergeFact(r, snap, t.clusters[k], a.write)
  {
    hide *;
    k := FlattenMember(t.blocks, a);
    BlockFacts(r, rows, snap, t, k);
    InBlock(r, snap, t.joined, t.clusters[k], t.blocks[k], a);
  }

  lemma VerdictOf(r: Reads, rows: map<string, Problem>, snap: seq<Problem>, t: Run, a: Attempt) returns (pa: Pending)
    requires WellFormed(rows) && GoodReads(r, rows) && IsPartial(snap, rows) && IsTick(r, snap, t) && a in t.applied
    ensures pa in AllPending(r, snap) && !BatchLoadSkipped(r, pa.service, pa.metric)
    ensures ApplyStep(r, snap, Grouped(t.clusters), MergedIds(Flatten(t.blocks)))(pa) == Some(a.write)
    ensures AppliedFact(r, snap, MergedIds(Flatten(t.blocks)), pa, a.write)
  {
    hide *;
    TickShape(r, snap, t);
    WriteOf(t.applied, a);
    var suppressed, merged := Grouped(t.clusters), MergedIds(Flatten(t.blocks));
    pa := CollectSource(AllPending(r, snap), ApplyStep(r, snap, suppressed, merged), a.write);
    AppliedFacts(r, rows, snap, suppressed, merged, pa, a.write);
    PendingIsNoBatchLoad(r, snap, pa);
  }

  lemma PendingIsNoBatchLoad(r: Reads, snap: seq<Problem>, pa: Pending)
    requires pa in AllPending(r, snap)
    ensures !BatchLoadSkipped(r, pa.service, pa.metric)
  {
    var pair := CollectSource(Pairs(r.services, r.tracked), PendingStep(r, snap), pa);
    PendingIs(r, snap, pair, pa);
  }

  lemma BlocksApartFromRest(r: Reads, rows: map<string, Problem>, snap: seq<Problem>, t: Run)
    requires WellFormed(rows) && GoodReads(r, rows) && IsPartial(snap, rows) && IsTick(r, snap, t)
    ensures NoClash(Flatten(t.blocks), t.stale) && NoClash(Flatten(t.blocks), t.applied)
  {
    TickShape(r, snap, t);
    var merged := MergedIds(Flatten(t.blocks));
    assert forall a :: a in Flatten(t.blocks) && IsMerge(a) ==> a.write.row.id in merged;
    assert FreshIds(r, rows);
    hide *;
    forall x, y | x in Flatten(t.blocks) && y in t.stale + t.applied ensures !Clash(x, y) {
      var k := BlockOf(r, rows, snap, t, x);
      if y in t.stale {
        WriteOf(t.stale, y);
        StaleFacts(r, rows, snap, t.joined, y.write);
        StaleAgainstBlock(r, snap, t.joined, t.clusters[k], y.write, x.write);
      } else {
        var pa := VerdictOf(r, rows, snap, t, y);
        if x.ok {
          AppliedAgainstBlock(r, snap, rows, t.joined, merged, pa, t.clusters[k], x, y.write);
        }
      }
      SameIdSymmetric(x.write, y.write);
      DifferentRows(x, y);
    }
    NoClashParts(Flatten(t.blocks), [], t.stale, t.applied);
  }

  lemma SameIdSymmetric(w: Write, v: Write)
    ensures SameId(w, v) == SameId(v, w)
  {}

  lemma StaleApart(r: Reads, rows: map<string, Problem>, snap: seq<Problem>, t: Run)
    requires WellFormed(rows) && GoodReads(r, rows) && IsPartial(snap, rows) && IsTick(r, snap, t)
    ensures NoClash(t.stale, t.applied)
  {
    TickShape(r, snap, t);
    hide *;
    forall x, y | x in t.stale && y in t.applied ensures !Clash(x, y) {
      WriteOf(t.stale, x);
      StaleFacts(r, rows, snap, t.joined, x.write);
      var pa := VerdictOf(r, rows, snap, t, y);
      StaleAgainstApplied(r, snap, t.joined, MergedIds(Flatten(t.blocks)), pa, x.write, y.write);
      DifferentRows(x, y);
    }
    NoClashIs(t.stale, t.applied);
  }

  lemma NoClashIs(a: seq<Attempt>, b: seq<Attempt>)
    requires forall x, y :: x in a && y in b ==> !Clash(x, y)
    ensures NoClash(a, b)
  {}

  lemma StaleAgainstApplied(
    r: Reads, snap: seq<Problem>, joined: seq<Candidate>, merged: set<string>, pa: Pending, w: Write, v: Write)
    requires StaleFact(r, snap, joined, w) && AppliedFact(r, snap, merged, pa, v)
    ensures !SameId(w, v)
  {
    OwnedPrefix(w.row.service);
  }

  // In one tick no row is written twice, whichever writes the store refuses and
  // however incomplete the snapshot was.
  lemma NoRowWrittenTwice(r: Reads, rows: map<string, Problem>, snap: seq<Problem>, t: Run)
    requires WellFormed(rows) && GoodReads(r, rows) && IsPartial(snap, rows) && IsTick(r, snap, t)
    ensures forall i, j :: 0 <= i < j < |t.All()| && t.All()[i].ok && t.All()[j].ok ==>
              t.All()[i].write.row.id != t.All()[j].write.row.id
  {
    TickShape(r, snap, t);
    assert Once(t.All()) by {
      hide *;
      BatchOnce(r, rows, snap, t.batch);
      BlocksOnce(r, rows, snap, t);
      StaleOnce(rows, snap, Anomalous(r, snap, t.joined), t.stale);
      AppliedOnce(r, rows, snap, Grouped(t.clusters), MergedIds(Flatten(t.blocks)), t.applied);
      BatchApart(r, rows, snap, t);
      BlocksApartFromRest(r, rows, snap, t);
      StaleApart(r, rows, snap, t);
      OnceConcat(t.stale, t.applied);
      NoClashConcat(Flatten(t.blocks), t.stale, t.applied);
      OnceConcat(Flatten(t.blocks), t.stale + t.applied);
      NoClashConcat(t.batch, t.stale, t.applied);
      NoClashConcat(t.batch, Flatten(t.blocks), t.stale + t.applied);
      OnceConcat(t.batch, Flatten(t.blocks) + (t.stale + t.applied));
    }
    forall i, j | 0 <= i < j < |t.All()| && t.All()[i].ok && t.All()[j].ok
      ensures t.All()[i].write.row.id != t.All()[j].write.row.id
    {
      assert !Clash(t.All()[i], t.All()[j]);
    }
  }

  // ----- the table after a tick -----

  // A row of the table was there before, or some stored attempt wrote it.
  lemma {:induction false} ReplayOrigin(rows: map<string, Problem>, run: seq<Attempt>, id: string)
    requires id in Replay(rows, run)
    ensures (id in rows && Replay(rows, run)[id] == rows[id])
         || exists a :: a in run && a.ok && a.write.row.id == id && a.write.row == Replay(rows, run)[id]
  {
    if run != [] {
      var init, last := run[..|run| - 1], run[|run| - 1];
      if !(last.ok && last.write.row.id == id) {
        ReplayOrigin(rows, init, id);
        assert forall a :: a in init ==> a in run;
      }
    }
  }

  // What the table holds for an identity nothing was stored under.
  lemma {:induction false} ReplayKeeps(rows: map<string, Problem>, run: seq<Attempt>, id: string)
    requires forall a :: a in run && a.ok ==> a.write.row.id != id
    ensures id in Replay(rows, run) <==> id in rows
    ensures id in rows ==> Replay(rows, run)[id] == rows[id]
  {
    if run != [] {
      assert forall a :: a in run[..|run| - 1] ==> a in run;
      ReplayKeeps(rows, run[..|run| - 1], id);
    }
  }

  // With no row written twice, every stored write is what the table holds.
  lemma {:induction false} ReplayHolds(rows: map<string, Problem>, run: seq<Attempt>, i: nat)
    requires Once(run) && i < |run| && run[i].ok
    ensures run[i].write.row.id in Replay(rows, run)
    ensures Replay(rows, run)[run[i].write.row.id] == run[i].write.row
  {
    var init, last := run[..|run| - 1], run[|run| - 1];
    if i < |run| - 1 {
      assert !Clash(run[i], last);
      assert Once(init);
      ReplayHolds(rows, init, i);
    }
  }

  lemma ReplayHas(rows: map<string, Problem>, run: seq<Attempt>, a: Attempt)
    requires Once(run) && a in run && a.ok
    ensures a.write.row.id in Replay(rows, run) && Replay(rows, run)[a.write.row.id] == a.write.row
  {
    var i :| 0 <= i < |run| && run[i] == a;
    ReplayHolds(rows, run, i);
  }

  ghost function After(rows: map<string, Problem>, t: Run): map<string, Problem> { Replay(rows, t.All()) }

  lemma TickOnce(r: Reads, rows: map<string, Problem>, snap: seq<Problem>, t: Run)
    requires WellFormed(rows) && GoodReads(r, rows) && IsPartial(snap, rows) && IsTick(r, snap, t)
    ensures Once(t.All())
  {
    hide *;
    NoRowWrittenTwice(r, rows, snap, t);
    OnceIs(t.All());
  }

  lemma OnceIs(run: seq<Attempt>)
    requires forall i, j :: 0 <= i < j < |run| && run[i].ok && run[j].ok ==> run[i].write.row.id != run[j].write.row.id
    ensures Once(run)
  {}

  // Every stored write is still in the table when the tick ends: nothing that
  // a phase closed, merged or refreshed is overwritten by a later one.
  lemma StoredWritesLast(r: Reads, rows: map<string, Problem>, snap: seq<Problem>, t: Run, a: Attempt)
    requires WellFormed(rows) && GoodReads(r, rows) && IsPartial(snap, rows) && IsTick(r, snap, t)
    requires a in t.All() && a.ok
    ensures a.write.row.id in After(rows, t) && After(rows, t)[a.write.row.id] == a.write.row
  {
    hide *;
    TickOnce(r, rows, snap, t);
    ReplayHas(rows, t.All(), a);
    AfterIs(rows, t);
  }

  lemma AfterIs(rows: map<string, Problem>, t: Run)
    ensures After(rows, t) == Replay(rows, t.All())
  {}

  // Some stored write of the row of a cluster comes before this position.
  ghost predicate ClusterStoredBefore(run: seq<Attempt>, i: int, id: string) {
    exists j :: 0 <= j < i < |run| && run[j].ok && run[j].write.step == ClusterWrite && run[j].write.row.id == id
                && IsActive(run[j].write.row)
  }

  // A row is folded into a cluster only after the row of that cluster was
  // stored; it ends the tick resolved, and its cluster ends the tick active.
  lemma MergedOnlyIntoStoredClusters(r: Reads, rows: map<string, Problem>, snap: seq<Problem>, t: Run, i: nat)
    requires WellFormed(rows) && GoodReads(r, rows) && IsPartial(snap, rows) && IsTick(r, snap, t)
    requires i < |t.All()| && IsMerge(t.All()[i])
    ensures ClusterStoredBefore(t.All(), i, t.All()[i].write.step.into)
    ensures var m := t.All()[i].write;
            m.row.id in After(rows, t) && After(rows, t)[m.row.id].status == Resolved
            && m.step.into in After(rows, t) && IsActive(After(rows, t)[m.step.into])
  {
    var a := t.All()[i];
    hide *;
    MergesAreInBlocks(r, rows, snap, t, a);
    var k, at := BlockAt(t, a);
    BlockFacts(r, rows, snap, t, k);
    MergeInGoodBlock(r, snap, t.joined, t.clusters[k], t.blocks[k], a);
    TickOnce(r, rows, snap, t);
    SamePlace(t.All(), i, at.1, a);
    var first := t.blocks[k][0];
    ReplayHas(rows, t.All(), t.All()[at.0]);
    ReplayHas(rows, t.All(), a);
    AfterIs(rows, t);
    StoredBefore(t.All(), at.0, i, a.write.step.into);
  }

  lemma MergesAreInBlocks(r: Reads, rows: map<string, Problem>, snap: seq<Problem>, t: Run, a: Attempt)
    requires WellFormed(rows) && GoodReads(r, rows) && IsPartial(snap, rows) && IsTick(r, snap, t)
    requires a in t.All() && a.ok && a.write.step.Merge?
    ensures a in Flatten(t.blocks)
  {
    TickShape(r, snap, t);
    hide *;
    if a in t.batch {
      WriteOf(t.batch, a);
      BatchSteps(r, snap, a.write);
      assert false;
    }
    if a in t.stale {
      WriteOf(t.stale, a);
      var p := CollectSource(snap, StaleStep(Anomalous(r, snap, t.joined)), a.write);
      StaleStepIs(Anomalous(r, snap, t.joined), p);
      assert false;
    }
    if a in t.applied {
      var pa := VerdictOf(r, rows, snap, t, a);
      ApplySteps(r, snap, Grouped(t.clusters), MergedIds(Flatten(t.blocks)), pa, a.write);
      assert false;
    }
  }

  lemma BatchSteps(r: Reads, snap: seq<Problem>, w: Write)
    requires w in BatchWrites(r, snap)
    ensures w.step == BatchClose
  {
    var p := CollectSource(snap, BatchStep(r), w);
  }

  lemma ApplySteps(r: Reads, snap: seq<Problem>, suppressed: set<string>, merged: set<string>, pa: Pending, w: Write)
    requires ApplyStep(r, snap, suppressed, merged)(pa) == Some(w)
    ensures !w.step.Merge?
  {
    hide Existing;
  }

  // Where the block of an attempt lies in the run of the tick.
  lemma BlockAt(t: Run, a: Attempt) returns (k: nat, at: (nat, nat))
    requires a in Flatten(t.blocks)
    ensures k < |t.blocks| && a in t.blocks[k]
    ensures at.0 <= at.1 < |t.All()| && t.All()[at.0] == t.blocks[k][0] && t.All()[at.1] == a
    ensures t.blocks[k][0] != a ==> at.0 < at.1
  {
    var from;
    k, from := FlattenAt(t.blocks, a);
    var j :| 0 <= j < |t.blocks[k]| && t.blocks[k][j] == a;
    at := (|t.batch| + from, |t.batch| + (from + j));
    SliceAt(Flatten(t.blocks), t.blocks[k], from, 0);
    SliceAt(Flatten(t.blocks), t.blocks[k], from, j);
    InMiddle(t.batch, Flatten(t.blocks), t.stale + t.applied, from);
    InMiddle(t.batch, Flatten(t.blocks), t.stale + t.applied, from + j);
  }

  lemma InMiddle(pre: seq<Attempt>, mid: seq<Attempt>, post: seq<Attempt>, p: nat)
    requires p < |mid|
    ensures |pre| + p < |pre + (mid + post)| && (pre + (mid + post))[|pre| + p] == mid[p]
  {}

  lemma SliceAt(xs: seq<Attempt>, ys: seq<Attempt>, from: nat, j: nat)
    requires from + |ys| <= |xs| && xs[from..from + |ys|] == ys && j < |ys|
    ensures xs[from + j] == ys[j]
  {
    assert xs[from..from + |ys|][j] == xs[from + j];
  }

  lemma {:induction false} FlattenAt(blocks: seq<seq<Attempt>>, a: Attempt) returns (k: nat, from: nat)
    requires a in Flatten(blocks)
    ensures k < |blocks| && a in blocks[k]
    ensures from + |blocks[k]| <= |Flatten(blocks)| && Flatten(blocks)[from..from + |blocks[k]|] == blocks[k]
  {
    var init, last := blocks[..|blocks| - 1], blocks[|blocks| - 1];
    if a in last {
      k, from := |blocks| - 1, |Flatten(init)|;
    } else {
      k, from := FlattenAt(init, a);
    }
  }

  lemma MergeInGoodBlock(
    r: Reads, snap: seq<Problem>, joined: seq<Candidate>, cl: Cluster, block: seq<Attempt>, a: Attempt)
    requires GoodBlock(r, snap, joined, cl, block) && a in block && a.write.step.Merge?
    ensures block[0].ok && block[0].write.step == ClusterWrite && IsActive(block[0].write.row)
    ensures block[0].write.row.id == a.write.step.into && a.write.row.status == Resolved && block[0] != a
  {
    hide ClusterFact, MergeFact;
    var i :| 0 <= i < |block| && block[i] == a;
    ClusterStep(r, snap, joined, cl, block[0].write);
    assert i > 0;
    MergeStep(r, snap, cl, block[i].write);
  }

  lemma ClusterStep(r: Reads, snap: seq<Problem>, joined: seq<Candidate>, cl: Cluster, w: Write)
    requires ClusterFact(r, snap, joined, cl, w)
    ensures w.step == ClusterWrite && w.row.id == ClusterId(cl.source) && IsActive(w.row)
  {}

  lemma MergeStep(r: Reads, snap: seq<Problem>, cl: Cluster, w: Write)
    requires MergeFact(r, snap, cl, w)
    ensures w.step == Merge(ClusterId(cl.source)) && w.row.status == Resolved
  {}

  lemma SamePlace(run: seq<Attempt>, i: nat, j: nat, a: Attempt)
    requires Once(run) && i < |run| && j < |run| && run[i] == run[j] == a && a.ok
    ensures i == j
  {
    assert Clash(run[i], run[j]) && Clash(run[j], run[i]);
  }

  lemma StoredBefore(run: seq<Attempt>, j: nat, i: nat, id: string)
    requires j < i < |run| && run[j].ok && run[j].write.step == ClusterWrite && run[j].write.row.id == id
    requires IsActive(run[j].write.row)
    ensures ClusterStoredBefore(run, i, id)
  {}

  // A cluster whose row is stored in a tick ends that tick active: neither the
  // closing of stale clusters nor any verdict undoes it.
  lemma StoredClustersStayActive(r: Reads, rows: map<string, Problem>, snap: seq<Problem>, t: Run, k: nat)
    requires WellFormed(rows) && GoodReads(r, rows) && IsPartial(snap, rows) && IsTick(r, snap, t)
    requires k < |t.blocks| && k < |t.clusters| && t.blocks[k] != [] && t.blocks[k][0].ok
    ensures ClusterId(t.clusters[k].source) in After(rows, t)
    ensures After(rows, t)[ClusterId(t.clusters[k].source)] == t.blocks[k][0].write.row
    ensures IsActive(t.blocks[k][0].write.row)
  {
    hide *;
    var first := t.blocks[k][0];
    BlockFacts(r, rows, snap, t, k);
    FirstOfGoodBlock(r, snap, t.joined, t.clusters[k], t.blocks[k]);
    FlattenHas(t.blocks, k, first);
    BlocksAreInTick(r, snap, t, first);
    StoredWritesLast(r, rows, snap, t, first);
  }

  lemma FirstOfGoodBlock(r: Reads, snap: seq<Problem>, joined: seq<Candidate>, cl: Cluster, block: seq<Attempt>)
    requires GoodBlock(r, snap, joined, cl, block)
    ensures |block| >= 1 && block[0].write.row.id == ClusterId(cl.source) && IsActive(block[0].write.row)
  {}

  lemma {:induction false} FlattenHas(blocks: seq<seq<Attempt>>, k: nat, a: Attempt)
    requires k < |blocks| && a in blocks[k]
    ensures a in Flatten(blocks)
  {
    if k < |blocks| - 1 {
      FlattenHas(blocks[..|blocks| - 1], k, a);
    }
  }

  lemma BlocksAreInTick(r: Reads, snap: seq<Problem>, t: Run, a: Attempt)
    requires IsTick(r, snap, t) && a in Flatten(t.blocks)
    ensures a in t.All()
  {
    hide IsTick, Flatten;
    TickShape(r, snap, t);
  }

  // ----- at most one active row per rule and service -----

  // What a write can be.
  ghost predicate Replaced(snap: seq<Problem>, row: Problem) { Replaces(snap, row, row.ruleId, row.service) }

  ghost predicate ClusterWritten(row: Problem) { row.id == row.ruleId && Clusterish(row) && ClusterShape(row) }

  ghost predicate Opened(r: Reads, snap: seq<Problem>, row: Problem, service: string, metric: string) {
    && row.id == r.newId(service, metric) && HasKey(row, MetricRule(service, metric), service)
    && row.status == Open && Existing(snap, service, metric).None?
  }

  ghost predicate IsOpened(r: Reads, snap: seq<Problem>, row: Problem) {
    exists service, metric :: Opened(r, snap, row, service, metric)
  }

  ghost predicate Lawful(r: Reads, snap: seq<Problem>, row: Problem) {
    Replaced(snap, row) || ClusterWritten(row) || IsOpened(r, snap, row)
  }

  lemma TickIsLawful(r: Reads, rows: map<string, Problem>, snap: seq<Problem>, t: Run, a: Attempt)
    requires WellFormed(rows) && GoodReads(r, rows) && IsPartial(snap, rows) && IsTick(r, snap, t)
    requires a in t.All()
    ensures Lawful(r, snap, a.write.row)
    ensures IsOpened(r, snap, a.write.row) ==> a in t.applied && a.write.step == OpenNew
  {
    TickShape(r, snap, t);
    var row := a.write.row;
    hide *;
    if a in t.batch {
      WriteOf(t.batch, a);
      BatchFacts(r, rows, snap, a.write);
      BatchIsLawful(r, rows, snap, a.write);
    } else if a in Flatten(t.blocks) {
      var k := BlockOf(r, rows, snap, t, a);
      BlockIsLawful(r, rows, snap, t.joined, t.clusters[k], a.write);
    } else if a in t.stale {
      WriteOf(t.stale, a);
      StaleFacts(r, rows, snap, t.joined, a.write);
      StaleIsLawful(r, rows, snap, t.joined, a.write);
    } else {
      var pa := VerdictOf(r, rows, snap, t, a);
      AppliedIsLawful(r, rows, snap, MergedIds(Flatten(t.blocks)), pa, a.write);
    }
  }

  lemma RuleOfReplaced(snap: seq<Problem>, row: Problem, ruleId: string, service: string)
    requires Replaces(snap, row, ruleId, service)
    ensures Replaced(snap, row)
  {}

  lemma OpenedIsNew(r: Reads, rows: map<string, Problem>, snap: seq<Problem>, row: Problem)
    requires FreshIds(r, rows) && IsOpened(r, snap, row)
    ensures row.id !in rows && !Clusterish(row)
  {}

  lemma ReplacedIsOld(r: Reads, rows: map<string, Problem>, snap: seq<Problem>, row: Problem)
    requires IsPartial(snap, rows) && Replaced(snap, row)
    ensures row.id in rows && HasKey(row, rows[row.id].ruleId, rows[row.id].service) && IsActive(rows[row.id])
    ensures rows[row.id] in snap
    ensures FreshIds(r, rows) ==> !IsOpened(r, snap, row)
  {
    if FreshIds(r, rows) && IsOpened(r, snap, row) { OpenedIsNew(r, rows, snap, row); }
  }

  lemma BatchIsLawful(r: Reads, rows: map<string, Problem>, snap: seq<Problem>, w: Write)
    requires IsPartial(snap, rows) && GoodReads(r, rows) && BatchFact(r, snap, w)
    ensures Lawful(r, snap, w.row) && !IsOpened(r, snap, w.row)
  {
    RuleOfReplaced(snap, w.row, MetricRule(w.row.service, LOAD_METRIC), w.row.service);
    ReplacedIsOld(r, rows, snap, w.row);
  }

  lemma StaleIsLawful(r: Reads, rows: map<string, Problem>, snap: seq<Problem>, joined: seq<Candidate>, w: Write)
    requires IsPartial(snap, rows) && GoodReads(r, rows) && StaleFact(r, snap, joined, w)
    ensures Lawful(r, snap, w.row) && !IsOpened(r, snap, w.row)
  {
    RuleOfReplaced(snap, w.row, w.row.ruleId, w.row.service);
    ReplacedIsOld(r, rows, snap, w.row);
  }

  lemma BlockIsLawful(
    r: Reads, rows: map<string, Problem>, snap: seq<Problem>, joined: seq<Candidate>, cl: Cluster, w: Write)
    requires IsPartial(snap, rows) && GoodReads(r, rows)
    requires ClusterFact(r, snap, joined, cl, w) || MergeFact(r, snap, cl, w)
    ensures Lawful(r, snap, w.row) && !IsOpened(r, snap, w.row)
  {
    hide Resolving, Anomalous, ClusterServices, IsPartial, Replaces, MetricRule;
    OwnedPrefix(cl.source);
    if MergeFact(r, snap, cl, w) {
      RuleOfReplaced(snap, w.row, MetricRule(w.row.service, w.row.metric), w.row.service);
    }
    if IsOpened(r, snap, w.row) { OpenedIsNew(r, rows, snap, w.row); }
  }

  lemma AppliedIsLawful(
    r: Reads, rows: map<string, Problem>, snap: seq<Problem>, merged: set<string>, pa: Pending, w: Write)
    requires IsPartial(snap, rows) && GoodReads(r, rows) && AppliedFact(r, snap, merged, pa, w)
    ensures Lawful(r, snap, w.row)
    ensures IsOpened(r, snap, w.row) ==> w.step == OpenNew
  {
    hide Resolving, Anomalous, ClusterServices, IsPartial, Replaces, MetricRule, Existing;
    if RewriteFact(r, snap, merged, pa, w) {
      RuleOfReplaced(snap, w.row, MetricRule(pa.service, pa.metric), pa.service);
      ReplacedIsOld(r, rows, snap, w.row);
    } else {
      assert Opened(r, snap, w.row, pa.service, pa.metric);
    }
  }

  // Every row that a tick opens and stores is the first active one of its key.
  ghost predicate NoHiddenRow(rows: map<string, Problem>, t: Run) {
    forall a, id :: a in t.applied && a.ok && a.write.step == OpenNew && id in rows && IsActive(rows[id]) ==>
      !SameKey(rows[id], a.write.row)
  }

  // A row of the table after a tick.
  ghost predicate FinalRow(r: Reads, rows: map<string, Problem>, snap: seq<Problem>, row: Problem) {
    (row.id in rows && row == rows[row.id]) || Lawful(r, snap, row)
  }

  lemma FinalRows(r: Reads, rows: map<string, Problem>, snap: seq<Problem>, t: Run, id: string)
    requires WellFormed(rows) && GoodReads(r, rows) && IsPartial(snap, rows) && IsTick(r, snap, t)
    requires id in After(rows, t)
    ensures After(rows, t)[id].id == id && FinalRow(r, rows, snap, After(rows, t)[id])
    ensures IsOpened(r, snap, After(rows, t)[id]) ==>
              exists a :: a in t.applied && a.ok && a.write.step == OpenNew && a.write.row == After(rows, t)[id]
  {
    assert rows.Keys == rows.Keys && (id in rows ==> rows[id].id == id);
    assert FreshIds(r, rows);
    var row := After(rows, t)[id];
    AfterIs(rows, t);
    hide *;
    ReplayOrigin(rows, t.All(), id);
    if id in rows && row == rows[id] {
      UnchangedIsFinal(r, rows, snap, id);
    } else {
      var a :| a in t.All() && a.ok && a.write.row.id == id && a.write.row == row;
      TickIsLawful(r, rows, snap, t, a);
      LawfulIsFinal(r, rows, snap, row);
    }
  }

  lemma UnchangedIsFinal(r: Reads, rows: map<string, Problem>, snap: seq<Problem>, id: string)
    requires id in rows && rows[id].id == id && FreshIds(r, rows)
    ensures FinalRow(r, rows, snap, rows[id]) && !IsOpened(r, snap, rows[id])
  {
    if IsOpened(r, snap, rows[id]) { OpenedIsNew(r, rows, snap, rows[id]); }
  }

  lemma LawfulIsFinal(r: Reads, rows: map<string, Problem>, snap: seq<Problem>, row: Problem)
    requires Lawful(r, snap, row)
    ensures FinalRow(r, rows, snap, row)
  {}

  // Two rows of the table after a tick that share their key.
  lemma SameKeySameRow(r: Reads, rows: map<string, Problem>, snap: seq<Problem>, p: Problem, q: Problem)
    requires WellFormed(rows) && GoodReads(r, rows) && IsPartial(snap, rows)
    requires FinalRow(r, rows, snap, p) && FinalRow(r, rows, snap, q) && IsActive(p) && IsActive(q) && SameKey(p, q)
    requires IsOpened(r, snap, p) ==> forall id :: id in rows && IsActive(rows[id]) ==> !SameKey(rows[id], p)
    requires IsOpened(r, snap, q) ==> forall id :: id in rows && IsActive(rows[id]) ==> !SameKey(rows[id], q)
    ensures p.id == q.id
  {
    OldOrCluster(r, rows, snap, p);
    OldOrCluster(r, rows, snap, q);
    hide FinalRow, Replaced, IsPartial, GoodReads;
    if IsOpened(r, snap, p) && IsOpened(r, snap, q) {
      OpenedTogether(r, snap, p, q);
    } else if !Clusterish(p) && !Clusterish(q) {
      assert UniqueActive(rows);
      hide ClusterShape, IsOpened;
      KeysAgree(rows, p, q);
    } else {
      hide UniqueActive, IsOpened;
    }
  }

  lemma OpenedTogether(r: Reads, snap: seq<Problem>, p: Problem, q: Problem)
    requires IsOpened(r, snap, p) && IsOpened(r, snap, q) && SameKey(p, q)
    ensures p.id == q.id
  {
    var s, m :| Opened(r, snap, p, s, m);
    var s', m' :| Opened(r, snap, q, s', m');
    MetricRuleInjective(s, m, m');
    hide Existing;
  }

  lemma KeysAgree(rows: map<string, Problem>, p: Problem, q: Problem)
    requires UniqueActive(rows) && SameKey(p, q) && IsActive(p) && IsActive(q)
    requires OldRow(rows, p) || forall id :: id in rows && IsActive(rows[id]) ==> !SameKey(rows[id], p)
    requires OldRow(rows, q) || forall id :: id in rows && IsActive(rows[id]) ==> !SameKey(rows[id], q)
    requires OldRow(rows, p) || OldRow(rows, q)
    ensures p.id == q.id
  {}

  ghost predicate OldRow(rows: map<string, Problem>, p: Problem) {
    p.id in rows && HasKey(p, rows[p.id].ruleId, rows[p.id].service) && (IsActive(p) ==> IsActive(rows[p.id]))
  }

  // A row after a tick is known by its rule, new, or an older row rewritten.
  lemma OldOrCluster(r: Reads, rows: map<string, Problem>, snap: seq<Problem>, p: Problem)
    requires WellFormed(rows) && GoodReads(r, rows) && IsPartial(snap, rows) && FinalRow(r, rows, snap, p)
    ensures Clusterish(p) ==> p.id == p.ruleId
    ensures !Clusterish(p) ==> IsOpened(r, snap, p) || OldRow(rows, p)
    ensures CLUSTER_PREFIX <= p.ruleId ==> Clusterish(p)
    ensures IsOpened(r, snap, p) ==> !Clusterish(p)
  {
    hide UniqueActive;
    if IsOpened(r, snap, p) {
      OpenedIsNew(r, rows, snap, p);
      var s, m :| Opened(r, snap, p, s, m);
      MetricRuleIsNoCluster(s, m);
    } else if Replaced(snap, p) {
      ReplacedIsOld(r, rows, snap, p);
      assert ClusterShape(rows[p.id]);
    } else if p.id in rows {
      assert ClusterShape(rows[p.id]);
    }
  }

  // A tick keeps "at most one active row per rule and service" exactly when it
  // opens no row over an active one that its snapshot did not show.
  lemma UniqueUnlessHidden(r: Reads, rows: map<string, Problem>, snap: seq<Problem>, t: Run)
    requires WellFormed(rows) && GoodReads(r, rows) && IsPartial(snap, rows) && IsTick(r, snap, t)
    ensures UniqueActive(After(rows, t)) <==> NoHiddenRow(rows, t)
  {
    hide *;
    var after := After(rows, t);
    if NoHiddenRow(rows, t) {
      forall a, b | a in after && b in after && IsActive(after[a]) && IsActive(after[b]) && SameKey(after[a], after[b])
        ensures a == b
      {
        FinalRows(r, rows, snap, t, a);
        FinalRows(r, rows, snap, t, b);
        NothingHidden(r, rows, snap, t, after[a]);
        NothingHidden(r, rows, snap, t, after[b]);
        SameKeySameRow(r, rows, snap, after[a], after[b]);
      }
      UniqueIs(after);
    }
    if UniqueActive(after) {
      forall a, id | a in t.applied && a.ok && a.write.step == OpenNew && id in rows && IsActive(rows[id])
        ensures !SameKey(rows[id], a.write.row)
      {
        if SameKey(rows[id], a.write.row) {
          HiddenRowStays(r, rows, snap, t, a, id);
          assert false;
        }
      }
      NoHiddenIs(rows, t);
    }
  }

  lemma UniqueIs(rows: map<string, Problem>)
    requires forall a, b ::
               a in rows && b in rows && IsActive(rows[a]) && IsActive(rows[b]) && SameKey(rows[a], rows[b]) ==> a == b
    ensures UniqueActive(rows)
  {}

  lemma NoHiddenIs(rows: map<string, Problem>, t: Run)
    requires forall a, id :: a in t.applied && a.ok && a.write.step == OpenNew && id in rows && IsActive(rows[id]) ==>
      !SameKey(rows[id], a.write.row)
    ensures NoHiddenRow(rows, t)
  {}

  lemma NothingHidden(r: Reads, rows: map<string, Problem>, snap: seq<Problem>, t: Run, row: Problem)
    requires NoHiddenRow(rows, t)
    requires IsOpened(r, snap, row) ==>
      exists a :: a in t.applied && a.ok && a.write.step == OpenNew && a.write.row == row
    ensures IsOpened(r, snap, row) ==> forall id :: id in rows && IsActive(rows[id]) ==> !SameKey(rows[id], row)
  {
    hide IsOpened, SameKey;
  }

  // An active row under the same key as a row just opened, and unseen by the
  // snapshot, is still there after the tick.
  lemma HiddenRowStays(r: Reads, rows: map<string, Problem>, snap: seq<Problem>, t: Run, a: Attempt, id: string)
    requires WellFormed(rows) && GoodReads(r, rows) && IsPartial(snap, rows) && IsTick(r, snap, t)
    requires a in t.applied && a.ok && a.write.step == OpenNew && id in rows && IsActive(rows[id])
    requires SameKey(rows[id], a.write.row)
    ensures !UniqueActive(After(rows, t))
  {
    OpenedOf(r, rows, snap, t, a);
    TickShape(r, snap, t);
    assert a in t.All();
    assert FreshIds(r, rows);
    hide *;
    OpenedIsNew(r, rows, snap, a.write.row);
    forall x | x in t.All() && x.ok ensures x.write.row.id != id {
      TickIsLawful(r, rows, snap, t, x);
      HiddenNotWritten(r, rows, snap, a.write.row, id, x.write.row);
    }
    ReplayKeeps(rows, t.All(), id);
    StoredWritesLast(r, rows, snap, t, a);
    AfterIs(rows, t);
    OpenedIsActive(r, snap, a.write.row);
    TwoActive(After(rows, t), id, a.write.row.id);
  }

  lemma OpenedIsActive(r: Reads, snap: seq<Problem>, row: Problem)
    requires IsOpened(r, snap, row)
    ensures IsActive(row)
  {}

  lemma TwoActive(rows: map<string, Problem>, a: string, b: string)
    requires a in rows && b in rows && a != b && IsActive(rows[a]) && IsActive(rows[b]) && SameKey(rows[a], rows[b])
    ensures !UniqueActive(rows)
  {}

  lemma OpenedOf(r: Reads, rows: map<string, Problem>, snap: seq<Problem>, t: Run, a: Attempt)
    requires WellFormed(rows) && GoodReads(r, rows) && IsPartial(snap, rows) && IsTick(r, snap, t)
    requires a in t.applied && a.write.step == OpenNew
    ensures IsOpened(r, snap, a.write.row)
  {
    hide *;
    var pa := VerdictOf(r, rows, snap, t, a);
    OpenFactIsOpened(r, snap, MergedIds(Flatten(t.blocks)), pa, a.write);
  }

  lemma OpenFactIsOpened(r: Reads, snap: seq<Problem>, merged: set<string>, pa: Pending, w: Write)
    requires AppliedFact(r, snap, merged, pa, w) && w.step == OpenNew
    ensures IsOpened(r, snap, w.row)
  {
    assert Opened(r, snap, w.row, pa.service, pa.metric);
  }

  lemma HiddenNotWritten(
    r: Reads, rows: map<string, Problem>, snap: seq<Problem>, newcomer: Problem, id: string, row: Problem)
    requires WellFormed(rows) && GoodReads(r, rows) && IsPartial(snap, rows)
    requires IsOpened(r, snap, newcomer) && id in rows && SameKey(rows[id], newcomer)
    requires Lawful(r, snap, row)
    ensures row.id != id
  {
    var s, m :| Opened(r, snap, newcomer, s, m);
    ExistingFacts(snap, rows, s, m);
    MetricRuleIsNoCluster(s, m);
    assert ClusterShape(rows[id]);
    hide UniqueActive, Existing, MetricRule;
    if IsOpened(r, snap, row) {
      OpenedIsNew(r, rows, snap, row);
    } else if Replaced(snap, row) {
      ReplacedIsOld(r, rows, snap, row);
    }
  }

  // A complete snapshot hides nothing.
  lemma SnapshotIsPartial(snap: seq<Problem>, rows: map<string, Problem>)
    requires IsSnapshot(snap, rows)
    ensures IsPartial(snap, rows)
  {}

  lemma CompleteHidesNothing(r: Reads, rows: map<string, Problem>, snap: seq<Problem>, t: Run)
    requires WellFormed(rows) && GoodReads(r, rows) && IsSnapshot(snap, rows) && IsTick(r, snap, t)
    ensures NoHiddenRow(rows, t)
  {
    SnapshotIsPartial(snap, rows);
    forall a, id | a in t.applied && a.ok && a.write.step == OpenNew && id in rows && IsActive(rows[id])
      ensures !SameKey(rows[id], a.write.row)
    {
      hide WellFormed, IsTick, GoodReads;
      OpenedOf(r, rows, snap, t, a);
      SeenRow(r, rows, snap, a.write.row, id);
    }
  }

  lemma SeenRow(r: Reads, rows: map<string, Problem>, snap: seq<Problem>, newcomer: Problem, id: string)
    requires WellFormed(rows) && IsSnapshot(snap, rows) && IsOpened(r, snap, newcomer) && id in rows
               && IsActive(rows[id])
    ensures !SameKey(rows[id], newcomer)
  {
    var s, m :| Opened(r, snap, newcomer, s, m);
    SnapshotIsPartial(snap, rows);
    ExistingFacts(snap, rows, s, m);
    assert rows[id] in snap;
    hide UniqueActive, Existing, MetricRule, ClusterShape;
  }

  // With a complete snapshot a tick leaves the table well formed.
  lemma TickKeepsTable(r: Reads, rows: map<string, Problem>, snap: seq<Problem>, t: Run)
    requires WellFormed(rows) && GoodReads(r, rows) && IsSnapshot(snap, rows) && IsTick(r, snap, t)
    ensures WellFormed(After(rows, t))
  {
    hide *;
    SnapshotIsPartial(snap, rows);
    CompleteHidesNothing(r, rows, snap, t);
    UniqueUnlessHidden(r, rows, snap, t);
    var after := After(rows, t);
    forall id | id in after ensures after[id].id == id && id != "" && ClusterShape(after[id]) {
      FinalRows(r, rows, snap, t, id);
      FinalShape(r, rows, snap, after[id]);
    }
    ShapesAre(after);
  }

  lemma ShapesAre(rows: map<string, Problem>)
    requires forall id :: id in rows ==> rows[id].id == id && id != "" && ClusterShape(rows[id])
    requires UniqueActive(rows)
    ensures WellFormed(rows)
  {
    hide UniqueActive, ClusterShape;
  }

  lemma FinalShape(r: Reads, rows: map<string, Problem>, snap: seq<Problem>, p: Problem)
    requires WellFormed(rows) && GoodReads(r, rows) && IsPartial(snap, rows) && FinalRow(r, rows, snap, p)
    ensures p.id != "" && ClusterShape(p)
  {
    hide UniqueActive;
    if IsOpened(r, snap, p) {
      OpenedIsNew(r, rows, snap, p);
      var s, m :| Opened(r, snap, p, s, m);
      MetricRuleIsNoCluster(s, m);
      hide Existing;
    } else if Replaced(snap, p) {
      ReplacedIsOld(r, rows, snap, p);
      assert ClusterShape(rows[p.id]);
    } else if p.id in rows {
      assert ClusterShape(rows[p.id]);
    }
  }

  // ----- whole histories -----

  ghost predicate TickStep(rows: map<string, Problem>, rows': map<string, Problem>) {
    exists r, snap, t ::
      GoodReads(r, rows) && IsSnapshot(snap, rows) && IsTick(r, snap, t) && rows' == After(rows, t)
  }

  // Other writers between ticks (operators, the stale sweep, other detectors)
  // acknowledge and resolve rows, and open rows of keys without an active one.
  ghost predicate OutsideStep(rows: map<string, Problem>, rows': map<string, Problem>) {
    && rows.Keys <= rows'.Keys
    && (forall id :: id in rows ==>
          && rows'[id].id == rows[id].id && HasKey(rows'[id], rows[id].ruleId, rows[id].service)
          && (IsActive(rows'[id]) ==> IsActive(rows[id])))
    && (forall id :: id in rows' && id !in rows ==> OpenedOutside(rows', id))
  }

  ghost predicate OpenedOutside(rows: map<string, Problem>, id: string)
    requires id in rows
  {
    && rows[id].id == id && id != "" && ClusterShape(rows[id])
    && forall other :: other in rows && other != id && IsActive(rows[other]) && IsActive(rows[id]) ==>
         !SameKey(rows[other], rows[id])
  }

  ghost predicate History(h: seq<map<string, Problem>>) {
    && |h| > 0 && h[0] == map[]
    && forall i, j :: 0 <= i && j == i + 1 < |h| ==> TickStep(h[i], h[j]) || OutsideStep(h[i], h[j])
  }

  // In every state that ticks and other writers can reach, with reads of the
  // snapshot that succeed, no rule and service has two active rows.
  lemma {:induction false} AlwaysWellFormed(h: seq<map<string, Problem>>, i: nat)
    requires History(h) && i < |h|
    ensures WellFormed(h[i])
  {
    hide TickStep, OutsideStep, WellFormed;
    if i == 0 {
      EmptyTable();
    } else {
      AlwaysWellFormed(h, i - 1);
      assert TickStep(h[i - 1], h[i]) || OutsideStep(h[i - 1], h[i]);
      if TickStep(h[i - 1], h[i]) {
        TickStepKeeps(h[i - 1], h[i]);
      } else {
        OutsideKeeps(h[i - 1], h[i]);
      }
    }
  }

  lemma EmptyTable()
    ensures WellFormed(map[])
  {}

  lemma TickStepKeeps(rows: map<string, Problem>, rows': map<string, Problem>)
    requires WellFormed(rows) && TickStep(rows, rows')
    ensures WellFormed(rows')
  {
    hide WellFormed, GoodReads, IsSnapshot, IsTick, After;
    var r, snap, t :| GoodReads(r, rows) && IsSnapshot(snap, rows) && IsTick(r, snap, t) && rows' == After(rows, t);
    TickKeepsTable(r, rows, snap, t);
  }

  lemma OutsideKeeps(rows: map<string, Problem>, rows': map<string, Problem>)
    requires WellFormed(rows) && OutsideStep(rows, rows')
    ensures WellFormed(rows')
  {
    assert UniqueActive(rows') by {
      hide ClusterShape;
      forall a, b | a in rows' && b in rows' && IsActive(rows'[a]) && IsActive(rows'[b]) && SameKey(rows'[a], rows'[b])
        ensures a == b
      {
        if a in rows && b in rows {
          assert SameKey(rows[a], rows[b]);
        }
      }
    }
    hide UniqueActive, SameKey;
    forall id | id in rows' ensures rows'[id].id == id && id != "" && ClusterShape(rows'[id]) {
      if id in rows {
        assert ClusterShape(rows[id]);
      }
    }
  }
}
