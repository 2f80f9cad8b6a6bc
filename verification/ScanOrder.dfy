// A tick does not depend on the order of its snapshot or of Go's maps.
module ScanOrder {
  import opened Problems
  import opened Sorting
  import opened Collecting
  import opened Clustering
  import opened Detector
  import opened DetectorSafety

  // ----- the order of the snapshot and of the maps -----

  lemma {:induction false} CollectAgrees<A, B>(xs: seq<A>, f: A -> Option<B>, g: A -> Option<B>)
    requires forall x :: x in xs ==> f(x) == g(x)
    ensures Collect(xs, f) == Collect(xs, g)
  {
    if xs != [] {
      assert forall x :: x in xs[..|xs| - 1] ==> x in xs;
      CollectAgrees(xs[..|xs| - 1], f, g);
    }
  }

  lemma SameExisting(
    rows: map<string, Problem>, snap: seq<Problem>, snap': seq<Problem>, service: string, metric: string)
    requires WellFormed(rows) && IsPartial(snap, rows) && multiset(snap) == multiset(snap')
    ensures Existing(snap, service, metric) == Existing(snap', service, metric)
  {
    PermutedIsPartial(snap, snap', rows);
    SameElements(snap, snap');
    ExistingFacts(snap, rows, service, metric);
    ExistingFacts(snap', rows, service, metric);
    assert UniqueActive(rows);
    hide Existing, MetricRule, ClusterShape;
    var p, q := Existing(snap, service, metric), Existing(snap', service, metric);
    if p.Some? && q.Some? {
      assert SameKey(rows[p.value.id], rows[q.value.id]);
    }
  }

  lemma PermutedIsPartial(snap: seq<Problem>, snap': seq<Problem>, rows: map<string, Problem>)
    requires IsPartial(snap, rows) && multiset(snap) == multiset(snap')
    ensures IsPartial(snap', rows)
  {
    SameElements(snap, snap');
    StringOrder();
    forall i, j | 0 <= i < j < |snap| ensures IdBefore(snap[i], snap[j]) || IdBefore(snap[j], snap[i]) {
      assert snap[i].id != snap[j].id;
    }
    DistinctPermutes(snap, snap', IdBefore);
    forall i, j | 0 <= i < j < |snap'| ensures snap'[i].id != snap'[j].id {
      assert IdBefore(snap'[i], snap'[j]) || IdBefore(snap'[j], snap'[i]);
    }
  }

  lemma SamePending(r: Reads, rows: map<string, Problem>, snap: seq<Problem>, snap': seq<Problem>)
    requires WellFormed(rows) && IsPartial(snap, rows) && multiset(snap) == multiset(snap')
    ensures AllPending(r, snap) == AllPending(r, snap')
    ensures FreshOpens(r, snap) == FreshOpens(r, snap')
  {
    var f, g := PendingStep(r, snap), PendingStep(r, snap');
    forall pair: (string, string) ensures f(pair) == g(pair) {
      SameExisting(rows, snap, snap', pair.0, pair.1);
      hide Existing, WellFormed, IsPartial;
    }
    var pairs := Pairs(r.services, r.tracked);
    CollectAgrees(pairs, f, g) by { hide *; }
    forall pa ensures FreshStep(r, snap)(pa) == FreshStep(r, snap')(pa) {
      SameExisting(rows, snap, snap', pa.service, pa.metric);
      hide Existing, WellFormed, IsPartial;
    }
    hide FreshStep, PendingStep, WellFormed, IsPartial;
    CollectAgrees(AllPending(r, snap), FreshStep(r, snap), FreshStep(r, snap'));
  }

  ghost predicate SameMember(c: Candidate, d: Candidate) { c.service == d.service && c.metric == d.metric }

  lemma ApartMeansDistinct(cands: seq<Candidate>)
    requires Apart(cands, SameMember)
    ensures DistinctBy(cands, MemberBefore)
  {
    StringOrder();
    forall i, j | 0 <= i < j < |cands|
      ensures MemberBefore(cands[i], cands[j]) || MemberBefore(cands[j], cands[i])
    {
      assert !SameMember(cands[i], cands[j]);
    }
  }

  lemma RowsDiffer(rows: map<string, Problem>, snap: seq<Problem>, p: Problem, q: Problem)
    requires WellFormed(rows) && IsPartial(snap, rows) && p in snap && q in snap && p != q
    ensures !SameKey(p, q)
  {
    assert UniqueActive(rows);
    hide ClusterShape;
  }

  // The candidates that come from rows differ in service or metric.
  lemma RecentApart(
    rows: map<string, Problem>, snap: seq<Problem>, resolving: set<(string, string)>, tracked: seq<string>, now: int)
    requires WellFormed(rows) && IsPartial(snap, rows)
    ensures Apart(Collect(snap, RecentStep(resolving, tracked, now)), SameMember)
  {
    var f := RecentStep(resolving, tracked, now);
    assert NoRepeats(snap);
    forall p, q | p in snap && q in snap && p != q && f(p).Some? && f(q).Some?
      ensures !SameMember(f(p).value, f(q).value)
    {
      RowsDiffer(rows, snap, p, q);
      hide WellFormed, IsPartial, MetricRule;
    }
    hide RecentStep, SameMember;
    CollectApart(snap, f, SameMember);
  }

  lemma FreshApart(r: Reads, rows: map<string, Problem>, snap: seq<Problem>)
    requires GoodReads(r, rows)
    ensures Apart(FreshOpens(r, snap), SameMember)
  {
    PendingOnce(r, rows, snap);
    var pending, f := AllPending(r, snap), FreshStep(r, snap);
    ApartIsDistinct(pending);
    hide AllPending, Existing;
    forall x, y | x in pending && y in pending && x != y && f(x).Some? && f(y).Some?
      ensures !SameMember(f(x).value, f(y).value)
    {
      assert !SamePair(x, y);
    }
    CollectApart(pending, f, SameMember);
  }

  lemma RecentOfPermutation(
    r: Reads, rows: map<string, Problem>, snap: seq<Problem>, resolving: set<(string, string)>, joined: seq<Candidate>)
    requires WellFormed(rows) && IsPartial(snap, rows) && AreRecent(joined, r, snap, resolving)
    ensures DistinctBy(joined, MemberBefore)
  {
    RecentApart(rows, snap, resolving, r.tracked, r.now);
    ApartMeansDistinct(Collect(snap, RecentStep(resolving, r.tracked, r.now)));
    MemberOrder();
    hide RecentStep, MemberBefore;
    DistinctPermutes(Collect(snap, RecentStep(resolving, r.tracked, r.now)), joined, MemberBefore);
  }

  lemma SameJoined(
    r: Reads, rows: map<string, Problem>, snap: seq<Problem>, snap': seq<Problem>, resolving: set<(string, string)>,
    joined: seq<Candidate>, joined': seq<Candidate>)
    requires WellFormed(rows) && IsPartial(snap, rows) && multiset(snap) == multiset(snap')
    requires AreRecent(joined, r, snap, resolving) && AreRecent(joined', r, snap', resolving)
    ensures joined == joined'
  {
    RecentOfPermutation(r, rows, snap, resolving, joined);
    CollectPermutes(snap, snap', RecentStep(resolving, r.tracked, r.now));
    MemberOrder();
    hide RecentStep, MemberBefore;
    SortedUnique(joined, joined', MemberBefore);
  }

  lemma SameResolving(r: Reads, rows: map<string, Problem>, snap: seq<Problem>, snap': seq<Problem>)
    requires WellFormed(rows) && IsPartial(snap, rows) && multiset(snap) == multiset(snap')
    ensures Resolving(r, snap) == Resolving(r, snap')
  {
    SamePending(r, rows, snap, snap');
    CollectPermutes(snap, snap', BatchStep(r));
    SameElements(Collect(snap, BatchStep(r)), Collect(snap', BatchStep(r)));
    hide AllPending, ResolvedKeys, BatchStep;
    assert forall w :: w in BatchWrites(r, snap) <==> w in BatchWrites(r, snap');
  }

  // No two candidates of a tick share service and metric.
  lemma CandidatesDistinct(r: Reads, rows: map<string, Problem>, snap: seq<Problem>, joined: seq<Candidate>)
    requires WellFormed(rows) && GoodReads(r, rows) && IsPartial(snap, rows)
    requires AreRecent(joined, r, snap, Resolving(r, snap))
    ensures DistinctBy(FreshOpens(r, snap) + joined, MemberBefore)
  {
    FreshApart(r, rows, snap);
    var fresh' := FreshOpens(r, snap);
    ApartMeansDistinct(fresh');
    RecentOfPermutation(r, rows, snap, Resolving(r, snap), joined);
    forall i, j | 0 <= i < |fresh'| && 0 <= j < |joined|
      ensures MemberBefore(fresh'[i], joined[j]) || MemberBefore(joined[j], fresh'[i])
    {
      hide DistinctBy, GoodReads;
      FreshFacts(r, snap, fresh'[i]);
      JoinedFacts(r, snap, joined, Resolving(r, snap), joined[j]);
      ExistingFacts(snap, rows, fresh'[i].service, fresh'[i].metric);
      hide FreshOpens, Resolving, Existing, WellFormed, IsPartial, MetricRule;
      assert !SameMember(fresh'[i], joined[j]);
      StringOrder();
    }
    hide *;
    DistinctConcat(fresh', joined);
  }

  lemma DistinctConcat(a: seq<Candidate>, b: seq<Candidate>)
    requires DistinctBy(a, MemberBefore) && DistinctBy(b, MemberBefore)
    requires forall i, j :: 0 <= i < |a| && 0 <= j < |b| ==> MemberBefore(a[i], b[j]) || MemberBefore(b[j], a[i])
    ensures DistinctBy(a + b, MemberBefore)
  {
    hide MemberBefore;
  }

  // Whatever order the snapshot lists its rows in, and whatever order maps are
  // iterated in, a tick joins the same rows and forms the same clusters.
  lemma ClustersIgnoreOrder(
    r: Reads, rows: map<string, Problem>, snap: seq<Problem>, snap': seq<Problem>, t: Run, t': Run)
    requires WellFormed(rows) && GoodReads(r, rows) && IsPartial(snap, rows) && multiset(snap) == multiset(snap')
    requires IsTick(r, snap, t) && AreClusters(t.clusters, t.Cands(r, snap), r)
    requires IsTick(r, snap', t') && AreClusters(t'.clusters, t'.Cands(r, snap'), r)
    ensures t.joined == t'.joined && t.clusters == t'.clusters
  {
    CandidatesOf(r, snap, t);
    CandidatesOf(r, snap', t');
    hide *;
    SamePending(r, rows, snap, snap');
    SameResolving(r, rows, snap, snap');
    SameJoined(r, rows, snap, snap', Resolving(r, snap), t.joined, t'.joined);
    CandidatesDistinct(r, rows, snap, t.joined);
    SameClusters(r, FreshOpens(r, snap) + t.joined, t.clusters, t'.clusters);
  }

  lemma CandidatesOf(r: Reads, snap: seq<Problem>, t: Run)
    requires IsTick(r, snap, t) && AreClusters(t.clusters, t.Cands(r, snap), r)
    ensures AreRecent(t.joined, r, snap, Resolving(r, snap))
              && AreClusters(t.clusters, FreshOpens(r, snap) + t.joined, r)
  {
    hide AreClusters, ClustersFit, AreRecent, FreshOpens, Collect, Writes, HaveBlocks, MergedIds, Flatten, Grouped;
    hide AllPending, BatchWrites;
    assert t.Cands(r, snap) == FreshOpens(r, snap) + t.joined;
  }

  lemma SameClusters(r: Reads, cands: seq<Candidate>, out: seq<Cluster>, out': seq<Cluster>)
    requires DistinctBy(cands, MemberBefore) && AreClusters(out, cands, r) && AreClusters(out', cands, r)
    ensures out == out'
  {
    hide DistinctBy, IsClustering;
    if r.adjacency.Some? {
      ClusteringUnique(cands, cands, r.adjacency.value, MIN_MEMBERS, out, out');
    }
  }

  // ----- the table after the tick -----

  // The store accepts a write or refuses it whenever it is attempted.
  ghost predicate Answers(run: seq<Attempt>, accepts: Write -> bool) {
    forall a :: a in run ==> a.ok == accepts(a.write)
  }

  lemma SameRun(run: seq<Attempt>, run': seq<Attempt>, accepts: Write -> bool)
    requires Answers(run, accepts) && Answers(run', accepts) && Writes(run) == Writes(run')
    ensures run == run'
  {
    forall i | 0 <= i < |run| ensures run[i] == run'[i] {
      assert Writes(run)[i] == run[i].write && Writes(run')[i] == run'[i].write;
      assert run[i] in run && run'[i] in run';
    }
  }

  lemma AttemptsAre(run: seq<Attempt>, accepts: Write -> bool)
    requires Answers(run, accepts)
    ensures forall a :: a in run <==> a.write in Writes(run) && a.ok == accepts(a.write)
  {
    forall a ensures a in run <==> a.write in Writes(run) && a.ok == accepts(a.write) {
      if a in run {
        WriteOf(run, a);
      }
      if a.write in Writes(run) && a.ok == accepts(a.write) {
        var i :| 0 <= i < |run| && Writes(run)[i] == a.write;
        assert run[i] in run;
      }
    }
  }

  lemma SameAttempts(run: seq<Attempt>, run': seq<Attempt>, accepts: Write -> bool)
    requires Answers(run, accepts) && Answers(run', accepts) && multiset(Writes(run)) == multiset(Writes(run'))
    ensures forall a :: a in run <==> a in run'
  {
    SameElements(Writes(run), Writes(run'));
    AttemptsAre(run, accepts);
    AttemptsAre(run', accepts);
    hide *;
  }

  // Runs of the same attempts that write no row twice leave the same table.
  lemma SameReplay(rows: map<string, Problem>, run: seq<Attempt>, run': seq<Attempt>)
    requires Once(run) && Once(run') && forall a :: a in run <==> a in run'
    ensures Replay(rows, run) == Replay(rows, run')
  {
    hide *;
    var after, after' := Replay(rows, run), Replay(rows, run');
    forall id
      ensures id in after <==> id in after'
      ensures id in after ==> after[id] == after'[id]
    {
      if a :| a in run && a.ok && a.write.row.id == id {
        ReplayHas(rows, run, a);
        ReplayHas(rows, run', a);
      } else {
        ReplayKeeps(rows, run, id);
        ReplayKeeps(rows, run', id);
      }
    }
  }

  lemma SameById(rows: map<string, Problem>, snap: seq<Problem>, snap': seq<Problem>, id: string)
    requires IsPartial(snap, rows) && multiset(snap) == multiset(snap')
    ensures ById(snap, id) == ById(snap', id)
  {
    SameElements(snap, snap');
    FoundById(snap, id);
    FoundById(snap', id);
    hide ById;
  }

  lemma {:induction false} FoundById(snap: seq<Problem>, id: string)
    ensures ById(snap, id).Some? ==> ById(snap, id).value in snap && ById(snap, id).value.id == id
    ensures ById(snap, id).None? ==> forall p :: p in snap ==> p.id != id
  {
    if snap != [] && snap[|snap| - 1].id != id {
      FoundById(snap[..|snap| - 1], id);
      assert forall p :: p in snap <==> p in snap[..|snap| - 1] || p == snap[|snap| - 1];
    }
  }

  lemma OneStart(start: int, start': int, now: int, targets: seq<Problem>)
    requires IsClusterStart(start, now, targets) && IsClusterStart(start', now, targets)
    ensures start == start'
  {}

  lemma SameClusterRow(
    r: Reads, snap: seq<Problem>, snap': seq<Problem>, cl: Cluster, targets: seq<Problem>, critical: bool,
    row: Problem, row': Problem)
    requires ById(snap, ClusterId(cl.source)) == ById(snap', ClusterId(cl.source))
    requires IsClusterRow(row, cl, targets, critical, r, snap) && IsClusterRow(row', cl, targets, critical, r, snap')
    ensures row == row'
  {
    hide ById, IsClusterStart;
    if Named(ById(snap, ClusterId(cl.source))).None? {
      OneStart(row.startedAt, row'.startedAt, r.now, targets);
    }
  }

  lemma SameBlock(
    r: Reads, rows: map<string, Problem>, snap: seq<Problem>, snap': seq<Problem>, cl: Cluster, targets: seq<Problem>,
    critical: bool, block: seq<Attempt>, block': seq<Attempt>, accepts: Write -> bool)
    requires IsPartial(snap, rows) && multiset(snap) == multiset(snap')
    requires IsBlock(block, cl, targets, critical, r, snap) && IsBlock(block', cl, targets, critical, r, snap')
    requires Answers(block, accepts) && Answers(block', accepts)
    ensures block == block'
  {
    SameById(rows, snap, snap', ClusterId(cl.source));
    hide IsClusterRow, MergeWrite, IsPartial;
    SameClusterRow(r, snap, snap', cl, targets, critical, block[0].write.row, block'[0].write.row);
    assert block[0] in block && block'[0] in block';
    assert block[0] == block'[0];
    forall i | 0 <= i < |block| ensures block[i] == block'[i] {
      assert block[i] in block && block'[i] in block';
    }
  }

  lemma {:induction false} AnswersInBlocks(blocks: seq<seq<Attempt>>, accepts: Write -> bool, k: nat)
    requires Answers(Flatten(blocks), accepts) && k < |blocks|
    ensures Answers(blocks[k], accepts)
  {
    forall a | a in blocks[k] ensures a.ok == accepts(a.write) {
      FlattenHas(blocks, k, a);
    }
  }

  lemma SameBlocks(
    r: Reads, rows: map<string, Problem>, snap: seq<Problem>, snap': seq<Problem>, t: Run, t': Run,
    accepts: Write -> bool)
    requires WellFormed(rows) && IsPartial(snap, rows) && multiset(snap) == multiset(snap')
    requires IsTick(r, snap, t) && IsTick(r, snap', t') && t.joined == t'.joined && t.clusters == t'.clusters
    requires Answers(Flatten(t.blocks), accepts) && Answers(Flatten(t'.blocks), accepts)
    ensures t.blocks == t'.blocks
  {
    TickShape(r, snap, t);
    TickShape(r, snap', t');
    hide *;
    SamePending(r, rows, snap, snap');
    forall k | 0 <= k < |t.blocks| ensures t.blocks[k] == t'.blocks[k] {
      var cl := t.clusters[k];
      TickBlock(r, snap, t, k);
      TickBlock(r, snap', t', k);
      SameCritical(cl.source, r, snap, snap', t.joined);
      AnswersInBlocks(t.blocks, accepts, k);
      AnswersInBlocks(t'.blocks, accepts, k);
      SameBlock(r, rows, snap, snap', cl, TargetsOf(cl, FreshOpens(r, snap) + t.joined),
                IsCritical(cl.source, r, snap, t.joined), t.blocks[k], t'.blocks[k], accepts);
    }
  }

  lemma SameCritical(service: string, r: Reads, snap: seq<Problem>, snap': seq<Problem>, joined: seq<Candidate>)
    requires AllPending(r, snap) == AllPending(r, snap')
    ensures IsCritical(service, r, snap, joined) == IsCritical(service, r, snap', joined)
  {
    hide AllPending;
  }

  lemma SameApplied(
    r: Reads, rows: map<string, Problem>, snap: seq<Problem>, snap': seq<Problem>, suppressed: set<string>,
    merged: set<string>)
    requires WellFormed(rows) && IsPartial(snap, rows) && multiset(snap) == multiset(snap')
    ensures Collect(AllPending(r, snap), ApplyStep(r, snap, suppressed, merged))
         == Collect(AllPending(r, snap'), ApplyStep(r, snap', suppressed, merged))
  {
    SamePending(r, rows, snap, snap');
    var f, g := ApplyStep(r, snap, suppressed, merged), ApplyStep(r, snap', suppressed, merged);
    forall pa ensures f(pa) == g(pa) {
      SameExisting(rows, snap, snap', pa.service, pa.metric);
      hide Existing, WellFormed, IsPartial;
    }
    hide *;
    CollectAgrees(AllPending(r, snap), f, g);
  }

  lemma SameBatch(r: Reads, snap: seq<Problem>, snap': seq<Problem>)
    requires multiset(snap) == multiset(snap')
    ensures multiset(BatchWrites(r, snap)) == multiset(BatchWrites(r, snap'))
  {
    CollectPermutes(snap, snap', BatchStep(r));
    hide BatchStep;
  }

  lemma SameAnomalous(r: Reads, snap: seq<Problem>, snap': seq<Problem>, joined: seq<Candidate>)
    requires AllPending(r, snap) == AllPending(r, snap')
    ensures Anomalous(r, snap, joined) == Anomalous(r, snap', joined)
  {
    hide AllPending;
  }

  lemma AnswersParts(t: Run, accepts: Write -> bool)
    requires Answers(t.All(), accepts)
    ensures Answers(t.batch, accepts) && Answers(Flatten(t.blocks), accepts)
    ensures Answers(t.stale, accepts) && Answers(t.applied, accepts)
  {
    hide Flatten;
    assert t.All() == t.batch + (Flatten(t.blocks) + (t.stale + t.applied));
  }

  // Both runs attempt the same writes, and so get the same answers.
  lemma TicksAttemptTheSame(
    r: Reads, rows: map<string, Problem>, snap: seq<Problem>, snap': seq<Problem>, t: Run, t': Run,
    accepts: Write -> bool)
    requires WellFormed(rows) && IsPartial(snap, rows) && multiset(snap) == multiset(snap')
    requires IsTick(r, snap, t) && IsTick(r, snap', t') && t.joined == t'.joined && t.clusters == t'.clusters
    requires Answers(t.All(), accepts) && Answers(t'.All(), accepts)
    ensures t.blocks == t'.blocks && t.applied == t'.applied
    ensures forall a :: a in t.All() <==> a in t'.All()
  {
    TickShape(r, snap, t);
    TickShape(r, snap', t');
    AnswersParts(t, accepts);
    AnswersParts(t', accepts);
    hide *;
    SameBlocks(r, rows, snap, snap', t, t', accepts);
    SameApplied(r, rows, snap, snap', Grouped(t.clusters), MergedIds(Flatten(t.blocks)));
    SameRun(t.applied, t'.applied, accepts);
    SamePending(r, rows, snap, snap');
    SameAnomalous(r, snap, snap', t.joined);
    CollectPermutes(snap, snap', StaleStep(Anomalous(r, snap, t.joined)));
    SameAttempts(t.stale, t'.stale, accepts);
    SameBatch(r, snap, snap');
    SameAttempts(t.batch, t'.batch, accepts);
  }

  // The table after a tick depends neither on the order in which the snapshot
  // lists its rows nor on the iteration order of any map, as long as the store
  // gives the same answers.
  lemma TickIgnoresOrder(
    r: Reads, rows: map<string, Problem>, snap: seq<Problem>, snap': seq<Problem>, t: Run, t': Run,
    accepts: Write -> bool)
    requires WellFormed(rows) && GoodReads(r, rows) && IsPartial(snap, rows) && multiset(snap) == multiset(snap')
    requires IsTick(r, snap, t) && AreClusters(t.clusters, t.Cands(r, snap), r)
    requires IsTick(r, snap', t') && AreClusters(t'.clusters, t'.Cands(r, snap'), r)
    requires Answers(t.All(), accepts) && Answers(t'.All(), accepts)
    ensures After(rows, t) == After(rows, t')
  {
    hide *;
    ClustersIgnoreOrder(r, rows, snap, snap', t, t');
    TicksAttemptTheSame(r, rows, snap, snap', t, t', accepts);
    PermutedIsPartial(snap, snap', rows);
    TickOnce(r, rows, snap, t);
    TickOnce(r, rows, snap', t');
    SameReplay(rows, t.All(), t'.All());
    AfterIs(rows, t);
    AfterIs(rows, t');
  }
}
