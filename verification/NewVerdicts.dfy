// What becomes of a verdict to open, and when it opens a second row.
module NewVerdicts {
  import opened Problems
  import opened Collecting
  import opened Clustering
  import opened Detector
  import opened DetectorSafety
  import opened ScanOrder

  // ----- what becomes of a new verdict -----

  // Whether some attempt of the tick opens a row under the key of a pair.
  ghost predicate OpensRow(t: Run, service: string, metric: string) {
    exists a :: a in t.applied && a.write.step == OpenNew && HasKey(a.write.row, MetricRule(service, metric), service)
  }

  // The verdict behind an opening.
  lemma OpeningVerdict(r: Reads, snap: seq<Problem>, t: Run, a: Attempt) returns (pa: Pending)
    requires IsTick(r, snap, t) && a in t.applied && a.write.step == OpenNew
    ensures pa in AllPending(r, snap) && pa.outcome == Verdict.Open && Existing(snap, pa.service, pa.metric).None?
    ensures pa.service !in Grouped(t.clusters) && !r.calendarMutes(pa.service, pa.metric)
    ensures HasKey(a.write.row, MetricRule(pa.service, pa.metric), pa.service)
  {
    hide *;
    TickShape(r, snap, t);
    WriteOf(t.applied, a);
    var suppressed, merged := Grouped(t.clusters), MergedIds(Flatten(t.blocks));
    pa := CollectSource(AllPending(r, snap), ApplyStep(r, snap, suppressed, merged), a.write);
    OpeningMeans(r, snap, suppressed, merged, pa, a.write);
  }

  lemma OpeningMeans(
    r: Reads, snap: seq<Problem>, suppressed: set<string>, merged: set<string>, pa: Pending, w: Write)
    requires ApplyStep(r, snap, suppressed, merged)(pa) == Some(w) && w.step == OpenNew
    ensures pa.outcome == Verdict.Open && Existing(snap, pa.service, pa.metric).None?
    ensures pa.service !in suppressed && !r.calendarMutes(pa.service, pa.metric)
    ensures HasKey(w.row, MetricRule(pa.service, pa.metric), pa.service)
  {
    hide Existing, MetricRule;
  }

  // A service in a cluster of the tick, or a muted pair, gets no new row.
  lemma SuppressedOpensNothing(r: Reads, snap: seq<Problem>, t: Run, service: string, metric: string)
    requires IsTick(r, snap, t) && (service in Grouped(t.clusters) || r.calendarMutes(service, metric))
    ensures !OpensRow(t, service, metric)
  {
    hide *;
    forall a | a in t.applied && a.write.step == OpenNew
      ensures !HasKey(a.write.row, MetricRule(service, metric), service)
    {
      var pa := OpeningVerdict(r, snap, t, a);
      OneKey(a.write.row, pa.service, pa.metric, service, metric);
    }
    NothingOpens(t, service, metric);
  }

  lemma OneKey(row: Problem, s: string, m: string, s': string, m': string)
    requires HasKey(row, MetricRule(s, m), s)
    ensures HasKey(row, MetricRule(s', m'), s') ==> s == s' && m == m'
  {
    hide MetricRule;
    MetricRuleInjective(s, m, m');
  }

  lemma NothingOpens(t: Run, service: string, metric: string)
    requires forall a :: a in t.applied && a.write.step == OpenNew ==>
               !HasKey(a.write.row, MetricRule(service, metric), service)
    ensures !OpensRow(t, service, metric)
  {
    hide MetricRule;
  }

  // A verdict to open that has no row yet leads to a write of a new row exactly
  // when its service is in no cluster of the tick and the calendar does not mute
  // it.
  lemma NewVerdictIsWritten(r: Reads, snap: seq<Problem>, t: Run, pa: Pending)
    requires IsTick(r, snap, t) && pa in AllPending(r, snap)
    requires pa.outcome == Verdict.Open && Existing(snap, pa.service, pa.metric).None?
    ensures OpensRow(t, pa.service, pa.metric)
       <==> pa.service !in Grouped(t.clusters) && !r.calendarMutes(pa.service, pa.metric)
    ensures pa.service in Grouped(t.clusters) || r.calendarMutes(pa.service, pa.metric) ==>
              OutcomeOf(r, snap, t, pa).None?
    ensures pa.service !in Grouped(t.clusters) && !r.calendarMutes(pa.service, pa.metric) ==>
              exists a :: a in t.applied && a.write.step == OpenNew && OutcomeOf(r, snap, t, pa) == Some(a.write)
                          && HasKey(a.write.row, MetricRule(pa.service, pa.metric), pa.service)
  {
    TickShape(r, snap, t);
    if pa.service in Grouped(t.clusters) || r.calendarMutes(pa.service, pa.metric) {
      SuppressedOpensNothing(r, snap, t, pa.service, pa.metric);
    }
    var f := ApplyStep(r, snap, Grouped(t.clusters), MergedIds(Flatten(t.blocks)));
    hide IsTick, AllPending, Existing, Grouped;
    if f(pa).Some? {
      CollectKeeps(AllPending(r, snap), f, pa);
      AttemptOf(t.applied, f(pa).value);
    }
  }

  ghost function OutcomeOf(r: Reads, snap: seq<Problem>, t: Run, pa: Pending): Option<Write> {
    ApplyStep(r, snap, Grouped(t.clusters), MergedIds(Flatten(t.blocks)))(pa)
  }

  lemma AttemptOf(run: seq<Attempt>, w: Write)
    requires w in Writes(run)
    ensures exists a :: a in run && a.write == w
  {
    var i :| 0 <= i < |run| && Writes(run)[i] == w;
    assert run[i] in run;
  }

  // No attempt is made under the key of a new verdict in a cluster.
  lemma SuppressedIsUnwritten(
    r: Reads, rows: map<string, Problem>, snap: seq<Problem>, t: Run, k: nat, service: string, metric: string)
    requires WellFormed(rows) && GoodReads(r, rows) && IsPartial(snap, rows) && IsTick(r, snap, t)
    requires k < |t.clusters| && service in ClusterServices(t.clusters[k]) && Existing(snap, service, metric).None?
    ensures forall a :: a in t.All() ==> !HasKey(a.write.row, MetricRule(service, metric), service)
  {
    hide *;
    InGrouped(t.clusters, k, service);
    SuppressedOpensNothing(r, snap, t, service, metric);
    forall a | a in t.All() ensures !HasKey(a.write.row, MetricRule(service, metric), service) {
      TickIsLawful(r, rows, snap, t, a);
      NoRowOfKey(r, rows, snap, t, service, metric, a);
    }
  }

  // A verdict that opens an anomaly in a cluster whose own row was refused leaves
  // no trace at all: no attempt is made under its key, and the row of the
  // cluster stays what it was.
  lemma RefusedClusterStillSuppresses(
    r: Reads, rows: map<string, Problem>, snap: seq<Problem>, t: Run, k: nat, service: string, metric: string)
    requires WellFormed(rows) && GoodReads(r, rows) && IsPartial(snap, rows) && IsTick(r, snap, t)
    requires k < |t.blocks| && k < |t.clusters| && t.blocks[k] != [] && !t.blocks[k][0].ok
    requires service in ClusterServices(t.clusters[k]) && Existing(snap, service, metric).None?
    ensures forall a :: a in t.All() ==> !HasKey(a.write.row, MetricRule(service, metric), service)
    ensures forall a :: a in t.All() && a.ok ==> a.write.row.id != ClusterId(t.clusters[k].source)
    ensures var id := ClusterId(t.clusters[k].source);
            (id in After(rows, t) <==> id in rows) && (id in rows ==> After(rows, t)[id] == rows[id])
  {
    hide *;
    SuppressedIsUnwritten(r, rows, snap, t, k, service, metric);
    var id := ClusterId(t.clusters[k].source);
    forall a | a in t.All() && a.ok ensures a.write.row.id != id {
      RefusedRowIsUnwritten(r, rows, snap, t, k, a);
    }
    ReplayKeeps(rows, t.All(), id);
    AfterIs(rows, t);
  }

  ghost predicate StoredIn(t: Run, id: string) { exists a :: a in t.All() && a.ok && a.write.row.id == id }

  ghost predicate ActiveIn(rows: map<string, Problem>, id: string) { id in rows && IsActive(rows[id]) }

  // Both outcomes. The tick stores the row of the cluster of a suppressed verdict
  // exactly when the store accepts its own write; the verdict ends the tick
  // behind an active cluster row exactly then, or when the table had one before.
  lemma SuppressedBehindCluster(
    r: Reads, rows: map<string, Problem>, snap: seq<Problem>, t: Run, k: nat, service: string, metric: string)
    requires WellFormed(rows) && GoodReads(r, rows) && IsPartial(snap, rows) && IsTick(r, snap, t)
    requires k < |t.clusters| && service in ClusterServices(t.clusters[k]) && Existing(snap, service, metric).None?
    ensures k < |t.blocks| && t.blocks[k] != []
    ensures forall a :: a in t.All() ==> !HasKey(a.write.row, MetricRule(service, metric), service)
    ensures var id := ClusterId(t.clusters[k].source);
            && (StoredIn(t, id) <==> t.blocks[k][0].ok)
            && (ActiveIn(After(rows, t), id) <==> t.blocks[k][0].ok || ActiveIn(rows, id))
            && (t.blocks[k][0].ok ==> After(rows, t)[id] == t.blocks[k][0].write.row)
  {
    SuppressedIsUnwritten(r, rows, snap, t, k, service, metric);
    hide *;
    FirstAttempt(r, rows, snap, t, k);
    if t.blocks[k][0].ok {
      AcceptedClusterStays(r, rows, snap, t, k);
    } else {
      RefusedClusterStillSuppresses(r, rows, snap, t, k, service, metric);
      NothingStored(rows, t, ClusterId(t.clusters[k].source));
    }
  }

  lemma FirstAttempt(r: Reads, rows: map<string, Problem>, snap: seq<Problem>, t: Run, k: nat)
    requires WellFormed(rows) && IsPartial(snap, rows) && IsTick(r, snap, t) && k < |t.clusters|
    ensures k < |t.blocks| && t.blocks[k] != [] && t.blocks[k][0].write.row.id == ClusterId(t.clusters[k].source)
  {
    TickShape(r, snap, t);
    hide *;
    BlockFacts(r, rows, snap, t, k);
    FirstOfGoodBlock(r, snap, t.joined, t.clusters[k], t.blocks[k]);
  }

  lemma AcceptedClusterStays(r: Reads, rows: map<string, Problem>, snap: seq<Problem>, t: Run, k: nat)
    requires WellFormed(rows) && GoodReads(r, rows) && IsPartial(snap, rows) && IsTick(r, snap, t)
    requires k < |t.clusters| && k < |t.blocks| && t.blocks[k] != [] && t.blocks[k][0].ok
    ensures var id := ClusterId(t.clusters[k].source);
            StoredIn(t, id) && ActiveIn(After(rows, t), id) && After(rows, t)[id] == t.blocks[k][0].write.row
  {
    hide *;
    var first, id := t.blocks[k][0], ClusterId(t.clusters[k].source);
    FirstAttempt(r, rows, snap, t, k);
    StoredClustersStayActive(r, rows, snap, t, k);
    FlattenHas(t.blocks, k, first);
    BlocksAreInTick(r, snap, t, first);
    StoredIs(t, id);
    ActiveIs(After(rows, t), id);
  }

  lemma NothingStored(rows: map<string, Problem>, t: Run, id: string)
    requires forall a :: a in t.All() && a.ok ==> a.write.row.id != id
    requires (id in After(rows, t) <==> id in rows) && (id in rows ==> After(rows, t)[id] == rows[id])
    ensures !StoredIn(t, id) && (ActiveIn(After(rows, t), id) <==> ActiveIn(rows, id))
  {
    hide After;
  }

  lemma StoredIs(t: Run, id: string)
    ensures StoredIn(t, id) <==> exists a :: a in t.All() && a.ok && a.write.row.id == id
  {}

  lemma ActiveIs(rows: map<string, Problem>, id: string)
    ensures ActiveIn(rows, id) <==> id in rows && IsActive(rows[id])
  {}

  lemma InGrouped(clusters: seq<Cluster>, k: nat, service: string)
    requires k < |clusters| && service in ClusterServices(clusters[k])
    ensures service in Grouped(clusters)
  {
    hide ClusterServices;
  }

  lemma NoRowOfKey(
    r: Reads, rows: map<string, Problem>, snap: seq<Problem>, t: Run, service: string, metric: string, a: Attempt)
    requires WellFormed(rows) && IsPartial(snap, rows) && Existing(snap, service, metric).None?
    requires !OpensRow(t, service, metric) && Lawful(r, snap, a.write.row)
    requires IsOpened(r, snap, a.write.row) ==> a in t.applied && a.write.step == OpenNew
    ensures !HasKey(a.write.row, MetricRule(service, metric), service)
  {
    ExistingFacts(snap, rows, service, metric);
    MetricRuleIsNoCluster(service, metric);
    hide WellFormed, IsPartial, Existing, MetricRule, IsOpened;
  }

  lemma RefusedRowIsUnwritten(r: Reads, rows: map<string, Problem>, snap: seq<Problem>, t: Run, k: nat, a: Attempt)
    requires WellFormed(rows) && GoodReads(r, rows) && IsPartial(snap, rows) && IsTick(r, snap, t)
    requires k < |t.blocks| && k < |t.clusters| && t.blocks[k] != [] && !t.blocks[k][0].ok
    requires a in t.All() && a.ok
    ensures a.write.row.id != ClusterId(t.clusters[k].source)
  {
    TickShape(r, snap, t);
    hide *;
    var first, joined := t.blocks[k][0].write, t.joined;
    BlockFacts(r, rows, snap, t, k);
    FirstIsCluster(r, snap, joined, t.clusters[k], t.blocks[k]);
    if a in t.batch {
      WriteOf(t.batch, a);
      BatchFacts(r, rows, snap, a.write);
      BatchAgainstBlock(r, snap, rows, joined, t.clusters[k], a.write, first);
    } else if a in Flatten(t.blocks) {
      var j := BlockOf(r, rows, snap, t, a);
      if j == k {
        assert false;
      } else {
        OthersApart(r, snap, t, j, k);
        WritesApart(r, snap, rows, joined, t.clusters[j], t.clusters[k], a.write, first);
      }
    } else if a in t.stale {
      WriteOf(t.stale, a);
      StaleFacts(r, rows, snap, joined, a.write);
      StaleAgainstBlock(r, snap, joined, t.clusters[k], a.write, first);
    } else {
      var pa := VerdictOf(r, rows, snap, t, a);
      AppliedIsNoCluster(r, snap, MergedIds(Flatten(t.blocks)), pa, a.write, t.clusters[k].source);
    }
    DifferentIds(a.write, first);
  }

  lemma FirstIsCluster(r: Reads, snap: seq<Problem>, joined: seq<Candidate>, cl: Cluster, block: seq<Attempt>)
    requires GoodBlock(r, snap, joined, cl, block)
    ensures |block| >= 1 && ClusterFact(r, snap, joined, cl, block[0].write)
    ensures block[0].write.row.id == ClusterId(cl.source) && (|block| > 1 ==> block[0].ok)
  {
    hide Anomalous;
  }

  lemma OthersApart(r: Reads, snap: seq<Problem>, t: Run, j: nat, k: nat)
    requires IsTick(r, snap, t) && j < |t.clusters| && k < |t.clusters| && j != k
    ensures ClusterServices(t.clusters[j]) !! ClusterServices(t.clusters[k])
  {
    TickClusters(r, snap, t);
    hide IsTick, Services, ClusterServices;
  }

  lemma AppliedIsNoCluster(r: Reads, snap: seq<Problem>, merged: set<string>, pa: Pending, w: Write, source: string)
    requires AppliedFact(r, snap, merged, pa, w)
    ensures w.row.id != ClusterId(source)
  {
    OwnedPrefix(source);
    hide RewriteFact, OpenFact;
  }

  lemma DifferentIds(w: Write, v: Write)
    ensures SameId(w, v) <==> w.row.id == v.row.id
  {}

  // ----- openings over rows that the snapshot does not show -----

  // A verdict that will open a row although the table has an active one of its
  // key: the snapshot misses that one, no cluster holds the service, and the
  // calendar does not mute the pair.
  ghost predicate OpensUnseen(
    r: Reads, rows: map<string, Problem>, snap: seq<Problem>, clusters: seq<Cluster>, pa: Pending, id: string)
  {
    && pa in AllPending(r, snap) && pa.outcome == Verdict.Open && Existing(snap, pa.service, pa.metric).None?
    && pa.service !in Grouped(clusters) && !r.calendarMutes(pa.service, pa.metric)
    && id in rows && IsActive(rows[id]) && HasKey(rows[id], MetricRule(pa.service, pa.metric), pa.service)
  }

  ghost predicate NothingUnseen(r: Reads, rows: map<string, Problem>, snap: seq<Problem>, clusters: seq<Cluster>) {
    forall pa, id :: !OpensUnseen(r, rows, snap, clusters, pa, id)
  }

  // The clusters that the reads and the snapshot lead to, before any write.
  ghost predicate FormedFrom(r: Reads, snap: seq<Problem>, clusters: seq<Cluster>) {
    exists joined :: AreRecent(joined, r, snap, Resolving(r, snap))
      && AreClusters(clusters, FreshOpens(r, snap) + joined, r)
  }

  // There is one list of clusters for given reads.
  lemma ClustersAreKnown(r: Reads, rows: map<string, Problem>, snap: seq<Problem>, clusters: seq<Cluster>, t: Run)
    requires WellFormed(rows) && GoodReads(r, rows) && IsPartial(snap, rows)
    requires IsTick(r, snap, t) && AreClusters(t.clusters, t.Cands(r, snap), r)
    ensures FormedFrom(r, snap, clusters) <==> clusters == t.clusters
  {
    CandidatesOf(r, snap, t);
    hide IsTick, AreRecent, AreClusters, FreshOpens, Resolving, WellFormed, GoodReads, IsPartial;
    if FormedFrom(r, snap, clusters) {
      var joined :| AreRecent(joined, r, snap, Resolving(r, snap))
        && AreClusters(clusters, FreshOpens(r, snap) + joined, r);
      SameJoined(r, rows, snap, snap, Resolving(r, snap), joined, t.joined);
      CandidatesDistinct(r, rows, snap, joined);
      SameClusters(r, FreshOpens(r, snap) + joined, clusters, t.clusters);
    }
  }

  // A tick keeps "at most one active row per rule and service" when it meets no
  // such verdict, and only then if its openings are stored. What it meets is
  // settled by the reads, the table and the snapshot.
  lemma UniqueUnlessUnseen(r: Reads, rows: map<string, Problem>, snap: seq<Problem>, clusters: seq<Cluster>, t: Run)
    requires WellFormed(rows) && GoodReads(r, rows) && IsPartial(snap, rows) && FormedFrom(r, snap, clusters)
    requires IsTick(r, snap, t) && AreClusters(t.clusters, t.Cands(r, snap), r)
    ensures NothingUnseen(r, rows, snap, clusters) ==> UniqueActive(After(rows, t))
    ensures (forall a :: a in t.applied && a.write.step == OpenNew ==> a.ok) ==>
              (UniqueActive(After(rows, t)) <==> NothingUnseen(r, rows, snap, clusters))
  {
    hide *;
    ClustersAreKnown(r, rows, snap, clusters, t);
    UniqueUnlessHidden(r, rows, snap, t);
    if NothingUnseen(r, rows, snap, clusters) {
      UnseenIsAllThatHides(r, rows, snap, t);
    }
    if (forall a :: a in t.applied && a.write.step == OpenNew ==> a.ok) && UniqueActive(After(rows, t)) {
      forall pa, id ensures !OpensUnseen(r, rows, snap, clusters, pa, id) {
        if OpensUnseen(r, rows, snap, clusters, pa, id) {
          UnseenDuplicates(r, rows, snap, t, pa, id);
          assert false;
        }
      }
      NothingUnseenIs(r, rows, snap, clusters);
    }
  }

  lemma NothingUnseenIs(r: Reads, rows: map<string, Problem>, snap: seq<Problem>, clusters: seq<Cluster>)
    requires forall pa, id :: !OpensUnseen(r, rows, snap, clusters, pa, id)
    ensures NothingUnseen(r, rows, snap, clusters)
  {}

  lemma UnseenIsAllThatHides(r: Reads, rows: map<string, Problem>, snap: seq<Problem>, t: Run)
    requires IsTick(r, snap, t) && NothingUnseen(r, rows, snap, t.clusters)
    ensures NoHiddenRow(rows, t)
  {
    forall a, id | a in t.applied && a.ok && a.write.step == OpenNew && id in rows && IsActive(rows[id])
      ensures !SameKey(rows[id], a.write.row)
    {
      var pa := OpeningVerdict(r, snap, t, a);
      hide IsTick, AllPending, Existing, MetricRule, Grouped;
      assert !OpensUnseen(r, rows, snap, t.clusters, pa, id);
    }
    hide *;
    NoHiddenIs(rows, t);
  }

  lemma UnseenDuplicates(r: Reads, rows: map<string, Problem>, snap: seq<Problem>, t: Run, pa: Pending, id: string)
    requires WellFormed(rows) && GoodReads(r, rows) && IsPartial(snap, rows) && IsTick(r, snap, t)
    requires OpensUnseen(r, rows, snap, t.clusters, pa, id)
    requires forall a :: a in t.applied && a.write.step == OpenNew ==> a.ok
    ensures !UniqueActive(After(rows, t))
  {
    hide WellFormed, GoodReads, IsPartial, IsTick, AllPending, Existing, Grouped, After, UniqueActive, MetricRule;
    hide OutcomeOf;
    NewVerdictIsWritten(r, snap, t, pa);
    var a :| a in t.applied && a.write.step == OpenNew && OutcomeOf(r, snap, t, pa) == Some(a.write)
      && HasKey(a.write.row, MetricRule(pa.service, pa.metric), pa.service);
    KeysMeet(rows[id], a.write.row, MetricRule(pa.service, pa.metric), pa.service);
    HiddenRowStays(r, rows, snap, t, a, id);
  }

  // A failed read of the snapshot does break uniqueness: a verdict to open for
  // a pair that has an active row then opens a second one.
  lemma FailedSnapshotDuplicates(r: Reads, rows: map<string, Problem>, t: Run, pa: Pending, id: string)
    requires WellFormed(rows) && GoodReads(r, rows) && IsTick(r, [], t)
    requires forall a :: a in t.applied && a.write.step == OpenNew ==> a.ok
    requires pa in AllPending(r, []) && pa.outcome == Verdict.Open
    requires pa.service !in Grouped(t.clusters) && !r.calendarMutes(pa.service, pa.metric)
    requires id in rows && IsActive(rows[id]) && HasKey(rows[id], MetricRule(pa.service, pa.metric), pa.service)
    ensures !UniqueActive(After(rows, t))
  {
    EmptySnapshot(rows, pa.service, pa.metric);
    assert OpensUnseen(r, rows, [], t.clusters, pa, id);
    hide *;
    UnseenDuplicates(r, rows, [], t, pa, id);
  }

  lemma EmptySnapshot(rows: map<string, Problem>, service: string, metric: string)
    ensures IsPartial([], rows) && Existing([], service, metric).None?
  {}

  lemma KeysMeet(p: Problem, q: Problem, ruleId: string, service: string)
    requires HasKey(p, ruleId, service) && HasKey(q, ruleId, service)
    ensures SameKey(p, q)
  {}

  // ----- an input that breaks uniqueness -----

  // Identities that tell all pairs apart.
  function PairId(s: string, m: string): string { Crosses(|s|) + ("y" + (s + m)) }

  function Crosses(n: nat): (r: string)
    ensures |r| == n && forall i :: 0 <= i < n ==> r[i] == 'x'
  {
    seq(n, i => 'x')
  }

  lemma PairIdInjective(s: string, m: string, s': string, m': string)
    requires PairId(s, m) == PairId(s', m')
    ensures s == s' && m == m'
  {
    var a, b := PairId(s, m), PairId(s', m');
    assert a[|s|] == 'y' && b[|s'|] == 'y';
    assert |s| == |s'|;
    assert a[|s| + 1..] == s + m && b[|s| + 1..] == s' + m';
    assert (s + m)[..|s|] == s && (s' + m')[..|s|] == s';
    assert (s + m)[|s|..] == m && (s' + m')[|s|..] == m';
  }

  const OLD_ROW := Problem("p1", MetricRule("s", "m"), "s", "m", false, "warning", Status.Open, 0, "")
  const NEW_ROW := Problem(PairId("s", "m"), MetricRule("s", "m"), "s", "m", false, "warning", Status.Open, 0, "")

  // One service and one metric, which is always anomalous.
  function AlwaysOpen(): Reads {
    Reads(["s"], ["m"], (s: string, m: string, hasOpen: bool) => Verdict.Open, (s: string, m: string) => false,
          (s: string) => false, false, (s: string, m: string) => "warning", (s: string, m: string) => "",
          (s: string, m: string) => true, (s: string, m: string) => false, None,
          (cl: Cluster, n: nat) => "", PairId, 0)
  }

  function SecondOpening(): Run {
    Run([], [], [], [], [], [Attempt(Write(OpenNew, NEW_ROW), true)])
  }

  lemma ExamplePending()
    ensures AllPending(AlwaysOpen(), []) == [Pending("s", "m", Verdict.Open)]
  {
    var r := AlwaysOpen();
    var row := RowOfPairs("s", ["m"]);
    assert row == [("s", "m")];
    assert r.services == ["s"] && ["s"][..0] == [];
    assert Pairs(["s"], ["m"]) == Pairs([], ["m"]) + row;
    assert PendingOn(r, [], "s", "m") == Some(Pending("s", "m", Verdict.Open));
    NothingCollected(PendingStep(r, []));
    CollectNext([], ("s", "m"), PendingStep(r, []));
    assert [] + [("s", "m")] == [("s", "m")];
  }

  lemma ExampleTick()
    ensures IsTick(AlwaysOpen(), [], SecondOpening())
    ensures AreClusters(SecondOpening().clusters, SecondOpening().Cands(AlwaysOpen(), []), AlwaysOpen())
  {
    var r, t := AlwaysOpen(), SecondOpening();
    var pa, f := Pending("s", "m", Verdict.Open), ApplyStep(r, [], t.Suppressed(), MergedIds(Flatten(t.blocks)));
    ExamplePending();
    assert f(pa) == Some(Write(OpenNew, NEW_ROW));
    NothingCollected(f);
    CollectNext([], pa, f);
    assert [] + [pa] == [pa];
    hide MetricRule, PairId, AllPending, MergedIds, AlwaysOpen;
  }

  lemma ExampleTable()
    ensures WellFormed(map["p1" := OLD_ROW]) && GoodReads(AlwaysOpen(), map["p1" := OLD_ROW])
  {
    MetricRuleIsNoCluster("s", "m");
    forall s, m
      ensures PairId(s, m) != "p1" && PairId(s, m) != "" && !(CLUSTER_PREFIX <= PairId(s, m))
    {
      assert PairId(s, m)[0] == 'x' || PairId(s, m)[0] == 'y';
    }
    forall s, m, s', m' | PairId(s, m) == PairId(s', m') ensures s == s' && m == m' {
      PairIdInjective(s, m, s', m');
    }
    hide PairId, MetricRule;
  }

  // A table with one open row, a read of it that fails, and a tick that stores
  // a second row of the same rule and service.
  lemma FailedSnapshotExample() returns (r: Reads, rows: map<string, Problem>, t: Run)
    ensures WellFormed(rows) && GoodReads(r, rows) && IsTick(r, [], t) && AreClusters(t.clusters, t.Cands(r, []), r)
    ensures ResolvesOnlyOpen(r) && (forall a :: a in t.All() ==> a.ok)
    ensures !UniqueActive(After(rows, t))
  {
    r, rows, t := AlwaysOpen(), map["p1" := OLD_ROW], SecondOpening();
    ExampleTable();
    ExampleTick();
    ExamplePending();
    ExampleFacts();
    hide *;
    FailedSnapshotDuplicates(r, rows, t, Pending("s", "m", Verdict.Open), "p1");
  }

  lemma ExampleFacts()
    ensures ResolvesOnlyOpen(AlwaysOpen()) && !AlwaysOpen().calendarMutes("s", "m")
    ensures SecondOpening().All() == SecondOpening().applied && "s" !in Grouped(SecondOpening().clusters)
    ensures forall a :: a in SecondOpening().applied ==> a.ok
    ensures HasKey(OLD_ROW, MetricRule("s", "m"), "s") && IsActive(OLD_ROW)
  {
    hide MetricRule;
  }
}
