// Three services that go wrong together, and a store that refuses the row of
// their cluster.
module RefusedCluster {
  import opened Problems
  import opened Sorting
  import opened Collecting
  import opened Clustering
  import opened Detector
  import opened DetectorSafety
  import opened NewVerdicts

  // Services a and b blame service d.
  function BlamesD(s: string): seq<Scored> { if s == "d" then [] else [Scored("d", 1.0)] }

  function Incident(): Reads { AlwaysOpen().(services := ["a", "b", "d"], adjacency := Some(BlamesD)) }

  function Opening(s: string): Pending { Pending(s, "m", Verdict.Open) }

  function Fresh(s: string): Candidate { Candidate(s, "m", "warning", None) }

  function Cands(): seq<Candidate> { [Fresh("a"), Fresh("b"), Fresh("d")] }

  function TheCluster(): Cluster { Cluster("d", 2.0, [Fresh("a"), Fresh("b")]) }

  function ClusterRowOf(): Problem {
    Problem(ClusterId("d"), ClusterId("d"), "d", "cluster", false, "warning", Status.Open, 0, "")
  }

  function Refused(): seq<Attempt> { [Attempt(Write(ClusterWrite, ClusterRowOf()), false)] }

  function RefusedRun(): Run { Run([], [TheCluster()], [], [Refused()], [], []) }

  // ----- verdicts and candidates -----

  lemma CollectThree<A, B>(x: A, y: A, z: A, f: A -> Option<B>)
    ensures Collect([x, y, z], f) == Collect([x], f) + Collect([y], f) + Collect([z], f)
  {
    assert [x, y, z] == [x] + [y] + [z];
    CollectConcat([x] + [y], [z], f);
    CollectConcat([x], [y], f);
  }

  lemma CollectOne<A, B>(x: A, f: A -> Option<B>)
    ensures Collect([x], f) == match f(x) case None => [] case Some(y) => [y]
  {
    NothingCollected(f);
    CollectNext([], x, f);
    assert [] + [x] == [x];
  }

  lemma IncidentPairs()
    ensures Pairs(["a", "b", "d"], ["m"]) == [("a", "m"), ("b", "m"), ("d", "m")]
  {
    assert RowOfPairs("a", ["m"]) == [("a", "m")] && RowOfPairs("b", ["m"]) == [("b", "m")]
        && RowOfPairs("d", ["m"]) == [("d", "m")];
    hide RowOfPairs;
    var all := ["a", "b", "d"];
    assert all[..0] == [] && all[..1] == ["a"] && all[..2] == ["a", "b"] && all[..3] == all;
    NoPairs(["m"]);
    PairsStep(all, 0, ["m"]);
    PairsStep(all, 1, ["m"]);
    PairsStep(all, 2, ["m"]);
  }

  lemma IncidentPending()
    ensures AllPending(Incident(), []) == [Opening("a"), Opening("b"), Opening("d")]
  {
    var r := Incident();
    var f := PendingStep(r, []);
    IncidentPairs();
    forall s: string ensures f((s, "m")) == Some(Opening(s)) {
      assert Existing([], s, "m").None?;
    }
    IsAllPending(r, []);
    assert r.services == ["a", "b", "d"] && r.tracked == ["m"];
    hide *;
    CollectThree(("a", "m"), ("b", "m"), ("d", "m"), f);
    CollectOne(("a", "m"), f);
    CollectOne(("b", "m"), f);
    CollectOne(("d", "m"), f);
  }

  lemma FreshOf(s: string)
    ensures FreshStep(Incident(), [])(Opening(s)) == Some(Fresh(s))
  {
    assert Existing([], s, "m").None?;
    hide Existing;
  }

  lemma FreshOpensAre(r: Reads)
    ensures FreshOpens(r, []) == Collect(AllPending(r, []), FreshStep(r, []))
  {}

  lemma CandsAre()
    ensures Cands() == [Fresh("a")] + [Fresh("b")] + [Fresh("d")]
  {}

  lemma IncidentCands()
    ensures FreshOpens(Incident(), []) == Cands()
  {
    hide *;
    var f := FreshStep(Incident(), []);
    IncidentPending();
    FreshOpensAre(Incident());
    FreshOf("a");
    FreshOf("b");
    FreshOf("d");
    CollectThree(Opening("a"), Opening("b"), Opening("d"), f);
    CollectOne(Opening("a"), f);
    CollectOne(Opening("b"), f);
    CollectOne(Opening("d"), f);
    CandsAre();
  }

  // ----- the clustering -----

  const BLAMES := map["a" := Blame("d", 1.0), "b" := Blame("d", 1.0)]

  lemma IncidentServices()
    ensures Services(Cands()) == {"a", "b", "d"} && |Cands()| == 3
  {
    var cands := Cands();
    assert cands[0] in cands && cands[1] in cands && cands[2] in cands;
  }

  lemma IncidentBlames()
    ensures IsBlames(BLAMES, {"a", "b", "d"}, BlamesD)
  {
    var inSet := {"a", "b", "d"};
    forall svc | svc in {"a", "b"} ensures IsTopBlame(Some(Blame("d", 1.0)), BlamesD(svc), svc, inSet) {
      assert BlamesD(svc)[0] == Scored("d", 1.0) && Eligible(BlamesD(svc)[0], svc, inSet);
      assert IsFirstTop(BlamesD(svc), 0, svc, inSet);
    }
    assert IsTopBlame(None, BlamesD("d"), "d", inSet);
  }

  lemma BlamersOfD()
    ensures Blamers(BLAMES, "d") == {"a", "b"} && Blamers(BLAMES, "a") == {} && Blamers(BLAMES, "b") == {}
    ensures |Blamers(BLAMES, "d")| == 2 && ScoreSum(BLAMES, {"a", "b"}) == 2.0
  {
    assert Blamers(BLAMES, "d") == {"a", "b"};
    ScoreSumSplit(BLAMES, {"a", "b"}, "a");
    assert {"a", "b"} - {"a"} == {"b"};
    ScoreSumSplit(BLAMES, {"b"}, "b");
    assert {"b"} - {"b"} == {};
  }

  lemma IncidentRanking()
    ensures IsRanking([Source("d", 2, 2.0)], BLAMES, {"a", "b", "d"}, 3)
  {
    BlamersOfD();
    assert LargeSources(BLAMES, {"a", "b", "d"}, 3) == {"d"} by {
      hide Blamers;
    }
    hide Blamers, LargeSources, ScoreSum;
    assert SourceOf(BLAMES, "d") == Source("d", 2, 2.0);
  }

  lemma IncidentPicks()
    ensures Greedy([Source("d", 2, 2.0)], BLAMES, 3).picks == [Pick(Source("d", 2, 2.0), {"a", "b"})]
  {
    var source := Source("d", 2, 2.0);
    BlamersOfD();
    assert [source][..0] == [];
    assert Greedy([], BLAMES, 3) == Packing({}, []);
    hide Blamers;
    assert {"a", "b"} - {} == {"a", "b"} && [] + [Pick(source, {"a", "b"})] == [Pick(source, {"a", "b"})];
  }

  lemma IncidentMembers()
    ensures Carried(Cands(), {"a", "b"}) == [Fresh("a"), Fresh("b")]
    ensures SortedBy([Fresh("a"), Fresh("b")], MemberBefore)
  {
    var a, b, d := Fresh("a"), Fresh("b"), Fresh("d");
    assert [a, b, d][1..] == [b, d] && [b, d][1..] == [d] && [d][1..] == [];
    assert Carried([d], {"a", "b"}) == [];
    assert Carried([b, d], {"a", "b"}) == [b];
    assert !MemberBefore(b, a);
  }

  lemma IncidentClusters()
    ensures AreClusters([TheCluster()], Cands(), Incident())
  {
    IncidentServices();
    IncidentBlames();
    IncidentRanking();
    IncidentPicks();
    IncidentMembers();
    assert Incident().adjacency == Some(BlamesD);
    hide *;
    OneCluster();
    Clustered(Cands(), BlamesD, [TheCluster()], BLAMES, [Source("d", 2, 2.0)]);
    AreThem(Cands(), [TheCluster()], Incident());
  }

  lemma OneCluster()
    requires Carried(Cands(), {"a", "b"}) == [Fresh("a"), Fresh("b")]
    requires SortedBy([Fresh("a"), Fresh("b")], MemberBefore)
    ensures AreClustersOf([TheCluster()], [Pick(Source("d", 2, 2.0), {"a", "b"})], Cands())
  {
    hide Carried, SortedBy, Cands, Fresh;
  }

  lemma Clustered(
    cands: seq<Candidate>, rank: string -> seq<Scored>, out: seq<Cluster>, blames: map<string, Blame>,
    sources: seq<Source>)
    requires |cands| == 3 && IsBlames(blames, Services(cands), rank) && IsRanking(sources, blames, Services(cands), 3)
    requires AreClustersOf(out, Greedy(sources, blames, 3).picks, cands)
    ensures IsClustering(cands, rank, MIN_MEMBERS, out)
  {
    hide IsBlames, IsRanking, Greedy, AreClustersOf, Services;
  }

  lemma AreThem(cands: seq<Candidate>, out: seq<Cluster>, r: Reads)
    requires r.adjacency.Some? && IsClustering(cands, r.adjacency.value, MIN_MEMBERS, out)
    ensures AreClusters(out, cands, r)
  {
    hide IsClustering;
  }

  lemma IncidentFits()
    ensures ClustersFit([TheCluster()], Cands())
    ensures ClusterServices(TheCluster()) == {"a", "b", "d"}
  {
    IncidentServices();
    var cl := TheCluster();
    assert [cl][..0] == [] && Grouped([]) == {};
    assert ClustersFit([], Cands());
    assert cl.members[0] in cl.members && cl.members[1] in cl.members;
    hide Services;
    assert Elements(cl.members) <= Elements(Cands());
  }

  // ----- the tick -----

  lemma {:induction false} NoRows(cands: seq<Candidate>)
    requires forall c :: c in cands ==> c.existing.None?
    ensures RowsOf(cands) == []
  {
    if cands != [] {
      assert forall c :: c in cands[..|cands| - 1] ==> c in cands;
      NoRows(cands[..|cands| - 1]);
      assert cands[|cands| - 1] in cands;
    }
  }

  lemma NoTargets()
    ensures TargetsOf(TheCluster(), Cands()) == []
  {
    var cl := TheCluster();
    forall c | c in cl.members + SourceCandidates(cl.source, Cands()) ensures c.existing.None? {
      if c !in cl.members {
        var x := CollectSource(Cands(), (c: Candidate) => if c.service == cl.source then Some(c) else None, c);
      }
    }
    hide SourceCandidates;
    NoRows(cl.members + SourceCandidates(cl.source, Cands()));
    hide RowsOf;
  }

  lemma NotCritical()
    ensures !IsCritical("d", Incident(), [], [])
  {
    hide AllPending;
  }

  lemma RefusedRow()
    ensures IsClusterRow(ClusterRowOf(), TheCluster(), [], false, Incident(), [])
  {
    assert Named(ById([], ClusterId("d"))).None?;
    assert forall m :: m in TheCluster().members ==> m == Fresh("a") || m == Fresh("b");
    assert IsClusterStart(0, 0, []);
    hide ClusterId, ById, IsClusterStart;
  }

  lemma RefusedBlock()
    ensures IsBlock(Refused(), TheCluster(), [], false, Incident(), [])
  {
    RefusedRow();
    hide IsClusterRow, TheCluster, Incident, ClusterRowOf;
  }

  lemma OneBlock(
    block: seq<Attempt>, cl: Cluster, joined: seq<Candidate>, r: Reads, snap: seq<Problem>)
    requires HasBlock(block, cl, joined, r, snap)
    ensures HaveBlocks([block], [cl], joined, r, snap)
  {
    hide HasBlock;
    assert [block][..0] == [] && [cl][..0] == [];
  }

  lemma TheBlock()
    ensures HaveBlocks([Refused()], [TheCluster()], [], Incident(), [])
  {
    IncidentCands();
    NoTargets();
    NotCritical();
    RefusedBlock();
    assert TheCluster().source == "d";
    assert HasBlock(Refused(), TheCluster(), [], Incident(), []) by {
      hide IsBlock, FreshOpens, Cands, TargetsOf, IsCritical, Refused, TheCluster, Incident;
      assert Cands() + [] == Cands();
    }
    hide *;
    OneBlock(Refused(), TheCluster(), [], Incident(), []);
  }

  lemma AllSuppressed()
    ensures var f := ApplyStep(Incident(), [], Grouped([TheCluster()]), MergedIds(Flatten([Refused()])));
            Collect(AllPending(Incident(), []), f) == []
  {
    var r, suppressed, merged := Incident(), Grouped([TheCluster()]), MergedIds(Flatten([Refused()]));
    var f := ApplyStep(r, [], suppressed, merged);
    IncidentPending();
    IncidentFits();
    assert {"a", "b", "d"} <= suppressed by {
      hide ClusterServices, TheCluster;
      assert [TheCluster()][0] == TheCluster();
    }
    hide Grouped, MergedIds, AllPending, Incident, TheCluster;
    forall s: string | s in {"a", "b", "d"} ensures f(Opening(s)) == None {
      assert Existing([], s, "m").None?;
    }
    hide ApplyStep, Opening;
    CollectThree(Opening("a"), Opening("b"), Opening("d"), f);
    CollectOne(Opening("a"), f);
    CollectOne(Opening("b"), f);
    CollectOne(Opening("d"), f);
  }

  lemma NothingElse()
    ensures AreRecent([], Incident(), [], Resolving(Incident(), [])) && BatchWrites(Incident(), []) == []
    ensures Collect([], StaleStep(Anomalous(Incident(), [], []))) == []
  {
    hide AllPending, ResolvedKeys, Anomalous;
  }

  lemma RefusedTick()
    ensures IsTick(Incident(), [], RefusedRun())
    ensures AreClusters(RefusedRun().clusters, RefusedRun().Cands(Incident(), []), Incident())
  {
    IncidentCands();
    IncidentFits();
    IncidentClusters();
    TheBlock();
    AllSuppressed();
    NothingElse();
    NoWrites();
    RunIs();
    hide *;
    TickFormed(Incident(), [], RefusedRun());
  }

  lemma RunIs()
    ensures var t := RefusedRun();
            && t.joined == [] && t.clusters == [TheCluster()] && t.blocks == [Refused()]
            && t.batch == [] && t.stale == [] && t.applied == []
    ensures Cands() + [] == Cands()
  {}

  lemma IncidentReads()
    ensures GoodReads(Incident(), map[]) && WellFormed(map[]) && ResolvesOnlyOpen(Incident())
  {
    ExampleTable();
    EmptyTable();
    SameIds(AlwaysOpen(), Incident(), map["p1" := OLD_ROW]);
    hide FreshIds, PairId;
  }

  lemma SameIds(r: Reads, r': Reads, rows: map<string, Problem>)
    requires FreshIds(r, rows) && r'.newId == r.newId
    ensures FreshIds(r', map[])
  {}

  // Three services open at once, two of them blame the third, and the store
  // refuses the row of their cluster: all three verdicts are suppressed and the
  // table is as empty after the tick as before.
  lemma RefusedClusterExample() returns (r: Reads, t: Run)
    ensures WellFormed(map[]) && GoodReads(r, map[]) && ResolvesOnlyOpen(r) && IsSnapshot([], map[])
    ensures IsTick(r, [], t) && AreClusters(t.clusters, t.Cands(r, []), r)
    ensures |AllPending(r, [])| == 3 && forall pa :: pa in AllPending(r, []) ==>
              pa.outcome == Verdict.Open && !r.calendarMutes(pa.service, pa.metric) && pa.service in Grouped(t.clusters)
    ensures |t.blocks| == 1 && |t.blocks[0]| == 1 && !t.blocks[0][0].ok
    ensures After(map[], t) == map[]
  {
    r, t := Incident(), RefusedRun();
    IncidentReads();
    RefusedTick();
    IncidentPending();
    AllGrouped();
    NothingAfter();
    hide WellFormed, GoodReads, ResolvesOnlyOpen, IsTick, AreClusters, AllPending, After;
  }

  lemma AllGrouped()
    ensures Grouped([TheCluster()]) == {"a", "b", "d"}
  {
    IncidentFits();
    hide ClusterServices, TheCluster;
    assert [TheCluster()][0] == TheCluster();
  }

  lemma NothingAfter()
    ensures After(map[], RefusedRun()) == map[]
  {
    var run := Refused();
    assert [Refused()][..0] == [] && Flatten([]) == [];
    assert Flatten([Refused()]) == Refused();
    assert RefusedRun().All() == Refused();
    assert run[..0] == [];
    assert Replay(map[], run) == Replay(map[], run[..0]);
  }
}
