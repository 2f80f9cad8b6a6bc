// Which causes are blamed, and in which order clusters are formed.
module ClusterLaws {
  import opened Problems
  import opened Sorting
  import opened Clustering
  import opened Detector

  // A blamed cause is another anomalous service, with a positive score that no
  // such cause of the service exceeds.
  lemma BlamedIsHighest(svc: string, source: string, inSet: set<string>, rank: string -> seq<Scored>)
    requires BlamesSource(svc, source, inSet, rank)
    ensures source != "" && source != svc && source in inSet
    ensures exists i :: 0 <= i < |rank(svc)| && rank(svc)[i].service == source && rank(svc)[i].score > 0.0
              && forall j :: 0 <= j < |rank(svc)| && rank(svc)[j].service in inSet && rank(svc)[j].service != svc ==>
                   rank(svc)[j].score <= rank(svc)[i].score
  {
    var scored := rank(svc);
    var score :| IsTopBlame(Some(Blame(source, score)), scored, svc, inSet);
    var k :| 0 <= k < |scored| && Eligible(scored[k], svc, inSet)
      && scored[k] == Scored(source, score) && IsFirstTop(scored, k, svc, inSet);
    forall j | 0 <= j < |scored| && scored[j].service in inSet && scored[j].service != svc
      ensures scored[j].score <= scored[k].score
    {
      assert scored[j].score > 0.0 ==> Eligible(scored[j], svc, inSet);
    }
  }

  // All services that blame a source.
  ghost function AllBlamers(source: string, inSet: set<string>, rank: string -> seq<Scored>): set<string> {
    set s | s in inSet && BlamesSource(s, source, inSet, rank)
  }

  lemma BlamersAre(blames: map<string, Blame>, inSet: set<string>, rank: string -> seq<Scored>, source: string)
    requires IsBlames(blames, inSet, rank)
    ensures Blamers(blames, source) == AllBlamers(source, inSet, rank)
  {
    forall s ensures s in Blamers(blames, source) <==> s in AllBlamers(source, inSet, rank) {
      if s in inSet {
        BlamesMeans(blames, inSet, rank, s, source);
      }
    }
  }

  ghost predicate Precedes(sources: seq<Source>, x: Source, y: Source) {
    exists a, b :: 0 <= a < b < |sources| && sources[a] == x && sources[b] == y
  }

  ghost predicate InOrder(sources: seq<Source>, picks: seq<Pick>) {
    forall i, j :: 0 <= i < j < |picks| ==> Precedes(sources, picks[i].source, picks[j].source)
  }

  lemma PrecedesNext(init: seq<Source>, last: Source, x: Source, y: Source)
    ensures Precedes(init, x, y) ==> Precedes(init + [last], x, y)
    ensures x in init ==> Precedes(init + [last], x, last)
  {
    var all := init + [last];
    if Precedes(init, x, y) {
      var a, b :| 0 <= a < b < |init| && init[a] == x && init[b] == y;
      assert all[a] == x && all[b] == y;
    }
    if x in init {
      var a :| 0 <= a < |init| && init[a] == x;
      assert all[a] == x && all[|init|] == last;
    }
  }

  ghost predicate From(sources: seq<Source>, picks: seq<Pick>) { forall p :: p in picks ==> p.source in sources }

  lemma OrderNext(init: seq<Source>, last: Source, before: seq<Pick>, after: seq<Pick>)
    requires InOrder(init, before) && From(init, before)
    requires after == before || (after != [] && after[..|after| - 1] == before && after[|after| - 1].source == last)
    ensures InOrder(init + [last], after) && From(init + [last], after)
  {
    hide Precedes;
    forall i, j | 0 <= i < j < |after| ensures Precedes(init + [last], after[i].source, after[j].source) {
      assert after[i] == before[i] && before[i] in before;
      PrecedesNext(init, last, after[i].source, after[j].source);
    }
    forall p | p in after ensures p.source in init + [last] {
      assert p in before || p.source == last;
    }
  }

  lemma {:induction false} PicksInOrder(sources: seq<Source>, blames: map<string, Blame>, min: int)
    ensures InOrder(sources, Greedy(sources, blames, min).picks)
    ensures From(sources, Greedy(sources, blames, min).picks)
  {
    if sources == [] {
      hide Precedes, PackNext;
    } else {
      hide *;
      var init, last := sources[..|sources| - 1], sources[|sources| - 1];
      PicksInOrder(init, blames, min);
      GreedyNext(sources, blames, min);
      assert sources == init + [last];
      OrderNext(init, last, Greedy(init, blames, min).picks, Greedy(sources, blames, min).picks);
    }
  }

  lemma GreedyNext(sources: seq<Source>, blames: map<string, Blame>, min: int)
    requires sources != []
    ensures var init, last := sources[..|sources| - 1], sources[|sources| - 1];
            var before, after := Greedy(init, blames, min).picks, Greedy(sources, blames, min).picks;
            || after == before
            || (after != [] && after[..|after| - 1] == before && after[|after| - 1].source == last)
  {
    hide Blamers;
  }

  // Clusters come in the order of how many services blame their source, and with
  // as many in the order of the blame they add up to.
  lemma MostBlamedFirst(cands: seq<Candidate>, rank: string -> seq<Scored>, min: int, out: seq<Cluster>, i: nat, j: nat)
    requires IsClustering(cands, rank, min, out) && i < j < |out|
    ensures var a := AllBlamers(out[i].source, Services(cands), rank);
            var b := AllBlamers(out[j].source, Services(cands), rank);
            |a| > |b| || (|a| == |b| && out[i].score >= out[j].score)
  {
    assert min >= 2 && |cands| >= min;
    var blames, sources := Unfold(cands, rank, min, out);
    var picks := Greedy(sources, blames, min).picks;
    BlamersAre(blames, Services(cands), rank, out[i].source);
    BlamersAre(blames, Services(cands), rank, out[j].source);
    PicksInOrder(sources, blames, min);
    ClusterOfPick(out, picks, cands, i);
    ClusterOfPick(out, picks, cands, j);
    hide *;
    InOrderIs(sources, picks, i, j);
    var a, b := PlacesOf(sources, picks[i].source, picks[j].source);
    RankedSources(sources, blames, Services(cands), min, a, b);
  }

  lemma InOrderIs(sources: seq<Source>, picks: seq<Pick>, i: nat, j: nat)
    requires InOrder(sources, picks) && i < j < |picks|
    ensures Precedes(sources, picks[i].source, picks[j].source)
  {
    hide Precedes;
  }

  lemma PlacesOf(sources: seq<Source>, x: Source, y: Source) returns (a: nat, b: nat)
    requires Precedes(sources, x, y)
    ensures a < b < |sources| && sources[a] == x && sources[b] == y
  {
    a, b :| 0 <= a < b < |sources| && sources[a] == x && sources[b] == y;
  }

  lemma ClusterOfPick(out: seq<Cluster>, picks: seq<Pick>, cands: seq<Candidate>, i: nat)
    requires AreClustersOf(out, picks, cands) && i < |out|
    ensures i < |picks| && out[i].source == picks[i].source.name && out[i].score == picks[i].source.score
  {
    hide Carried, SortedBy;
    assert IsClusterOf(out[i], picks[i], cands);
  }

  lemma RankedSources(
    sources: seq<Source>, blames: map<string, Blame>, inSet: set<string>, min: int, a: nat, b: nat)
    requires IsRanking(sources, blames, inSet, min) && a < b < |sources|
    ensures var x, y := |Blamers(blames, sources[a].name)|, |Blamers(blames, sources[b].name)|;
            x > y || (x == y && sources[a].score >= sources[b].score)
  {
    hide Blamers, LargeSources, ScoreSum;
    assert !SourceBefore(sources[b], sources[a]);
    assert sources[a] == SourceOf(blames, sources[a].name) && sources[b] == SourceOf(blames, sources[b].name);
  }

  // The clusters of a tick hold at least three services each.
  lemma ClustersAreThree(clusters: seq<Cluster>, cands: seq<Candidate>, r: Reads, k: nat)
    requires AreClusters(clusters, cands, r) && k < |clusters|
    ensures |ClusterServices(clusters[k])| >= 3
  {
    hide IsClustering, ClusterServices;
    ClustersAreAPacking(cands, r.adjacency.value, MIN_MEMBERS, clusters);
    assert GoodCluster(clusters[k], cands, r.adjacency.value, MIN_MEMBERS);
  }
}
