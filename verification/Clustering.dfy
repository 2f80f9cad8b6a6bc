// Folding the anomalies of one incident into clusters rooted at the services
// their members blame. Ranges over Go maps are loops over sets here, which
// take the elements in an arbitrary order.
module Clustering {
  import opened Problems
  import opened Sorting
  import opened Collecting

  // A (service, metric) that is anomalous now; existing is its row when it was
  // opened by an earlier tick.
  datatype Candidate = Candidate(service: string, metric: string, severity: string, existing: Option<Problem>)

  // A scored root cause of some service.
  datatype Scored = Scored(service: string, score: real)

  datatype Blame = Blame(source: string, score: real)

  datatype Cluster = Cluster(source: string, score: real, members: seq<Candidate>)

  function Services(cands: seq<Candidate>): set<string> {
    set c | c in cands :: c.service
  }

  // ----- whom a service blames -----

  predicate Eligible(sc: Scored, svc: string, inSet: set<string>) {
    sc.score > 0.0 && sc.service != svc && sc.service in inSet
  }

  // b is the first of the highest-scored eligible causes among scored. A cause
  // without a name counts as none.
  ghost predicate IsTopBlame(b: Option<Blame>, scored: seq<Scored>, svc: string, inSet: set<string>) {
    match b
    case None =>
      || (forall i :: 0 <= i < |scored| ==> !Eligible(scored[i], svc, inSet))
      || (exists k :: 0 <= k < |scored| && Eligible(scored[k], svc, inSet)
           && scored[k].service == "" && IsFirstTop(scored, k, svc, inSet))
    case Some(Blame(source, score)) =>
      && source != ""
      && (exists k :: 0 <= k < |scored| && Eligible(scored[k], svc, inSet)
           && scored[k] == Scored(source, score) && IsFirstTop(scored, k, svc, inSet))
  }

  ghost predicate IsFirstTop(scored: seq<Scored>, k: nat, svc: string, inSet: set<string>)
    requires k < |scored|
  {
    forall j :: 0 <= j < |scored| && Eligible(scored[j], svc, inSet) ==>
      if j < k then scored[j].score < scored[k].score else scored[j].score <= scored[k].score
  }

  lemma TopBlameUnique(a: Option<Blame>, b: Option<Blame>, scored: seq<Scored>, svc: string, inSet: set<string>)
    requires IsTopBlame(a, scored, svc, inSet) && IsTopBlame(b, scored, svc, inSet)
    ensures a == b
  {
    if a.Some? {
      var i :| 0 <= i < |scored| && Eligible(scored[i], svc, inSet)
        && scored[i] == Scored(a.value.source, a.value.score) && IsFirstTop(scored, i, svc, inSet);
      OneFirstTop(scored, i, svc, inSet);
    } else if b.Some? {
      var j :| 0 <= j < |scored| && Eligible(scored[j], svc, inSet)
        && scored[j] == Scored(b.value.source, b.value.score) && IsFirstTop(scored, j, svc, inSet);
      OneFirstTop(scored, j, svc, inSet);
    }
  }

  lemma OneFirstTop(scored: seq<Scored>, k: nat, svc: string, inSet: set<string>)
    requires k < |scored| && Eligible(scored[k], svc, inSet) && IsFirstTop(scored, k, svc, inSet)
    ensures forall j :: 0 <= j < |scored| && Eligible(scored[j], svc, inSet) && IsFirstTop(scored, j, svc, inSet) ==>
              j == k
  {}

  method TopBlame(scored: seq<Scored>, svc: string, inSet: set<string>) returns (b: Option<Blame>)
    ensures IsTopBlame(b, scored, svc, inSet)
  {
    b := None;
    ghost var at := 0;
    var i := 0;
    while i < |scored|
      invariant 0 <= i <= |scored|
      invariant b.None? ==> forall j :: 0 <= j < i ==> !Eligible(scored[j], svc, inSet)
      invariant b.Some? ==> 0 <= at < i && Eligible(scored[at], svc, inSet)
                            && scored[at] == Scored(b.value.source, b.value.score)
      invariant b.Some? ==> forall j :: 0 <= j < i && Eligible(scored[j], svc, inSet) ==>
        if j < at then scored[j].score < scored[at].score else scored[j].score <= scored[at].score
    {
      var sc := scored[i];
      if sc.score > 0.0 && sc.service != svc && sc.service in inSet {
        if b.None? || sc.score > b.value.score {
          b := Some(Blame(sc.service, sc.score));
          at := i;
        }
      }
      i := i + 1;
    }
    assert b.Some? ==> IsFirstTop(scored, at, svc, inSet);
    if b.Some? && b.value.source == "" {
      b := None;
    }
  }

  // blames holds, for every service of the set that blames some other one, its top blame.
  ghost predicate IsBlames(blames: map<string, Blame>, inSet: set<string>, rank: string -> seq<Scored>) {
    && blames.Keys <= inSet
    && forall svc :: svc in inSet ==>
         IsTopBlame(if svc in blames then Some(blames[svc]) else None, rank(svc), svc, inSet)
  }

  lemma BlamesUnique(a: map<string, Blame>, b: map<string, Blame>, inSet: set<string>, rank: string -> seq<Scored>)
    requires IsBlames(a, inSet, rank) && IsBlames(b, inSet, rank)
    ensures a == b
  {
    forall svc | svc in inSet
      ensures (svc in a <==> svc in b) && (svc in a && svc in b ==> a[svc] == b[svc])
    {
      TopBlameUnique(if svc in a then Some(a[svc]) else None, if svc in b then Some(b[svc]) else None,
                     rank(svc), svc, inSet);
    }
  }

  method CollectBlames(inSet: set<string>, rank: string -> seq<Scored>) returns (blames: map<string, Blame>)
    ensures IsBlames(blames, inSet, rank)
  {
    blames := map[];
    var todo := inSet;
    while todo != {}
      invariant todo <= inSet && blames.Keys <= inSet - todo
      invariant forall svc :: svc in inSet - todo ==>
        IsTopBlame(if svc in blames then Some(blames[svc]) else None, rank(svc), svc, inSet)
      decreases todo
    {
      var svc :| svc in todo;
      var b := TopBlame(rank(svc), svc, inSet);
      if b.Some? {
        blames := blames[svc := b.value];
      }
      todo := todo - {svc};
    }
  }

  // ----- grouping by source -----

  ghost function Blamers(blames: map<string, Blame>, source: string): set<string> {
    set s | s in blames && blames[s].source == source
  }

  ghost function ScoreSum(blames: map<string, Blame>, services: set<string>): real
    requires services <= blames.Keys
  {
    if services == {} then 0.0
    else
      var s :| s in services;
      blames[s].score + ScoreSum(blames, services - {s})
  }

  lemma {:induction false} ScoreSumSplit(blames: map<string, Blame>, services: set<string>, s: string)
    requires services <= blames.Keys && s in services
    ensures ScoreSum(blames, services) == blames[s].score + ScoreSum(blames, services - {s})
    decreases services
  {
    var t :| t in services && ScoreSum(blames, services) == blames[t].score + ScoreSum(blames, services - {t});
    if t != s {
      ScoreSumSplit(blames, services - {t}, s);
      ScoreSumSplit(blames, services - {s}, t);
      assert services - {t} - {s} == services - {s} - {t};
    }
  }

  lemma {:induction false} ScoreSumAgrees(a: map<string, Blame>, b: map<string, Blame>, services: set<string>)
    requires services <= a.Keys && services <= b.Keys
    requires forall s :: s in services ==> a[s] == b[s]
    ensures ScoreSum(a, services) == ScoreSum(b, services)
    decreases services
  {
    if services != {} {
      var s :| s in services;
      ScoreSumSplit(a, services, s);
      ScoreSumSplit(b, services, s);
      ScoreSumAgrees(a, b, services - {s});
    }
  }

  // bySource and scoreSum index blames by source.
  ghost predicate IsIndex(blames: map<string, Blame>, bySource: map<string, seq<string>>, scoreSum: map<string, real>) {
    bySource.Keys == scoreSum.Keys && forall src :: IndexedAt(blames, bySource, scoreSum, src)
  }

  ghost predicate IndexedAt(
    blames: map<string, Blame>, bySource: map<string, seq<string>>, scoreSum: map<string, real>, src: string)
    requires bySource.Keys == scoreSum.Keys
  {
    if src in bySource then
      && bySource[src] != [] && NoRepeats(bySource[src]) && Elements(bySource[src]) == Blamers(blames, src)
      && scoreSum[src] == ScoreSum(blames, Blamers(blames, src))
    else Blamers(blames, src) == {}
  }

  lemma IndexGrowsAt(
    seen: map<string, Blame>, bySource: map<string, seq<string>>, scoreSum: map<string, real>,
    svc: string, b: Blame, list: seq<string>, sum: real)
    requires bySource.Keys == scoreSum.Keys && IndexedAt(seen, bySource, scoreSum, b.source) && svc !in seen
    requires list == if b.source in bySource then bySource[b.source] else []
    requires sum == if b.source in scoreSum then scoreSum[b.source] else 0.0
    ensures IndexedAt(seen[svc := b], bySource[b.source := list + [svc]], scoreSum[b.source := sum + b.score], b.source)
  {
    var next, was := seen[svc := b], Blamers(seen, b.source);
    assert Blamers(next, b.source) == was + {svc};
    assert Elements(list) == was;
    assert Elements(list + [svc]) == Elements(list) + {svc};
    assert svc !in list by { assert svc !in Elements(list); }
    assert sum == ScoreSum(seen, was);
    hide Blamers;
    assert was <= seen.Keys;
    ScoreSumSplit(next, was + {svc}, svc);
    assert was + {svc} - {svc} == was;
    ScoreSumAgrees(next, seen, was);
  }

  lemma IndexKept(
    seen: map<string, Blame>, bySource: map<string, seq<string>>, scoreSum: map<string, real>,
    svc: string, b: Blame, list: seq<string>, sum: real, src: string)
    requires bySource.Keys == scoreSum.Keys && IndexedAt(seen, bySource, scoreSum, src) && svc !in seen
    requires src != b.source
    ensures IndexedAt(seen[svc := b], bySource[b.source := list], scoreSum[b.source := sum], src)
  {
    var next := seen[svc := b];
    assert Blamers(next, src) == Blamers(seen, src);
    ScoreSumAgrees(next, seen, Blamers(seen, src));
  }

  lemma IndexGrows(
    seen: map<string, Blame>, bySource: map<string, seq<string>>, scoreSum: map<string, real>,
    svc: string, b: Blame, list: seq<string>, sum: real)
    requires IsIndex(seen, bySource, scoreSum) && svc !in seen
    requires list == if b.source in bySource then bySource[b.source] else []
    requires sum == if b.source in scoreSum then scoreSum[b.source] else 0.0
    ensures IsIndex(seen[svc := b], bySource[b.source := list + [svc]], scoreSum[b.source := sum + b.score])
  {
    hide IndexedAt;
    var seen', bySource' := seen[svc := b], bySource[b.source := list + [svc]];
    var scoreSum' := scoreSum[b.source := sum + b.score];
    forall src ensures IndexedAt(seen', bySource', scoreSum', src) {
      if src == b.source {
        IndexGrowsAt(seen, bySource, scoreSum, svc, b, list, sum);
      } else {
        IndexKept(seen, bySource, scoreSum, svc, b, list + [svc], sum + b.score, src);
      }
    }
  }

  lemma IndexFacts(blames: map<string, Blame>, bySource: map<string, seq<string>>, scoreSum: map<string, real>)
    requires IsIndex(blames, bySource, scoreSum)
    ensures forall src :: src in bySource <==> Blamers(blames, src) != {}
    ensures forall src :: src in bySource ==>
              NoRepeats(bySource[src]) && Elements(bySource[src]) == Blamers(blames, src)
    ensures forall src :: src in bySource ==> src in scoreSum && scoreSum[src] == ScoreSum(blames, Blamers(blames, src))
  {
    forall src | src in bySource
      ensures NoRepeats(bySource[src]) && Elements(bySource[src]) == Blamers(blames, src) != {}
      ensures scoreSum[src] == ScoreSum(blames, Blamers(blames, src))
    {
      assert IndexedAt(blames, bySource, scoreSum, src);
      assert bySource[src][0] in Elements(bySource[src]);
    }
    forall src | src !in bySource ensures Blamers(blames, src) == {} {
      assert IndexedAt(blames, bySource, scoreSum, src);
    }
  }

  method IndexBySource(blames: map<string, Blame>)
    returns (bySource: map<string, seq<string>>, scoreSum: map<string, real>)
    ensures IsIndex(blames, bySource, scoreSum)
  {
    bySource, scoreSum := map[], map[];
    var todo := blames.Keys;
    ghost var seen: map<string, Blame> := map[];
    assert IsIndex(seen, bySource, scoreSum);
    hide IsIndex;
    while todo != {}
      invariant todo <= blames.Keys && seen.Keys == blames.Keys - todo
      invariant forall s :: s in seen ==> seen[s] == blames[s]
      invariant bySource.Keys == scoreSum.Keys
      invariant IsIndex(seen, bySource, scoreSum)
      decreases todo
    {
      var svc :| svc in todo;
      var b := blames[svc];
      var list := if b.source in bySource then bySource[b.source] else [];
      var sum := if b.source in scoreSum then scoreSum[b.source] else 0.0;
      IndexGrows(seen, bySource, scoreSum, svc, b, list, sum);
      bySource := bySource[b.source := list + [svc]];
      scoreSum := scoreSum[b.source := sum + b.score];
      seen := seen[svc := b];
      todo := todo - {svc};
    }
    assert seen == blames;
  }

  // ----- ranking the sources -----

  datatype Source = Source(name: string, count: nat, score: real)

  // More blamers first, then the higher score, then the name.
  predicate SourceBefore(a: Source, b: Source) {
    if a.count != b.count then a.count > b.count
    else if a.score != b.score then a.score > b.score
    else StringLess(a.name, b.name)
  }

  predicate MemberBefore(a: Candidate, b: Candidate) {
    if a.service != b.service then StringLess(a.service, b.service) else StringLess(a.metric, b.metric)
  }

  lemma SourceOrder()
    ensures WeakOrder(SourceBefore)
    ensures forall a: Source, b: Source :: a.name != b.name ==> SourceBefore(a, b) || SourceBefore(b, a)
  {
    StringOrder();
  }

  lemma MemberOrder()
    ensures WeakOrder(MemberBefore)
  {
    StringOrder();
  }

  // The sources that could still form a cluster.
  ghost function LargeSources(blames: map<string, Blame>, inSet: set<string>, min: int): set<string> {
    set src | src in inSet && Blamers(blames, src) != {} && 1 + |Blamers(blames, src)| >= min
  }

  ghost function SourceOf(blames: map<string, Blame>, src: string): Source {
    Source(src, |Blamers(blames, src)|, ScoreSum(blames, Blamers(blames, src)))
  }

  ghost predicate IsRanking(sources: seq<Source>, blames: map<string, Blame>, inSet: set<string>, min: int) {
    && SortedBy(sources, SourceBefore)
    && Lists(sources, blames, LargeSources(blames, inSet, min))
  }

  // sources lists each of the given names once, with its count and score.
  ghost predicate Lists(sources: seq<Source>, blames: map<string, Blame>, names: set<string>) {
    && (forall i, j :: 0 <= i < j < |sources| ==> sources[i].name != sources[j].name)
    && (forall i :: 0 <= i < |sources| ==> sources[i].name in names && sources[i] == SourceOf(blames, sources[i].name))
    && (forall src :: src in names ==> SourceOf(blames, src) in sources)
  }

  lemma {:induction false} ListsPermute(a: seq<Source>, b: seq<Source>, blames: map<string, Blame>, names: set<string>)
    requires Lists(a, blames, names) && Lists(b, blames, names)
    ensures multiset(a) == multiset(b)
  {
    assert NoRepeats(a) && NoRepeats(b);
    PermutesWithoutRepeats(a, b);
  }

  lemma ListsSorted(a: seq<Source>, b: seq<Source>, blames: map<string, Blame>, names: set<string>)
    requires Lists(a, blames, names) && multiset(a) == multiset(b)
    ensures Lists(b, blames, names)
  {
    SameElements(a, b);
    NamesApart(a, b, blames);
    hide SourceOf;
    forall i | 0 <= i < |b| ensures b[i].name in names && b[i] == SourceOf(blames, b[i].name) {
      assert b[i] in a;
    }
  }

  // Two entries of one name would be the same entry twice.
  lemma NamesApart(a: seq<Source>, b: seq<Source>, blames: map<string, Blame>)
    requires forall i, j :: 0 <= i < j < |a| ==> a[i].name != a[j].name
    requires forall i :: 0 <= i < |a| ==> a[i] == SourceOf(blames, a[i].name)
    requires multiset(a) == multiset(b)
    ensures forall i, j :: 0 <= i < j < |b| ==> b[i].name != b[j].name
  {
    assert NoRepeats(a);
    PermutedHasNoRepeats(a, b);
    SameElements(a, b);
    hide SourceOf;
    forall i | 0 <= i < |b| ensures b[i] == SourceOf(blames, b[i].name) {
      assert b[i] in a;
    }
  }

  lemma RankingUnique(a: seq<Source>, b: seq<Source>, blames: map<string, Blame>, inSet: set<string>, min: int)
    requires IsRanking(a, blames, inSet, min) && IsRanking(b, blames, inSet, min)
    ensures a == b
  {
    SourceOrder();
    ListsPermute(a, b, blames, LargeSources(blames, inSet, min));
    SortedUnique(a, b, SourceBefore);
  }

  method RankSources(
    blames: map<string, Blame>, bySource: map<string, seq<string>>, scoreSum: map<string, real>,
    inSet: set<string>, min: int)
    returns (sources: seq<Source>)
    requires IsIndex(blames, bySource, scoreSum)
    ensures IsRanking(sources, blames, inSet, min)
    ensures forall i :: 0 <= i < |sources| ==> sources[i].name in bySource
  {
    IndexFacts(blames, bySource, scoreSum);
    hide IsIndex, NoRepeats, Elements, Blamers;
    var list: seq<Source> := [];
    var todo := bySource.Keys;
    ghost var done := {};
    while todo != {}
      invariant todo <= bySource.Keys && done == bySource.Keys - todo
      invariant Lists(list, blames, LargeSources(blames, inSet, min) * done)
      decreases todo
    {
      var src :| src in todo;
      CountOf(bySource[src]);
      ghost var names := LargeSources(blames, inSet, min) * done;
      if src in inSet && 1 + |bySource[src]| >= min {
        var entry := Source(src, |bySource[src]|, scoreSum[src]);
        assert entry == SourceOf(blames, src);
        list := list + [entry];
        assert LargeSources(blames, inSet, min) * (done + {src}) == names + {src};
      } else {
        assert LargeSources(blames, inSet, min) * (done + {src}) == names;
      }
      todo, done := todo - {src}, done + {src};
    }
    assert LargeSources(blames, inSet, min) * done == LargeSources(blames, inSet, min);
    SourceOrder();
    sources := SortSlice(list, SourceBefore);
    ListsSorted(list, sources, blames, LargeSources(blames, inSet, min));
  }

  lemma {:induction false} CountOf(xs: seq<string>)
    requires NoRepeats(xs)
    ensures |Elements(xs)| == |xs|
  {
    if xs != [] {
      CountOf(xs[1..]);
      assert Elements(xs) == Elements(xs[1..]) + {xs[0]};
      assert xs[0] !in xs[1..];
    }
  }

  // ----- the greedy packing -----

  // A chosen cluster: its source and the services folded into it.
  datatype Pick = Pick(source: Source, services: set<string>)

  datatype Packing = Packing(taken: set<string>, picks: seq<Pick>)

  ghost function Greedy(sources: seq<Source>, blames: map<string, Blame>, min: int): Packing {
    if sources == [] then Packing({}, [])
    else PackNext(Greedy(sources[..|sources| - 1], blames, min), sources[|sources| - 1], blames, min)
  }

  // A source already taken, or with too few blamers left, forms no cluster.
  ghost function PackNext(p: Packing, source: Source, blames: map<string, Blame>, min: int): Packing {
    var rest := Blamers(blames, source.name) - p.taken;
    if source.name in p.taken || 1 + |rest| < min then p
    else Packing(p.taken + {source.name} + rest, p.picks + [Pick(source, rest)])
  }

  ghost function Covers(pick: Pick): set<string> { pick.services + {pick.source.name} }

  // No service is in two clusters, as source or member; every cluster is big
  // enough; every member's top blame is its source.
  ghost predicate ValidPacking(p: Packing, blames: map<string, Blame>, min: int) {
    && (forall i, j :: 0 <= i < j < |p.picks| ==> Covers(p.picks[i]) !! Covers(p.picks[j]))
    && (forall i :: 0 <= i < |p.picks| ==> ValidPick(p.picks[i], blames, min) && Covers(p.picks[i]) <= p.taken)
    && (forall s :: s in p.taken ==> exists i :: 0 <= i < |p.picks| && s in Covers(p.picks[i]))
  }

  ghost predicate ValidPick(pick: Pick, blames: map<string, Blame>, min: int) {
    && pick.source == SourceOf(blames, pick.source.name)
    && pick.source.name !in pick.services
    && |Covers(pick)| >= min
    && forall s :: s in pick.services ==> s in blames && blames[s].source == pick.source.name
  }

  ghost predicate NoSelfBlame(blames: map<string, Blame>) {
    forall s :: s in blames ==> blames[s].source != s
  }

  lemma {:induction false} GreedyIsValid(sources: seq<Source>, blames: map<string, Blame>, min: int)
    requires NoSelfBlame(blames)
    requires forall i :: 0 <= i < |sources| ==> sources[i] == SourceOf(blames, sources[i].name)
    ensures ValidPacking(Greedy(sources, blames, min), blames, min)
  {
    if sources != [] {
      var init, last := sources[..|sources| - 1], sources[|sources| - 1];
      GreedyIsValid(init, blames, min);
      PackNextIsValid(Greedy(init, blames, min), last, blames, min);
    }
  }

  lemma PackNextIsValid(p: Packing, source: Source, blames: map<string, Blame>, min: int)
    requires NoSelfBlame(blames) && source == SourceOf(blames, source.name)
    requires ValidPacking(p, blames, min)
    ensures ValidPacking(PackNext(p, source, blames, min), blames, min)
  {
    var rest := Blamers(blames, source.name) - p.taken;
    if source.name !in p.taken && 1 + |rest| >= min {
      PickIsValid(Pick(source, rest), blames, min, p.taken);
      CoversFree(source, rest, p.taken);
      hide *;
      ExtendPacking(p, Pick(source, rest), blames, min);
    }
    PackNextForm(p, source, rest, blames, min);
  }

  lemma CoversFree(source: Source, rest: set<string>, taken: set<string>)
    requires source.name !in taken && rest !! taken
    ensures Covers(Pick(source, rest)) !! taken
  {}

  lemma PackNextForm(p: Packing, source: Source, rest: set<string>, blames: map<string, Blame>, min: int)
    requires rest == Blamers(blames, source.name) - p.taken
    ensures PackNext(p, source, blames, min)
         == if source.name in p.taken || 1 + |rest| < min then p
            else Packing(p.taken + Covers(Pick(source, rest)), p.picks + [Pick(source, rest)])
  {
    hide Blamers;
    assert p.taken + {source.name} + rest == p.taken + Covers(Pick(source, rest));
  }

  lemma PickIsValid(pick: Pick, blames: map<string, Blame>, min: int, taken: set<string>)
    requires NoSelfBlame(blames) && pick.source == SourceOf(blames, pick.source.name)
    requires pick.services == Blamers(blames, pick.source.name) - taken && 1 + |pick.services| >= min
    ensures ValidPick(pick, blames, min)
  {
    assert pick.source.name !in pick.services;
    assert |Covers(pick)| == |pick.services| + 1;
  }

  lemma ExtendPacking(p: Packing, pick: Pick, blames: map<string, Blame>, min: int)
    requires ValidPacking(p, blames, min) && ValidPick(pick, blames, min) && Covers(pick) !! p.taken
    ensures ValidPacking(Packing(p.taken + Covers(pick), p.picks + [pick]), blames, min)
  {
    hide Covers, ValidPick;
    var q := Packing(p.taken + Covers(pick), p.picks + [pick]);
    forall i | 0 <= i < |p.picks| ensures Covers(q.picks[i]) !! Covers(pick) {
      assert Covers(p.picks[i]) <= p.taken;
    }
    forall s | s in q.taken ensures exists i :: 0 <= i < |q.picks| && s in Covers(q.picks[i]) {
      if s in p.taken {
        var i :| 0 <= i < |p.picks| && s in Covers(p.picks[i]);
        assert q.picks[i] == p.picks[i];
      } else {
        assert s in Covers(q.picks[|p.picks|]);
      }
    }
  }

  // No source that was looked at could form one more cluster.
  lemma {:induction false} GreedyIsMaximal(sources: seq<Source>, blames: map<string, Blame>, min: int, i: nat)
    requires i < |sources|
    ensures var p := Greedy(sources, blames, min);
            sources[i].name in p.taken || 1 + |Blamers(blames, sources[i].name) - p.taken| < min
  {
    var init, last := sources[..|sources| - 1], sources[|sources| - 1];
    var p := Greedy(init, blames, min);
    var q := PackNext(p, last, blames, min);
    assert p.taken <= q.taken;
    if i < |sources| - 1 {
      GreedyIsMaximal(init, blames, min, i);
      assert init[i] == sources[i];
      FewerLeft(Blamers(blames, sources[i].name), p.taken, q.taken);
    }
  }

  lemma FewerLeft(s: set<string>, a: set<string>, b: set<string>)
    requires a <= b
    ensures |s - b| <= |s - a|
  {
    SubsetIsSmaller(s - b, s - a);
  }

  // Afterwards no unassigned source has enough unassigned blamers left.
  lemma PackingIsMaximal(sources: seq<Source>, blames: map<string, Blame>, inSet: set<string>, min: int, src: string)
    requires IsRanking(sources, blames, inSet, min) && min >= 2
    requires src in inSet && src !in Greedy(sources, blames, min).taken
    ensures 1 + |Blamers(blames, src) - Greedy(sources, blames, min).taken| < min
  {
    var left := Blamers(blames, src) - Greedy(sources, blames, min).taken;
    if src in LargeSources(blames, inSet, min) {
      assert SourceOf(blames, src) in sources;
      var i :| 0 <= i < |sources| && sources[i] == SourceOf(blames, src);
      GreedyIsMaximal(sources, blames, min, i);
    } else {
      SubsetIsSmaller(left, Blamers(blames, src));
    }
  }

  // ----- clusters -----

  function Carried(cands: seq<Candidate>, services: set<string>): seq<Candidate> {
    if cands == [] then []
    else (if cands[0].service in services then [cands[0]] else []) + Carried(cands[1..], services)
  }

  // The cluster of a pick carries all candidates of its services, by (service, metric).
  ghost predicate IsClusterOf(cl: Cluster, pick: Pick, cands: seq<Candidate>) {
    && cl.source == pick.source.name && cl.score == pick.source.score
    && multiset(cl.members) == multiset(Carried(cands, pick.services))
    && SortedBy(cl.members, MemberBefore)
  }

  ghost predicate AreClustersOf(out: seq<Cluster>, picks: seq<Pick>, cands: seq<Candidate>) {
    |out| == |picks| && forall i :: 0 <= i < |out| ==> IsClusterOf(out[i], picks[i], cands)
  }

  // out is the clustering of cands: the specification of DetectAnomalyClusters.
  ghost predicate IsClustering(cands: seq<Candidate>, rank: string -> seq<Scored>, min: int, out: seq<Cluster>) {
    if min < 2 || |cands| < min then out == []
    else
      exists blames, sources ::
        && IsBlames(blames, Services(cands), rank)
        && IsRanking(sources, blames, Services(cands), min)
        && AreClustersOf(out, Greedy(sources, blames, min).picks, cands)
  }

  lemma CarriedFirst(c: Candidate, rest: seq<Candidate>, services: set<string>)
    ensures Carried([c] + rest, services) == (if c.service in services then [c] else []) + Carried(rest, services)
  {
    assert ([c] + rest)[1..] == rest;
  }

  lemma {:induction false} CarriedAppend(cands: seq<Candidate>, more: seq<Candidate>, services: set<string>)
    ensures Carried(cands + more, services) == Carried(cands, services) + Carried(more, services)
  {
    if cands == [] {
      assert cands + more == more;
    } else {
      var c, rest := cands[0], cands[1..];
      CarriedAppend(rest, more, services);
      CarriedFirst(c, rest, services);
      CarriedFirst(c, rest + more, services);
      hide *;
      assert cands == [c] + rest && cands + more == [c] + (rest + more);
    }
  }

  lemma {:induction false} CarriedSplit(cands: seq<Candidate>, services: set<string>, s: string)
    requires s !in services
    ensures multiset(Carried(cands, services + {s}))
         == multiset(Carried(cands, services)) + multiset(Carried(cands, {s}))
  {
    if cands != [] {
      CarriedSplit(cands[1..], services, s);
    }
  }

  lemma {:induction false} CarriedServices(cands: seq<Candidate>, services: set<string>, c: Candidate)
    ensures c in Carried(cands, services) <==> c in cands && c.service in services
  {
    if cands != [] {
      CarriedServices(cands[1..], services, c);
    }
  }

  lemma {:induction false} CarriedPermutes(a: seq<Candidate>, b: seq<Candidate>, services: set<string>)
    requires multiset(a) == multiset(b)
    ensures multiset(Carried(a, services)) == multiset(Carried(b, services))
  {
    if a == [] {
      assert |multiset(b)| == 0;
      assert a == b;
    } else {
      var j := Pull(a, b);
      CarriedPermutes(a[1..], b[..j] + b[j + 1..], services);
      CarriedAppend(b[..j], b[j + 1..], services);
      CarriedAppend(b[..j], [b[j]] + b[j + 1..], services);
      assert ([b[j]] + b[j + 1..])[1..] == b[j + 1..];
    }
  }

  // The candidates by service.
  method GroupByService(cands: seq<Candidate>) returns (byService: map<string, seq<Candidate>>)
    ensures byService.Keys == Services(cands)
    ensures forall s :: s in byService ==> byService[s] == Carried(cands, {s})
  {
    byService := map[];
    hide Carried;
    var i := 0;
    while i < |cands|
      invariant 0 <= i <= |cands|
      invariant byService.Keys == Services(cands[..i])
      invariant forall s :: s in byService ==> byService[s] == Carried(cands[..i], {s})
    {
      var c := cands[i];
      assert cands[..i + 1] == cands[..i] + [c];
      if c.service !in byService {
        NothingCarried(cands[..i], c.service);
      }
      forall s ensures Carried(cands[..i + 1], {s}) == Carried(cands[..i], {s}) + if c.service == s then [c] else [] {
        CarriedNext(cands[..i], c, s);
      }
      byService := byService[c.service := (if c.service in byService then byService[c.service] else []) + [c]];
      i := i + 1;
    }
    assert cands[..i] == cands;
  }

  lemma CarriedNext(cands: seq<Candidate>, c: Candidate, s: string)
    ensures Carried(cands + [c], {s}) == Carried(cands, {s}) + if c.service == s then [c] else []
  {
    CarriedAppend(cands, [c], {s});
  }

  lemma {:induction false} NothingCarried(cands: seq<Candidate>, s: string)
    requires s !in Services(cands)
    ensures Carried(cands, {s}) == []
  {
    if cands != [] {
      assert cands[0] in cands;
      assert forall c :: c in cands[1..] ==> c in cands;
      NothingCarried(cands[1..], s);
    }
  }

  // The candidates of the blamers that are still free.
  ghost function OfFree(cands: seq<Candidate>, blamers: seq<string>, taken: set<string>): multiset<Candidate> {
    multiset(Carried(cands, Elements(blamers) - taken))
  }

  method GatherMembers(
    blamers: seq<string>, taken: set<string>, cands: seq<Candidate>, byService: map<string, seq<Candidate>>)
    returns (members: seq<Candidate>)
    requires NoRepeats(blamers) && Elements(blamers) <= Services(cands)
    requires byService.Keys == Services(cands)
    requires forall s :: s in byService ==> byService[s] == Carried(cands, {s})
    ensures multiset(members) == OfFree(cands, blamers, taken)
  {
    members := [];
    hide *;
    NothingFree(cands, blamers, taken);
    var i := 0;
    while i < |blamers|
      invariant 0 <= i <= |blamers|
      invariant multiset(members) == OfFree(cands, blamers[..i], taken)
    {
      var svc := blamers[i];
      var free := svc !in taken;
      assert svc in byService by { ListedElement(blamers, i); }
      GatherStep(cands, taken, blamers, i, members, byService[svc]);
      if free {
        members := members + byService[svc];
      }
      i := i + 1;
    }
    assert blamers[..i] == blamers;
  }

  lemma NothingFree(cands: seq<Candidate>, blamers: seq<string>, taken: set<string>)
    ensures OfFree(cands, blamers[..0], taken) == multiset([])
  {
    NothingForNobody(cands);
    assert Elements(blamers[..0]) - taken == {};
  }

  lemma ListedElement(xs: seq<string>, i: nat)
    requires i < |xs|
    ensures xs[i] in Elements(xs)
  {}

  lemma GatherStep(
    cands: seq<Candidate>, taken: set<string>, xs: seq<string>, i: nat, members: seq<Candidate>, list: seq<Candidate>)
    requires i < |xs| && NoRepeats(xs) && list == Carried(cands, {xs[i]})
    requires multiset(members) == OfFree(cands, xs[..i], taken)
    ensures OfFree(cands, xs[..i + 1], taken) == if xs[i] in taken then multiset(members) else multiset(members + list)
  {
    NextElement(xs, i);
    var before := Elements(xs[..i]);
    hide Carried, Elements, NoRepeats;
    if xs[i] in taken {
      assert before + {xs[i]} - taken == before - taken;
    } else {
      CarriedSplit(cands, before - taken, xs[i]);
      assert before + {xs[i]} - taken == before - taken + {xs[i]};
    }
  }

  lemma NextElement(xs: seq<string>, i: nat)
    requires i < |xs| && NoRepeats(xs)
    ensures Elements(xs[..i + 1]) == Elements(xs[..i]) + {xs[i]}
    ensures xs[i] !in Elements(xs[..i]) && xs[i] in Elements(xs)
  {
    assert xs[..i + 1] == xs[..i] + [xs[i]];
  }

  lemma {:induction false} NothingForNobody(cands: seq<Candidate>)
    ensures Carried(cands, {}) == []
  {
    if cands != [] {
      NothingForNobody(cands[1..]);
    }
  }

  lemma ServicesOfMembers(members: seq<Candidate>, cands: seq<Candidate>, services: set<string>)
    requires multiset(members) == multiset(Carried(cands, services)) && services <= Services(cands)
    ensures Services(members) == services
  {
    forall s ensures s in Services(members) <==> s in services {
      if s in Services(members) {
        var c :| c in members && c.service == s;
        assert c in multiset(members);
        assert c in Carried(cands, services);
        CarriedServices(cands, services, c);
      }
      if s in services {
        var c :| c in cands && c.service == s;
        CarriedServices(cands, services, c);
        assert c in multiset(Carried(cands, services));
        assert c in multiset(members);
        assert c in members;
      }
    }
  }

  method DetectAnomalyClusters(cands: seq<Candidate>, rank: string -> seq<Scored>, min: int)
    returns (out: seq<Cluster>)
    ensures IsClustering(cands, rank, min, out)
  {
    out := [];
    if min < 2 || |cands| < min {
      return;
    }
    var inSet := set c | c in cands :: c.service;
    var blames := CollectBlames(inSet, rank);
    var bySource, scoreSum := IndexBySource(blames);
    var sources := RankSources(blames, bySource, scoreSum, inSet, min);
    var byService := GroupByService(cands);
    IndexFacts(blames, bySource, scoreSum);
    hide IsBlames, IsRanking, AreClustersOf, Carried, NoRepeats, Elements, Blamers;
    out := PackClusters(cands, blames, bySource, sources, byService, min);
  }

  // The greedy loop over the ranked sources.
  method PackClusters(
    cands: seq<Candidate>, blames: map<string, Blame>, bySource: map<string, seq<string>>,
    sources: seq<Source>, byService: map<string, seq<Candidate>>, min: int)
    returns (out: seq<Cluster>)
    requires byService.Keys == Services(cands) && blames.Keys <= Services(cands)
    requires forall s :: s in byService ==> byService[s] == Carried(cands, {s})
    requires forall i :: 0 <= i < |sources| ==> sources[i].name in bySource
    requires forall src :: src in bySource ==>
               NoRepeats(bySource[src]) && Elements(bySource[src]) == Blamers(blames, src)
    ensures AreClustersOf(out, Greedy(sources, blames, min).picks, cands)
  {
    out := [];
    hide *;
    var taken := {};
    ghost var p := Packing({}, []);
    var i := 0;
    NothingPacked(blames, cands, min);
    assert sources[..0] == [];
    while i < |sources|
      invariant 0 <= i <= |sources|
      invariant p == Greedy(sources[..i], blames, min)
      invariant taken == p.taken && AreClustersOf(out, p.picks, cands)
    {
      var sc := sources[i];
      GreedyStep(sources, i, blames, min);
      if sc.name in taken {
        PackSkipped(p, sc, blames, min);
      } else {
        BlamersAreServices(blames, sc.name);
        var cl, memberServices := FormCluster(sc, bySource[sc.name], taken, cands, byService, min);
        if cl.Some? {
          PackTaken(out, p, sc, memberServices, cl.value, blames, cands, min);
          taken := taken + {sc.name} + memberServices;
          out := out + [cl.value];
        } else {
          PackSkipped(p, sc, blames, min);
        }
      }
      p := PackNext(p, sc, blames, min);
      i := i + 1;
    }
    assert sources[..i] == sources;
  }

  lemma PackSkipped(p: Packing, sc: Source, blames: map<string, Blame>, min: int)
    requires sc.name in p.taken || 1 + |Blamers(blames, sc.name) - p.taken| < min
    ensures PackNext(p, sc, blames, min) == p
  {}

  lemma PackTaken(
    out: seq<Cluster>, p: Packing, sc: Source, services: set<string>, cl: Cluster,
    blames: map<string, Blame>, cands: seq<Candidate>, min: int)
    requires sc.name !in p.taken && services == Blamers(blames, sc.name) - p.taken && 1 + |services| >= min
    requires AreClustersOf(out, p.picks, cands) && IsClusterOf(cl, Pick(sc, services), cands)
    ensures PackNext(p, sc, blames, min).taken == p.taken + {sc.name} + services
    ensures AreClustersOf(out + [cl], PackNext(p, sc, blames, min).picks, cands)
  {
    AddCluster(out, p.picks, cl, Pick(sc, services), cands);
  }

  // The cluster of the blamers that are still free, if they are enough.
  method FormCluster(
    sc: Source, blamers: seq<string>, taken: set<string>,
    cands: seq<Candidate>, byService: map<string, seq<Candidate>>, min: int)
    returns (cl: Option<Cluster>, memberServices: set<string>)
    requires NoRepeats(blamers) && Elements(blamers) <= Services(cands)
    requires byService.Keys == Services(cands)
    requires forall s :: s in byService ==> byService[s] == Carried(cands, {s})
    ensures memberServices == Elements(blamers) - taken
    ensures cl.Some? <==> 1 + |memberServices| >= min
    ensures cl.Some? ==> IsClusterOf(cl.value, Pick(sc, memberServices), cands)
  {
    hide *;
    var members := GatherMembers(blamers, taken, cands, byService);
    FreeMeans(cands, blamers, taken);
    memberServices := set m | m in members :: m.service;
    SameAsServices(members, memberServices);
    ServicesOfMembers(members, cands, Elements(blamers) - taken);
    if 1 + |memberServices| < min {
      return None, memberServices;
    }
    MemberOrder();
    var sorted := SortSlice(members, MemberBefore);
    MakeCluster(sc, memberServices, sorted, cands);
    cl := Some(Cluster(sc.name, sc.score, sorted));
  }

  lemma FreeMeans(cands: seq<Candidate>, blamers: seq<string>, taken: set<string>)
    ensures OfFree(cands, blamers, taken) == multiset(Carried(cands, Elements(blamers) - taken))
  {}

  lemma NothingPacked(blames: map<string, Blame>, cands: seq<Candidate>, min: int)
    ensures Greedy([], blames, min) == Packing({}, []) && AreClustersOf([], [], cands)
  {}

  lemma BlamersAreServices(blames: map<string, Blame>, source: string)
    ensures Blamers(blames, source) <= blames.Keys
  {}

  lemma SameAsServices(members: seq<Candidate>, services: set<string>)
    requires services == set m | m in members :: m.service
    ensures services == Services(members)
  {}

  lemma AddCluster(out: seq<Cluster>, picks: seq<Pick>, cl: Cluster, pick: Pick, cands: seq<Candidate>)
    requires AreClustersOf(out, picks, cands) && IsClusterOf(cl, pick, cands)
    ensures AreClustersOf(out + [cl], picks + [pick], cands)
  {
    hide IsClusterOf;
  }

  lemma GreedyStep(sources: seq<Source>, i: nat, blames: map<string, Blame>, min: int)
    requires i < |sources|
    ensures Greedy(sources[..i + 1], blames, min)
              == PackNext(Greedy(sources[..i], blames, min), sources[i], blames, min)
  {
    assert sources[..i + 1][..i] == sources[..i];
  }

  lemma MakeCluster(sc: Source, services: set<string>, members: seq<Candidate>, cands: seq<Candidate>)
    requires multiset(members) == multiset(Carried(cands, services)) && SortedBy(members, MemberBefore)
    ensures IsClusterOf(Cluster(sc.name, sc.score, members), Pick(sc, services), cands)
  {}

  // Whatever order the maps were iterated in and the candidates came in, the
  // list of clusters is the same, with the members in the same order.
  lemma ClusteringUnique(
    cands: seq<Candidate>, cands': seq<Candidate>, rank: string -> seq<Scored>, min: int,
    out: seq<Cluster>, out': seq<Cluster>)
    requires multiset(cands) == multiset(cands') && DistinctBy(cands, MemberBefore)
    requires IsClustering(cands, rank, min, out) && IsClustering(cands', rank, min, out')
    ensures out == out'
  {
    SameServices(cands, cands');
    hide IsBlames, IsRanking, Greedy, IsClusterOf, DistinctBy;
    if min >= 2 && |cands| >= min {
      var inSet := Services(cands);
      var blames, sources :| IsBlames(blames, inSet, rank) && IsRanking(sources, blames, inSet, min)
        && AreClustersOf(out, Greedy(sources, blames, min).picks, cands);
      var blames', sources' :| IsBlames(blames', inSet, rank) && IsRanking(sources', blames', inSet, min)
        && AreClustersOf(out', Greedy(sources', blames', min).picks, cands');
      BlamesUnique(blames, blames', inSet, rank);
      RankingUnique(sources, sources', blames, inSet, min);
      var picks := Greedy(sources, blames, min).picks;
      forall i | 0 <= i < |picks| ensures out[i] == out'[i] {
        ClusterUnique(out[i], out'[i], picks[i], cands, cands');
      }
    }
  }

  lemma SameServices(a: seq<Candidate>, b: seq<Candidate>)
    requires multiset(a) == multiset(b)
    ensures |a| == |b| && Services(a) == Services(b)
  {
    assert |a| == |multiset(a)| == |multiset(b)| == |b|;
    assert forall c :: c in a <==> c in multiset(a);
    assert forall c :: c in b <==> c in multiset(b);
  }

  lemma ClusterUnique(cl: Cluster, cl': Cluster, pick: Pick, cands: seq<Candidate>, cands': seq<Candidate>)
    requires multiset(cands) == multiset(cands') && DistinctBy(cands, MemberBefore)
    requires IsClusterOf(cl, pick, cands) && IsClusterOf(cl', pick, cands')
    ensures cl == cl'
  {
    CarriedPermutes(cands, cands', pick.services);
    MemberOrder();
    CarriedDistinct(cands, pick.services);
    DistinctPermutes(Carried(cands, pick.services), cl.members, MemberBefore);
    SortedUnique(cl.members, cl'.members, MemberBefore);
  }

  lemma {:induction false} CarriedDistinct(cands: seq<Candidate>, services: set<string>)
    requires DistinctBy(cands, MemberBefore)
    ensures DistinctBy(Carried(cands, services), MemberBefore)
  {
    if cands != [] {
      assert DistinctBy(cands[1..], MemberBefore) by {
        forall i, j | 0 <= i < j < |cands[1..]|
          ensures MemberBefore(cands[1..][i], cands[1..][j]) || MemberBefore(cands[1..][j], cands[1..][i])
        {
          assert MemberBefore(cands[i + 1], cands[j + 1]) || MemberBefore(cands[j + 1], cands[i + 1]);
        }
      }
      CarriedDistinct(cands[1..], services);
      var rest := Carried(cands[1..], services);
      forall j | 0 <= j < |rest| ensures MemberBefore(cands[0], rest[j]) || MemberBefore(rest[j], cands[0]) {
        CarriedServices(cands[1..], services, rest[j]);
        var k :| 0 <= k < |cands[1..]| && cands[1..][k] == rest[j];
        assert cands[k + 1] == rest[j];
      }
    }
  }

  // ----- what a clustering guarantees -----

  // The highest-scored cause of svc among the candidate services is source.
  ghost predicate BlamesSource(svc: string, source: string, inSet: set<string>, rank: string -> seq<Scored>) {
    exists score :: IsTopBlame(Some(Blame(source, score)), rank(svc), svc, inSet)
  }

  ghost function ClusterServices(cl: Cluster): set<string> { Services(cl.members) + {cl.source} }

  ghost predicate InSomeCluster(svc: string, out: seq<Cluster>) {
    exists i :: 0 <= i < |out| && svc in ClusterServices(out[i])
  }

  ghost function FreeBlamers(
    src: string, inSet: set<string>, rank: string -> seq<Scored>, out: seq<Cluster>): set<string>
  {
    set s | s in inSet && BlamesSource(s, src, inSet, rank) && !InSomeCluster(s, out)
  }

  // A cluster is big enough, its source is a candidate that is no member, its
  // members all blame the source, and it carries every candidate of theirs once.
  ghost predicate GoodCluster(cl: Cluster, cands: seq<Candidate>, rank: string -> seq<Scored>, min: int) {
    && cl.source in Services(cands) && cl.source !in Services(cl.members)
    && Services(cl.members) <= Services(cands)
    && |ClusterServices(cl)| >= min
    && (forall s :: s in Services(cl.members) ==> BlamesSource(s, cl.source, Services(cands), rank))
    && multiset(cl.members) == multiset(Carried(cands, Services(cl.members)))
  }

  lemma {:induction false} PicksAreSources(sources: seq<Source>, blames: map<string, Blame>, min: int, i: nat)
    requires i < |Greedy(sources, blames, min).picks|
    ensures Greedy(sources, blames, min).picks[i].source in sources
  {
    if sources != [] {
      var init := sources[..|sources| - 1];
      if i < |Greedy(init, blames, min).picks| {
        PicksAreSources(init, blames, min, i);
        var pick := Greedy(init, blames, min).picks[i];
        assert pick.source in init;
      }
    }
  }

  lemma BlamesMeans(blames: map<string, Blame>, inSet: set<string>, rank: string -> seq<Scored>, s: string, src: string)
    requires IsBlames(blames, inSet, rank) && s in inSet
    ensures s in Blamers(blames, src) <==> BlamesSource(s, src, inSet, rank)
  {
    var mine := if s in blames then Some(blames[s]) else None;
    assert IsTopBlame(mine, rank(s), s, inSet);
    if BlamesSource(s, src, inSet, rank) {
      var score :| IsTopBlame(Some(Blame(src, score)), rank(s), s, inSet);
      TopBlameUnique(mine, Some(Blame(src, score)), rank(s), s, inSet);
    }
    if s in Blamers(blames, src) {
      assert IsTopBlame(Some(Blame(src, blames[s].score)), rank(s), s, inSet);
    }
  }

  lemma NobodyBlamesThemselves(blames: map<string, Blame>, inSet: set<string>, rank: string -> seq<Scored>)
    requires IsBlames(blames, inSet, rank)
    ensures NoSelfBlame(blames)
  {
    forall s | s in blames ensures blames[s].source != s {
      assert IsTopBlame(Some(blames[s]), rank(s), s, inSet);
    }
  }

  // The parts of a clustering that its definition hides.
  lemma Unfold(cands: seq<Candidate>, rank: string -> seq<Scored>, min: int, out: seq<Cluster>)
    returns (blames: map<string, Blame>, sources: seq<Source>)
    requires IsClustering(cands, rank, min, out) && min >= 2 && |cands| >= min
    ensures IsBlames(blames, Services(cands), rank) && IsRanking(sources, blames, Services(cands), min)
    ensures AreClustersOf(out, Greedy(sources, blames, min).picks, cands)
              && |out| == |Greedy(sources, blames, min).picks|
    ensures ValidPacking(Greedy(sources, blames, min), blames, min)
    ensures forall i :: 0 <= i < |out| ==>
              ClusterServices(out[i]) == Covers(Greedy(sources, blames, min).picks[i])
              && Services(out[i].members) == Greedy(sources, blames, min).picks[i].services
              && out[i].source in Services(cands)
  {
    blames, sources :| IsBlames(blames, Services(cands), rank) && IsRanking(sources, blames, Services(cands), min)
      && AreClustersOf(out, Greedy(sources, blames, min).picks, cands);
    NobodyBlamesThemselves(blames, Services(cands), rank);
    GreedyIsValid(sources, blames, min);
    var picks := Greedy(sources, blames, min).picks;
    forall i | 0 <= i < |out|
      ensures ClusterServices(out[i]) == Covers(picks[i]) && Services(out[i].members) == picks[i].services
      ensures out[i].source in Services(cands)
    {
      PicksAreSources(sources, blames, min, i);
      PickServices(out[i], picks[i], cands, rank, blames, min);
    }
  }

  lemma PickServices(
    cl: Cluster, pick: Pick, cands: seq<Candidate>, rank: string -> seq<Scored>, blames: map<string, Blame>, min: int)
    requires IsClusterOf(cl, pick, cands) && ValidPick(pick, blames, min) && IsBlames(blames, Services(cands), rank)
    ensures Services(cl.members) == pick.services && ClusterServices(cl) == Covers(pick)
  {
    ServicesOfMembers(cl.members, cands, pick.services);
  }

  lemma PickIsGood(
    cl: Cluster, pick: Pick, cands: seq<Candidate>, rank: string -> seq<Scored>, blames: map<string, Blame>, min: int)
    requires IsClusterOf(cl, pick, cands) && ValidPick(pick, blames, min) && IsBlames(blames, Services(cands), rank)
    requires cl.source in Services(cands)
    ensures GoodCluster(cl, cands, rank, min)
  {
    PickServices(cl, pick, cands, rank, blames, min);
    assert Services(cl.members) <= Services(cands) by { assert blames.Keys <= Services(cands); }
    forall s | s in Services(cl.members) ensures BlamesSource(s, cl.source, Services(cands), rank) {
      assert s in Blamers(blames, cl.source);
      BlamesMeans(blames, Services(cands), rank, s, cl.source);
    }
  }

  // Clusters are good and disjoint: no service is in two of them.
  lemma ClustersAreAPacking(cands: seq<Candidate>, rank: string -> seq<Scored>, min: int, out: seq<Cluster>)
    requires IsClustering(cands, rank, min, out)
    ensures forall i :: 0 <= i < |out| ==> GoodCluster(out[i], cands, rank, min)
    ensures forall i, j :: 0 <= i < j < |out| ==> ClusterServices(out[i]) !! ClusterServices(out[j])
  {
    if min >= 2 && |cands| >= min {
      var blames, sources := Unfold(cands, rank, min, out);
      var picks := Greedy(sources, blames, min).picks;
      hide Greedy, IsRanking, GoodCluster, ValidPick, IsClusterOf, IsBlames, Covers, ClusterServices, Services;
      forall i | 0 <= i < |out| ensures GoodCluster(out[i], cands, rank, min) {
        PickIsGood(out[i], picks[i], cands, rank, blames, min);
      }
    }
  }

  lemma SameCoverage(p: Packing, out: seq<Cluster>, blames: map<string, Blame>, min: int, s: string)
    requires ValidPacking(p, blames, min) && |out| == |p.picks|
    requires forall i :: 0 <= i < |out| ==> ClusterServices(out[i]) == Covers(p.picks[i])
    ensures s in p.taken <==> InSomeCluster(s, out)
  {
    hide Covers, ClusterServices, ValidPick;
    if s in p.taken {
      var i :| 0 <= i < |p.picks| && s in Covers(p.picks[i]);
      assert s in ClusterServices(out[i]);
    }
    if InSomeCluster(s, out) {
      var i :| 0 <= i < |out| && s in ClusterServices(out[i]);
      assert s in Covers(p.picks[i]);
    }
  }

  // No further cluster could have been formed: every candidate service outside
  // all clusters has too few free blamers left.
  lemma ClusteringIsMaximal(
    cands: seq<Candidate>, rank: string -> seq<Scored>, min: int, out: seq<Cluster>, src: string)
    requires IsClustering(cands, rank, min, out) && min >= 2 && |cands| >= min
    requires src in Services(cands) && !InSomeCluster(src, out)
    ensures 1 + |FreeBlamers(src, Services(cands), rank, out)| < min
  {
    hide *;
    var blames, sources := Unfold(cands, rank, min, out);
    var p, inSet := Greedy(sources, blames, min), Services(cands);
    SameCoverage(p, out, blames, min, src);
    PackingIsMaximal(sources, blames, inSet, min, src);
    FreeOnes(p, inSet, rank, out, src, blames, min);
  }

  lemma FreeOnes(
    p: Packing, inSet: set<string>, rank: string -> seq<Scored>, out: seq<Cluster>, src: string,
    blames: map<string, Blame>, min: int)
    requires IsBlames(blames, inSet, rank) && ValidPacking(p, blames, min) && |out| == |p.picks|
    requires forall i :: 0 <= i < |out| ==> ClusterServices(out[i]) == Covers(p.picks[i])
    ensures Blamers(blames, src) - p.taken == FreeBlamers(src, inSet, rank, out)
  {
    assert Blamers(blames, src) <= blames.Keys <= inSet;
    hide IsBlames, Blamers, BlamesSource, ValidPacking, Covers, ClusterServices, InSomeCluster;
    forall s ensures s in Blamers(blames, src) - p.taken <==> s in FreeBlamers(src, inSet, rank, out) {
      SameCoverage(p, out, blames, min, s);
      if s in inSet {
        BlamesMeans(blames, inSet, rank, s, src);
      }
    }
  }
}
