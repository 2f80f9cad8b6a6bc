// Laws of the autocomplete cache over any interleaving of several pods, against
// a plain count of the spans they observed.
module AutocompleteLaws {
  import opened Collecting
  import opened Autocomplete

  // ----- counting on a plain log -----

  function PairHit(o: Options, key: RankKey, pair: (string, string), m: string): nat {
    if key.ValuesRank? && pair == (key.attr, m) && Kept(o, key.attr, m) && o.policy(key.attr) == CardTrack then 1 else 0
  }

  function PairHits(o: Options, key: RankKey, pairs: seq<(string, string)>, m: string): nat {
    if pairs == [] then 0
    else PairHits(o, key, pairs[..|pairs| - 1], m) + PairHit(o, key, pairs[|pairs| - 1], m)
  }

  function NameHit(key: RankKey, sp: Span, m: string): nat {
    match key
    case ServicesRank => if sp.service == m && m != "" then 1 else 0
    case OpsRank(svc) => if sp.service == svc && svc != "" && sp.name == m && m != "" then 1 else 0
    case ValuesRank(_) => 0
  }

  // How often a span shows a member of a ranked key.
  function Hits(o: Options, key: RankKey, sp: Span, m: string): nat {
    NameHit(key, sp, m) + PairHits(o, key, Attributes(sp), m)
  }

  lemma {:induction false} PairHitsConcat(
    o: Options, key: RankKey, a: seq<(string, string)>, b: seq<(string, string)>, m: string)
    ensures PairHits(o, key, a + b, m) == PairHits(o, key, a, m) + PairHits(o, key, b, m)
  {
    if b == [] {
      assert a + b == a;
    } else {
      assert (a + b)[..|a + b| - 1] == a + b[..|b| - 1];
      PairHitsConcat(o, key, a, b[..|b| - 1], m);
    }
  }

  lemma {:induction false} FreeHitsNone(
    o: Options, key: RankKey, keys: seq<string>, values: seq<string>, n: nat, m: string)
    requires n <= |keys| && key.ValuesRank? && DedicatedHarvested(key.attr)
    ensures PairHits(o, key, FreePairs(keys, values, n), m) == 0
  {
    if n > 0 {
      FreeHitsNone(o, key, keys, values, n - 1, m);
      var more := if DedicatedHarvested(keys[n - 1]) || n > |values| then [] else [(keys[n - 1], values[n - 1])];
      PairHitsConcat(o, key, FreePairs(keys, values, n - 1), more, m);
      if more != [] {
        assert more[..0] == [];
      }
    }
  }

  // The value of a harvested key in a span's own columns.
  function Column(sp: Span, k: string): string {
    if k == "http.method" then sp.httpMethod
    else if k == "http.route" then sp.httpRoute
    else if k == "http.status_code" then (if sp.httpStatus != 0 then Decimal(sp.httpStatus) else "")
    else if k == "db.system" then sp.dbSystem
    else if k == "rpc.system" then sp.rpcSystem
    else if k == "rpc.method" then sp.rpcMethod
    else if k == "peer.service" then sp.peerService
    else if k == "messaging.system" then sp.msgSystem
    else if k == "kind" then sp.kind
    else if k == "host.name" then sp.hostName
    else sp.deployEnv
  }

  // A harvested key is counted once per span, with the value of its column,
  // whatever the attribute arrays repeat.
  lemma HarvestedOnce(o: Options, k: string, sp: Span, m: string)
    requires DedicatedHarvested(k) && o.policy(k) == CardTrack
    ensures Hits(o, ValuesRank(k), sp, m) == if Kept(o, k, m) && Column(sp, k) == m then 1 else 0
  {
    var key := ValuesRank(k);
    var attrs, res := FreePairs(sp.attrKeys, sp.attrValues, |sp.attrKeys|),
      FreePairs(sp.resKeys, sp.resValues, |sp.resKeys|);
    FreeHitsNone(o, key, sp.attrKeys, sp.attrValues, |sp.attrKeys|, m);
    FreeHitsNone(o, key, sp.resKeys, sp.resValues, |sp.resKeys|, m);
    AttributesAre(sp);
    ColumnHits(o, k, sp, m);
    hide *;
    PairHitsConcat(o, key, Columns(sp) + attrs, res, m);
    PairHitsConcat(o, key, Columns(sp), attrs, m);
    HitsAre(o, key, sp, m);
  }

  lemma AttributesAre(sp: Span)
    ensures Attributes(sp) == Columns(sp) + FreePairs(sp.attrKeys, sp.attrValues, |sp.attrKeys|)
                              + FreePairs(sp.resKeys, sp.resValues, |sp.resKeys|)
  {}

  lemma HitsAre(o: Options, key: RankKey, sp: Span, m: string)
    requires key.ValuesRank?
    ensures Hits(o, key, sp, m) == PairHits(o, key, Attributes(sp), m)
  {}

  lemma ColumnHits(o: Options, k: string, sp: Span, m: string)
    requires DedicatedHarvested(k) && o.policy(k) == CardTrack
    ensures PairHits(o, ValuesRank(k), Columns(sp), m) == if Kept(o, k, m) && Column(sp, k) == m then 1 else 0
  {
    var c := Columns(sp);
    ColumnAt(sp, k);
    var i :| 0 <= i < |c| && c[i] == (k, Column(sp, k)) && forall j :: 0 <= j < |c| && j != i ==> c[j].0 != k;
    hide Columns, Column;
    OneHit(o, k, c, i, m);
  }

  lemma ColumnAt(sp: Span, k: string)
    requires DedicatedHarvested(k)
    ensures var c := Columns(sp);
            exists i :: 0 <= i < |c| && c[i] == (k, Column(sp, k)) && forall j :: 0 <= j < |c| && j != i ==> c[j].0 != k
  {
    var i := PlaceOf(k);
    ColumnInPlace(sp, k);
    ColumnsInPlace(sp);
    hide *;
    assert forall j :: 0 <= j < |Columns(sp)| && j != i ==> Columns(sp)[j].0 != k;
  }

  function PlaceOf(k: string): nat {
    if k == "http.method" then 0 else if k == "http.route" then 1 else if k == "http.status_code" then 2
    else if k == "db.system" then 3 else if k == "rpc.system" then 4 else if k == "rpc.method" then 5
    else if k == "peer.service" then 6 else if k == "messaging.system" then 7 else if k == "kind" then 8
    else if k == "host.name" then 9 else 10
  }

  lemma ColumnInPlace(sp: Span, k: string)
    requires DedicatedHarvested(k)
    ensures PlaceOf(k) < |Columns(sp)| && Columns(sp)[PlaceOf(k)] == (k, Column(sp, k))
  {
    hide Decimal;
  }

  lemma ColumnsInPlace(sp: Span)
    ensures forall j :: 0 <= j < |Columns(sp)| ==> PlaceOf(Columns(sp)[j].0) == j
  {
    hide Decimal;
  }

  lemma {:induction false} NoHit(o: Options, k: string, pairs: seq<(string, string)>, m: string)
    requires forall j :: 0 <= j < |pairs| ==> pairs[j].0 != k
    ensures PairHits(o, ValuesRank(k), pairs, m) == 0
  {
    if pairs != [] {
      NoHit(o, k, pairs[..|pairs| - 1], m);
    }
  }

  lemma OneHit(o: Options, k: string, pairs: seq<(string, string)>, i: nat, m: string)
    requires i < |pairs| && pairs[i].0 == k && forall j :: 0 <= j < |pairs| && j != i ==> pairs[j].0 != k
    ensures PairHits(o, ValuesRank(k), pairs, m) == PairHit(o, ValuesRank(k), pairs[i], m)
  {
    var before, after := pairs[..i], pairs[i + 1..];
    assert pairs == before + [pairs[i]] + after;
    PairHitsConcat(o, ValuesRank(k), before + [pairs[i]], after, m);
    PairHitsConcat(o, ValuesRank(k), before, [pairs[i]], m);
    NoHit(o, k, before, m);
    NoHit(o, k, after, m);
    assert [pairs[i]][..0] == [];
  }

  // ----- what one span adds to the aggregate -----

  lemma AttrDelta(a: Agg, o: Options, key: RankKey, k: string, v: string, m: string)
    ensures At(Delta(AttrObserved(a, o, k, v), key), m) <= At(Delta(a, key), m) + PairHit(o, key, (k, v), m)
    ensures !key.ValuesRank? ==> Delta(AttrObserved(a, o, k, v), key) == Delta(a, key)
    ensures key.ValuesRank? && (v in Delta(a, key) || |Delta(a, key)| < o.maxDistinct) ==>
              At(Delta(AttrObserved(a, o, k, v), key), m) == At(Delta(a, key), m) + PairHit(o, key, (k, v), m)
  {}

  lemma {:induction false} AttrsDelta(a: Agg, o: Options, key: RankKey, pairs: seq<(string, string)>, m: string)
    ensures At(Delta(AttrsObserved(a, o, pairs), key), m) <= At(Delta(a, key), m) + PairHits(o, key, pairs, m)
    ensures !key.ValuesRank? ==> Delta(AttrsObserved(a, o, pairs), key) == Delta(a, key)
  {
    hide Delta, AttrObserved, PairHit;
    if pairs != [] {
      var init, last := pairs[..|pairs| - 1], pairs[|pairs| - 1];
      AttrsDelta(a, o, key, init, m);
      AttrDelta(AttrsObserved(a, o, init), o, key, last.0, last.1, m);
    }
  }

  // The values of a tracked key that may be kept all lie in seen.
  ghost predicate Within(o: Options, key: RankKey, pairs: seq<(string, string)>, seen: set<string>) {
    && key.ValuesRank?
    && forall i :: 0 <= i < |pairs| && pairs[i].0 == key.attr && Kept(o, key.attr, pairs[i].1) ==> pairs[i].1 in seen
  }

  lemma AttrExact(a: Agg, o: Options, key: RankKey, k: string, v: string, seen: set<string>, m: string)
    requires key.ValuesRank? && Delta(a, key).Keys <= seen && |seen| <= o.maxDistinct
    requires k == key.attr && Kept(o, k, v) ==> v in seen
    ensures Delta(AttrObserved(a, o, k, v), key).Keys <= seen
    ensures At(Delta(AttrObserved(a, o, k, v), key), m) == At(Delta(a, key), m) + PairHit(o, key, (k, v), m)
  {
    if k == key.attr && Kept(o, k, v) && v !in Delta(a, key) {
      SubsetIsSmaller(Delta(a, key).Keys, seen);
      assert |Delta(a, key)| == |Delta(a, key).Keys|;
    }
  }

  lemma {:induction false} AttrsExact(
    a: Agg, o: Options, key: RankKey, pairs: seq<(string, string)>, seen: set<string>, m: string)
    requires Within(o, key, pairs, seen) && Delta(a, key).Keys <= seen && |seen| <= o.maxDistinct
    ensures Delta(AttrsObserved(a, o, pairs), key).Keys <= seen
    ensures At(Delta(AttrsObserved(a, o, pairs), key), m) == At(Delta(a, key), m) + PairHits(o, key, pairs, m)
  {
    hide Delta, AttrObserved, PairHit, Kept;
    if pairs != [] {
      var init, last := pairs[..|pairs| - 1], pairs[|pairs| - 1];
      AttrsExact(a, o, key, init, seen, m);
      AttrExact(AttrsObserved(a, o, init), o, key, last.0, last.1, seen, m);
    }
  }

  lemma NamesDelta(a: Agg, key: RankKey, sp: Span, m: string)
    ensures At(Delta(NamesObserved(a, sp), key), m) == At(Delta(a, key), m) + NameHit(key, sp, m)
    ensures key.ValuesRank? ==> Delta(NamesObserved(a, sp), key) == Delta(a, key)
  {}

  // A span adds its hits: exactly for services and operations, at most them for
  // attribute values.
  lemma SpanDelta(a: Agg, o: Options, key: RankKey, sp: Span, m: string)
    ensures At(Delta(SpanObserved(a, o, sp), key), m) <= At(Delta(a, key), m) + Hits(o, key, sp, m)
    ensures !key.ValuesRank? ==>
              At(Delta(SpanObserved(a, o, sp), key), m) == At(Delta(a, key), m) + Hits(o, key, sp, m)
  {
    NamesDelta(a, key, sp, m);
    AttrsDelta(NamesObserved(a, sp), o, key, Attributes(sp), m);
    if !key.ValuesRank? {
      NoHitOutside(o, key, Attributes(sp), m);
    }
    hide Delta, NamesObserved, NameHit, Attributes, AttrsObserved, PairHits;
  }

  lemma {:induction false} NoHitOutside(o: Options, key: RankKey, pairs: seq<(string, string)>, m: string)
    requires !key.ValuesRank?
    ensures PairHits(o, key, pairs, m) == 0
  {
    if pairs != [] {
      NoHitOutside(o, key, pairs[..|pairs| - 1], m);
    }
  }

  lemma SpanExact(a: Agg, o: Options, key: RankKey, sp: Span, seen: set<string>, m: string)
    requires Within(o, key, Attributes(sp), seen) && Delta(a, key).Keys <= seen && |seen| <= o.maxDistinct
    ensures Delta(SpanObserved(a, o, sp), key).Keys <= seen
    ensures At(Delta(SpanObserved(a, o, sp), key), m) == At(Delta(a, key), m) + Hits(o, key, sp, m)
  {
    NamesDelta(a, key, sp, m);
    AttrsExact(NamesObserved(a, sp), o, key, Attributes(sp), seen, m);
    assert key.ValuesRank?;
    hide Delta, NamesObserved, Attributes, AttrsObserved, PairHits;
  }

  // ----- what a pipeline adds to Redis -----

  function IncOf(c: KeyCommand, m: string): nat {
    if c.ZIncrBy? && c.member == m then c.delta else 0
  }

  function IncSum(cmds: seq<KeyCommand>, m: string): nat {
    if cmds == [] then 0 else IncSum(cmds[..|cmds| - 1], m) + IncOf(cmds[|cmds| - 1], m)
  }

  lemma {:induction false} IncSumConcat(a: seq<KeyCommand>, b: seq<KeyCommand>, m: string)
    ensures IncSum(a + b, m) == IncSum(a, m) + IncSum(b, m)
  {
    if b == [] {
      assert a + b == a;
    } else {
      assert (a + b)[..|a + b| - 1] == a + b[..|b| - 1];
      IncSumConcat(a, b[..|b| - 1], m);
    }
  }

  lemma {:induction false} DropLowers(rank: Counts, k: nat)
    requires k <= |rank|
    ensures DropLowest(rank, k).Keys <= rank.Keys && |DropLowest(rank, k)| == |rank| - k
    ensures forall m :: m in DropLowest(rank, k) ==> DropLowest(rank, k)[m] == rank[m]
    decreases k
  {
    if k > 0 {
      var l := Lowest(rank);
      assert |rank - {l}| == |rank| - 1 by {
        assert (rank - {l}).Keys == rank.Keys - {l};
        assert |rank| == |rank.Keys| && |rank - {l}| == |(rank - {l}).Keys|;
      }
      DropLowers(rank - {l}, k - 1);
    }
  }

  lemma RemoveLowers(rank: Counts, stop: int)
    ensures RemoveRange(rank, stop).Keys <= rank.Keys
    ensures forall m :: m in RemoveRange(rank, stop) ==> RemoveRange(rank, stop)[m] == rank[m]
  {
    var last := if stop < 0 then |rank| + stop else stop;
    DropLowers(rank, if last < 0 then 0 else if last >= |rank| then |rank| else last + 1);
  }

  lemma {:induction false} RunAdds(ks: KeyState, cmds: seq<KeyCommand>, m: string)
    ensures At(RunKey(ks, cmds).rank, m) <= At(ks.rank, m) + IncSum(cmds, m)
    ensures (forall c :: c in cmds ==> !c.ZRemRangeByRank?) ==>
              At(RunKey(ks, cmds).rank, m) == At(ks.rank, m) + IncSum(cmds, m)
  {
    if cmds != [] {
      var init, last := cmds[..|cmds| - 1], cmds[|cmds| - 1];
      RunAdds(ks, init, m);
      assert forall c :: c in init ==> c in cmds;
      if last.ZRemRangeByRank? {
        RemoveLowers(RunKey(ks, init).rank, last.stop);
      }
    }
  }

  lemma {:induction false} MaskedSum(pipe: seq<Command>, mask: seq<bool>, key: RankKey, m: string)
    requires |mask| == |pipe|
    ensures IncSum(Project(Masked(pipe, mask), key), m) <= IncSum(Project(pipe, key), m)
  {
    if pipe != [] {
      var n := |pipe| - 1;
      var init, last := pipe[..n], pipe[n];
      MaskedSum(init, mask[..n], key, m);
      assert pipe == init + [last];
      var more := if mask[n] then [last] else [];
      ProjectConcat(init, [last], key);
      ProjectConcat(Masked(init, mask[..n]), more, key);
      assert Masked(pipe, mask) == Masked(init, mask[..n]) + more;
      hide Masked;
      IncSumConcat(Project(init, key), Project([last], key), m);
      IncSumConcat(Project(Masked(init, mask[..n]), key), Project(more, key), m);
      assert IncSum(Project(more, key), m) <= IncSum(Project([last], key), m) by {
        if more == [] { NothingCollected(ForKey(key)); }
      }
    }
  }

  lemma {:induction false} MaskedAll(pipe: seq<Command>, mask: seq<bool>)
    requires |mask| == |pipe| && forall b :: b in mask ==> b
    ensures Masked(pipe, mask) == pipe
  {
    if pipe != [] {
      var n := |pipe| - 1;
      assert forall b :: b in mask[..n] ==> b in mask;
      MaskedAll(pipe[..n], mask[..n]);
      assert mask[n] in mask;
    }
  }

  lemma {:induction false} IncsSum(order: seq<string>, delta: Counts, window: bool, now: int, m: string)
    requires NoRepeats(order) && forall x :: x in order ==> x in delta
    ensures IncSum(Incs(order, delta, window, now), m) == if m in order then delta[m] else 0
    ensures forall c :: c in Incs(order, delta, window, now) ==> c.ZIncrBy? || c.ZAdd?
  {
    if order != [] {
      var init, last := order[..|order| - 1], order[|order| - 1];
      assert forall x :: x in order <==> x in init || x == last;
      IncsSum(init, delta, window, now, m);
      var more := [ZIncrBy(last, delta[last])] + if window then [ZAdd(last, now)] else [];
      assert Incs(order, delta, window, now) == Incs(init, delta, window, now) + more;
      IncSumConcat(Incs(init, delta, window, now), more, m);
      MoreSum(last, delta[last], window, now, m);
    }
  }

  lemma MoreSum(x: string, d: nat, window: bool, now: int, m: string)
    ensures IncSum([ZIncrBy(x, d)] + if window then [ZAdd(x, now)] else [], m) == if x == m then d else 0
  {
    SumOfOne(ZIncrBy(x, d), m);
    if window {
      SumOfOne(ZAdd(x, now), m);
      IncSumConcat([ZIncrBy(x, d)], [ZAdd(x, now)], m);
    } else {
      assert [ZIncrBy(x, d)] + [] == [ZIncrBy(x, d)];
    }
  }

  // The commands of a pipeline for one key add up to its deltas.
  lemma PipelineSum(cmds: seq<KeyCommand>, key: RankKey, delta: Counts, o: Options, now: int, m: string)
    requires IsKeyPipeline(cmds, key, delta, o, now)
    ensures IncSum(cmds, m) == At(delta, m)
    ensures !key.ValuesRank? ==> forall c :: c in cmds ==> !c.ZRemRangeByRank?
  {
    if delta != map[] {
      hide IsKeyPipeline, IsBody;
      var body := BodyOf(cmds, key, delta, o, now);
      BodySum(body, key, delta, o, now, m);
      IncSumConcat(body, if o.window then [Register] else [], m);
      SumOfOne(Register, m);
    }
  }

  lemma BodySum(body: seq<KeyCommand>, key: RankKey, delta: Counts, o: Options, now: int, m: string)
    requires IsBody(body, key, delta, o, now)
    ensures IncSum(body, m) == At(delta, m)
    ensures !key.ValuesRank? ==> forall c :: c in body ==> !c.ZRemRangeByRank?
  {
    hide IsBody, Incs, IncSum, NoRepeats;
    var order, last := BodyParts(body, key, delta, o, now);
    IncsSum(order, delta, o.window, now, m);
    IncSumConcat(Incs(order, delta, o.window, now), [last], m);
    SumOfOne(last, m);
  }

  lemma BodyParts(body: seq<KeyCommand>, key: RankKey, delta: Counts, o: Options, now: int)
    returns (order: seq<string>, last: KeyCommand)
    requires IsBody(body, key, delta, o, now)
    ensures NoRepeats(order) && forall m :: m in order <==> m in delta
    ensures body == Incs(order, delta, o.window, now) + [last]
    ensures last == if key.ValuesRank? then ZRemRangeByRank(TrimStop(o.topN)) else SAdd(delta.Keys)
  {
    hide Incs, NoRepeats, TrimStop;
    order :| IsOrder(order, delta) && (forall m :: m in order ==> m in delta)
      && body == Body(order, key, delta, o, now);
    assert forall m :: m in order <==> m in Elements(order);
    last := if key.ValuesRank? then ZRemRangeByRank(TrimStop(o.topN)) else SAdd(delta.Keys);
  }

  lemma SumOfOne(c: KeyCommand, m: string)
    ensures IncSum([c], m) == IncOf(c, m) && IncSum([], m) == 0
  {
    assert [c][..0] == [];
  }

  // ----- several pods and one Redis -----

  // The read half of a sweep of one key, whose delete half is still to come.
  datatype Sweeping = Sweeping(key: RankKey, dead: set<string>, cutoff: int)

  datatype World = World(pods: seq<Agg>, redis: RedisState, clock: int, sweeps: seq<Sweeping>)

  datatype Event =
    | Observe(pod: nat, span: Span)
    | Flush(pod: nat, pipe: seq<Command>, mask: seq<bool>)
    | ReadDead(key: RankKey)
    | DeleteDead(sweep: nat)
    | Later(clock: int)

  ghost predicate Allowed(w: World, e: Event, o: Options) {
    match e
    case Observe(pod, _) => pod < |w.pods|
    case Flush(pod, pipe, mask) => pod < |w.pods| && |mask| == |pipe| && IsPipeline(pipe, w.pods[pod], o, w.clock)
    case ReadDead(key) => o.window && KeyAt(w.redis, key).registered
    case DeleteDead(i) => i < |w.sweeps|
    case Later(clock) => w.clock <= clock
  }

  ghost function Next(w: World, e: Event, o: Options): World
    requires Allowed(w, e, o)
  {
    match e
    case Observe(pod, sp) => w.(pods := w.pods[pod := SpanObserved(w.pods[pod], o, sp)])
    case Flush(pod, pipe, mask) => w.(pods := w.pods[pod := EMPTY], redis := Exec(w.redis, Masked(pipe, mask)))
    case ReadDead(key) =>
      var cutoff := w.clock - o.windowSize;
      w.(sweeps := w.sweeps + [Sweeping(key, Dead(KeyAt(w.redis, key), cutoff), cutoff)])
    case DeleteDead(i) =>
      var s := w.sweeps[i];
      w.(redis := w.redis.(keyed := w.redis.keyed[s.key := Evict(KeyAt(w.redis, s.key), s.key, s.dead, s.cutoff)]),
         sweeps := w.sweeps[..i] + w.sweeps[i + 1..])
    case Later(clock) => w.(clock := clock)
  }

  ghost predicate IsRun(w0: World, events: seq<Event>, o: Options)
    decreases |events|, 0
  {
    events == []
    || (IsRun(w0, events[..|events| - 1], o) && Allowed(After(w0, events[..|events| - 1], o), events[|events| - 1], o))
  }

  ghost function After(w0: World, events: seq<Event>, o: Options): World
    requires IsRun(w0, events, o)
    decreases |events|, 1
  {
    if events == [] then w0 else Next(After(w0, events[..|events| - 1], o), events[|events| - 1], o)
  }

  function Start(pods: nat, clock: int): World {
    World(seq(pods, i => EMPTY), RedisState(map[], {}, map[]), clock, [])
  }

  // The plain log: how often the observed spans show a member.
  function Seen(o: Options, events: seq<Event>, key: RankKey, m: string): nat {
    if events == [] then 0
    else
      Seen(o, events[..|events| - 1], key, m)
      + match events[|events| - 1] case Observe(_, sp) => Hits(o, key, sp, m) case _ => 0
  }

  function Pending(pods: seq<Agg>, key: RankKey, m: string): nat {
    if pods == [] then 0 else Pending(pods[..|pods| - 1], key, m) + At(Delta(pods[|pods| - 1], key), m)
  }

  function Score(w: World, key: RankKey, m: string): nat { At(KeyAt(w.redis, key).rank, m) }

  lemma {:induction false} PendingUpdate(pods: seq<Agg>, i: nat, a: Agg, key: RankKey, m: string)
    requires i < |pods|
    ensures Pending(pods[i := a], key, m) + At(Delta(pods[i], key), m) == Pending(pods, key, m) + At(Delta(a, key), m)
  {
    hide Delta, At;
    if i == |pods| - 1 {
      assert pods[i := a][..i] == pods[..i];
    } else {
      assert pods[i := a][..|pods| - 1] == pods[..|pods| - 1][i := a];
      PendingUpdate(pods[..|pods| - 1], i, a, key, m);
    }
  }

  lemma {:induction false} NothingPending(n: nat, clock: int, key: RankKey, m: string)
    ensures Pending(Start(n, clock).pods, key, m) == 0
  {
    if n > 0 {
      NothingPending(n - 1, clock, key, m);
      assert Start(n, clock).pods[..n - 1] == Start(n - 1, clock).pods;
    }
  }

  predicate Accepted(e: Event) { e.Flush? ==> forall b :: b in e.mask ==> b }

  // A flush turns pending deltas into scores, or loses some.
  lemma FlushScore(w: World, e: Event, o: Options, key: RankKey, m: string)
    requires e.Flush? && Allowed(w, e, o)
    ensures Score(Next(w, e, o), key, m) <= Score(w, key, m) + At(Delta(w.pods[e.pod], key), m)
    ensures Accepted(e) && !key.ValuesRank? ==>
              Score(Next(w, e, o), key, m) == Score(w, key, m) + At(Delta(w.pods[e.pod], key), m)
  {
    var delta := Delta(w.pods[e.pod], key);
    var full, part := Project(e.pipe, key), Project(Masked(e.pipe, e.mask), key);
    assert IsKeyPipeline(full, key, delta, o, w.clock);
    hide IsPipeline, IsKeyPipeline;
    ExecLocal(w.redis, Masked(e.pipe, e.mask), key);
    RunAdds(KeyAt(w.redis, key), part, m);
    MaskedSum(e.pipe, e.mask, key, m);
    PipelineSum(full, key, delta, o, w.clock, m);
    if Accepted(e) {
      MaskedAll(e.pipe, e.mask);
    }
    hide Project, Masked, Exec, RunKey, IncSum, Delta;
  }

  // Evicting never raises a score.
  lemma EvictLowers(w: World, e: Event, o: Options, key: RankKey, m: string)
    requires e.DeleteDead? && Allowed(w, e, o)
    ensures Score(Next(w, e, o), key, m) <= Score(w, key, m)
  {}

  lemma NextTotal(w: World, e: Event, o: Options, key: RankKey, m: string)
    requires Allowed(w, e, o)
    ensures var w' := Next(w, e, o);
            var more := if e.Observe? then Hits(o, key, e.span, m) else 0;
            && Score(w', key, m) + Pending(w'.pods, key, m) <= Score(w, key, m) + Pending(w.pods, key, m) + more
            && (Accepted(e) && !e.DeleteDead? && !key.ValuesRank? ==>
                  Score(w', key, m) + Pending(w'.pods, key, m) == Score(w, key, m) + Pending(w.pods, key, m) + more)
  {
    hide IsPipeline, Project, Masked, Exec, Delta, SpanObserved, Hits, Pending;
    match e
    case Observe(pod, sp) =>
      SpanDelta(w.pods[pod], o, key, sp, m);
      PendingUpdate(w.pods, pod, SpanObserved(w.pods[pod], o, sp), key, m);
    case Flush(pod, pipe, mask) =>
      FlushScore(w, e, o, key, m);
      PendingUpdate(w.pods, pod, EMPTY, key, m);
      EmptyDelta(key, m);
    case ReadDead(_) =>
    case DeleteDead(i) => EvictLowers(w, e, o, key, m);
    case Later(_) =>
  }

  lemma EmptyDelta(key: RankKey, m: string)
    ensures At(Delta(EMPTY, key), m) == 0
  {}

  // Redis and the pods together never hold more than the spans showed, whatever
  // flushes fail, values are trimmed and members are swept.
  lemma {:induction false} NeverTooMany(n: nat, clock: int, events: seq<Event>, o: Options, key: RankKey, m: string)
    requires IsRun(Start(n, clock), events, o)
    ensures var w := After(Start(n, clock), events, o);
            Score(w, key, m) + Pending(w.pods, key, m) <= Seen(o, events, key, m)
  {
    hide Next, Allowed, Score, Pending, Hits, Start;
    if events == [] {
      NothingAtStart(n, clock, key, m);
    } else {
      var init, last := events[..|events| - 1], events[|events| - 1];
      NeverTooMany(n, clock, init, o, key, m);
      NextTotal(After(Start(n, clock), init, o), last, o, key, m);
    }
  }

  lemma NothingAtStart(n: nat, clock: int, key: RankKey, m: string)
    ensures Score(Start(n, clock), key, m) == 0 && Pending(Start(n, clock).pods, key, m) == 0
  {
    NothingPending(n, clock, key, m);
  }

  // Services and operations are conserved: with flushes that succeed and no
  // sweep, the rank plus all pending deltas is the number of spans seen.
  lemma {:induction false} NamesConserved(n: nat, clock: int, events: seq<Event>, o: Options, key: RankKey, m: string)
    requires IsRun(Start(n, clock), events, o) && !key.ValuesRank?
    requires forall e :: e in events ==> Accepted(e) && !e.DeleteDead?
    ensures var w := After(Start(n, clock), events, o);
            Score(w, key, m) + Pending(w.pods, key, m) == Seen(o, events, key, m)
  {
    hide Next, Allowed, Score, Pending, Hits, Start;
    if events == [] {
      NothingAtStart(n, clock, key, m);
    } else {
      var init, last := events[..|events| - 1], events[|events| - 1];
      assert last in events && forall e :: e in init ==> e in events;
      NamesConserved(n, clock, init, o, key, m);
      NextTotal(After(Start(n, clock), init, o), last, o, key, m);
    }
  }

  // ----- tracked values within the limits -----

  // The commands of a pipeline whose members all lie in seen.
  ghost predicate Narrow(cmds: seq<KeyCommand>, seen: set<string>, topN: int) {
    forall c :: c in cmds ==> (c.ZIncrBy? ==> c.member in seen) && (c.ZRemRangeByRank? ==> c.stop == TrimStop(topN))
  }

  lemma {:induction false} RunExact(ks: KeyState, cmds: seq<KeyCommand>, seen: set<string>, topN: int, m: string)
    requires Narrow(cmds, seen, topN) && ks.rank.Keys <= seen && |seen| <= topN
    ensures RunKey(ks, cmds).rank.Keys <= seen
    ensures At(RunKey(ks, cmds).rank, m) == At(ks.rank, m) + IncSum(cmds, m)
  {
    if cmds != [] {
      var init, last := cmds[..|cmds| - 1], cmds[|cmds| - 1];
      assert last in cmds && forall c :: c in init ==> c in cmds;
      RunExact(ks, init, seen, topN, m);
      if last.ZRemRangeByRank? {
        var rank := RunKey(ks, init).rank;
        SubsetIsSmaller(rank.Keys, seen);
        assert |rank| == |rank.Keys|;
        assert RemoveRange(rank, last.stop) == rank;
      }
    }
  }

  lemma PipelineNarrow(cmds: seq<KeyCommand>, key: RankKey, delta: Counts, o: Options, now: int, seen: set<string>)
    requires IsKeyPipeline(cmds, key, delta, o, now) && delta.Keys <= seen
    ensures Narrow(cmds, seen, o.topN)
  {
    if delta != map[] {
      hide IsKeyPipeline, IsBody, Incs;
      var body := BodyOf(cmds, key, delta, o, now);
      var order, last := BodyParts(body, key, delta, o, now);
      IncsNarrow(order, delta, o.window, now);
    }
  }

  lemma {:induction false} IncsNarrow(order: seq<string>, delta: Counts, window: bool, now: int)
    requires forall x :: x in order ==> x in delta
    ensures forall c :: c in Incs(order, delta, window, now) ==>
              (c.ZIncrBy? ==> c.member in delta) && !c.ZRemRangeByRank?
  {
    if order != [] {
      IncsNarrow(order[..|order| - 1], delta, window, now);
    }
  }

  // All values of a key that are pending or ranked lie in seen.
  ghost predicate Bounded(w: World, key: RankKey, seen: set<string>) {
    && KeyAt(w.redis, key).rank.Keys <= seen
    && forall i :: 0 <= i < |w.pods| ==> Delta(w.pods[i], key).Keys <= seen
  }

  lemma FlushExact(w: World, e: Event, o: Options, key: RankKey, seen: set<string>, m: string)
    requires e.Flush? && Allowed(w, e, o) && Accepted(e) && Bounded(w, key, seen) && |seen| <= o.topN
    ensures Score(Next(w, e, o), key, m) == Score(w, key, m) + At(Delta(w.pods[e.pod], key), m)
    ensures Bounded(Next(w, e, o), key, seen)
  {
    var delta, full := Delta(w.pods[e.pod], key), Project(e.pipe, key);
    assert IsKeyPipeline(full, key, delta, o, w.clock);
    MaskedAll(e.pipe, e.mask);
    EmptyKeys(key);
    hide IsPipeline, IsKeyPipeline, Delta, Project, Exec, Masked;
    ExecLocal(w.redis, e.pipe, key);
    PipelineNarrow(full, key, delta, o, w.clock, seen);
    PipelineSum(full, key, delta, o, w.clock, m);
    RunExact(KeyAt(w.redis, key), full, seen, o.topN, m);
  }

  lemma EmptyKeys(key: RankKey)
    ensures Delta(EMPTY, key).Keys == {}
  {}

  lemma NextExact(w: World, e: Event, o: Options, key: RankKey, seen: set<string>, m: string)
    requires Allowed(w, e, o) && Accepted(e) && !e.DeleteDead? && Bounded(w, key, seen)
    requires |seen| <= o.topN && |seen| <= o.maxDistinct && key.ValuesRank?
    requires e.Observe? ==> Within(o, key, Attributes(e.span), seen)
    ensures Bounded(Next(w, e, o), key, seen)
    ensures var w' := Next(w, e, o);
            Score(w', key, m) + Pending(w'.pods, key, m)
            == Score(w, key, m) + Pending(w.pods, key, m) + if e.Observe? then Hits(o, key, e.span, m) else 0
  {
    hide IsPipeline, Project, Masked, Exec, Delta, SpanObserved, Hits, Pending, Attributes, Within;
    match e
    case Observe(pod, sp) =>
      SpanExact(w.pods[pod], o, key, sp, seen, m);
      PendingUpdate(w.pods, pod, SpanObserved(w.pods[pod], o, sp), key, m);
    case Flush(pod, pipe, mask) =>
      FlushExact(w, e, o, key, seen, m);
      PendingUpdate(w.pods, pod, EMPTY, key, m);
      EmptyDelta(key, m);
    case ReadDead(_) =>
    case DeleteDead(i) =>
    case Later(_) =>
  }

  // Tracked values are conserved too while their distinct values stay within
  // the limits of the aggregate and of the rank.
  lemma {:induction false} ValuesConserved(
    n: nat, clock: int, events: seq<Event>, o: Options, key: RankKey, seen: set<string>, m: string)
    requires IsRun(Start(n, clock), events, o) && key.ValuesRank?
    requires forall e :: e in events ==> Accepted(e) && !e.DeleteDead?
    requires forall e :: e in events && e.Observe? ==> Within(o, key, Attributes(e.span), seen)
    requires |seen| <= o.topN && |seen| <= o.maxDistinct
    ensures var w := After(Start(n, clock), events, o);
            Bounded(w, key, seen) && Score(w, key, m) + Pending(w.pods, key, m) == Seen(o, events, key, m)
  {
    hide Next, Allowed, Score, Pending, Hits, Start, Bounded, Within, Attributes;
    if events == [] {
      NothingAtStart(n, clock, key, m);
      BoundedAtStart(n, clock, key, seen);
    } else {
      var init, last := events[..|events| - 1], events[|events| - 1];
      assert last in events && forall e :: e in init ==> e in events;
      ValuesConserved(n, clock, init, o, key, seen, m);
      NextExact(After(Start(n, clock), init, o), last, o, key, seen, m);
    }
  }

  lemma BoundedAtStart(n: nat, clock: int, key: RankKey, seen: set<string>)
    ensures Bounded(Start(n, clock), key, seen)
  {
    EmptyKeys(key);
  }

  // ----- the trim -----

  lemma {:induction false} DropsLowest(rank: Counts, k: nat, kept: string, gone: string)
    requires k <= |rank| && kept in DropLowest(rank, k) && gone in rank && gone !in DropLowest(rank, k)
    ensures kept in rank && RanksBelow(rank, gone, kept)
    decreases k
  {
    DropLowers(rank, k);
    if k > 0 && gone != Lowest(rank) {
      DropsLowest(rank - {Lowest(rank)}, k - 1, kept, gone);
    }
  }

  // The trim keeps the n highest members with their scores: none that it keeps
  // ranks below one that it removes.
  lemma TrimKeepsTop(rank: Counts, n: nat)
    ensures var kept := RemoveRange(rank, TrimStop(n));
            && |kept| == (if |rank| < n then |rank| else n)
            && kept.Keys <= rank.Keys && (forall m :: m in kept ==> kept[m] == rank[m])
            && forall k, g :: k in kept && g in rank && g !in kept ==> RanksBelow(rank, g, k) && rank[g] <= rank[k]
  {
    var kept := RemoveRange(rank, TrimStop(n));
    RemoveLowers(rank, TrimStop(n));
    var drop := if |rank| <= n then 0 else |rank| - n;
    DropLowers(rank, drop);
    forall k, g | k in kept && g in rank && g !in kept ensures RanksBelow(rank, g, k) && rank[g] <= rank[k] {
      DropsLowest(rank, drop, k, g);
    }
  }

  // ----- what an accepted flush does to one key -----

  function Added(rank: Counts, delta: Counts): Counts {
    map m | m in rank.Keys + delta.Keys :: At(rank, m) + At(delta, m)
  }

  function Stamped(ts: map<string, int>, members: set<string>, now: int): map<string, int> {
    map m | m in ts.Keys + members :: if m in members then now else ts[m]
  }

  // The state of a key after its deltas were flushed.
  function Flushed(ks: KeyState, key: RankKey, delta: Counts, o: Options, now: int): KeyState {
    KeyState(
      if key.ValuesRank? then RemoveRange(Added(ks.rank, delta), TrimStop(o.topN)) else Added(ks.rank, delta),
      if key.ValuesRank? then ks.members else ks.members + delta.Keys,
      if o.window then Stamped(ks.ts, delta.Keys, now) else ks.ts,
      ks.registered || o.window)
  }

  ghost function Part(delta: Counts, order: seq<string>): Counts {
    map m | m in delta && m in order :: delta[m]
  }

  lemma {:induction false} RunConcat(ks: KeyState, a: seq<KeyCommand>, b: seq<KeyCommand>)
    ensures RunKey(ks, a + b) == RunKey(RunKey(ks, a), b)
  {
    if b == [] {
      assert a + b == a;
    } else {
      assert (a + b)[..|a + b| - 1] == a + b[..|b| - 1];
      RunConcat(ks, a, b[..|b| - 1]);
    }
  }

  lemma {:induction false} IncsRun(ks: KeyState, order: seq<string>, delta: Counts, window: bool, now: int)
    requires NoRepeats(order) && forall x :: x in order ==> x in delta
    ensures RunKey(ks, Incs(order, delta, window, now))
         == ks.(rank := Added(ks.rank, Part(delta, order)),
                ts := if window then Stamped(ks.ts, Elements(order), now) else ks.ts)
  {
    hide *;
    if order == [] {
      NoIncs(ks, delta, window, now);
    } else {
      var init, last := order[..|order| - 1], order[|order| - 1];
      assert order == init + [last];
      LastIsNew(init, last);
      IncsRun(ks, init, delta, window, now);
      IncsNext(init, last, delta, window, now);
      AddedNext(ks.rank, delta, init, last);
      StampedNext(ks.ts, init, last, now);
      var before := RunKey(ks, Incs(init, delta, window, now));
      var more := [ZIncrBy(last, delta[last])] + if window then [ZAdd(last, now)] else [];
      RunConcat(ks, Incs(init, delta, window, now), more);
      RunMore(before, last, delta[last], window, now);
    }
  }

  lemma LastIsNew(init: seq<string>, last: string)
    requires NoRepeats(init + [last])
    ensures last !in init && NoRepeats(init)
  {
    var all := init + [last];
    forall j | 0 <= j < |init| ensures init[j] != last {
      assert all[j] != all[|init|];
    }
    forall i, j | 0 <= i < j < |init| ensures init[i] != init[j] {
      assert all[i] != all[j];
    }
  }

  lemma NoIncs(ks: KeyState, delta: Counts, window: bool, now: int)
    ensures RunKey(ks, Incs([], delta, window, now))
         == ks.(rank := Added(ks.rank, Part(delta, [])),
                ts := if window then Stamped(ks.ts, Elements([]), now) else ks.ts)
  {
    assert Added(ks.rank, Part(delta, [])) == ks.rank && Stamped(ks.ts, Elements([]), now) == ks.ts;
  }

  lemma AddedNext(rank: Counts, delta: Counts, init: seq<string>, last: string)
    requires last !in init && last in delta
    ensures Added(rank, Part(delta, init + [last]))
         == Added(rank, Part(delta, init))[last := At(Added(rank, Part(delta, init)), last) + delta[last]]
  {
    assert Part(delta, init + [last]) == Part(delta, init)[last := delta[last]];
    assert last !in Part(delta, init);
    hide Part;
    AddedOne(rank, Part(delta, init), last, delta[last]);
  }

  lemma AddedOne(rank: Counts, p: Counts, last: string, d: nat)
    requires last !in p
    ensures Added(rank, p[last := d]) == Added(rank, p)[last := At(Added(rank, p), last) + d]
  {
    var a, b := Added(rank, p[last := d]), Added(rank, p)[last := At(Added(rank, p), last) + d];
    assert a.Keys == b.Keys;
    forall m | m in a.Keys ensures a[m] == b[m] {}
  }

  lemma StampedNext(ts: map<string, int>, init: seq<string>, last: string, now: int)
    ensures Stamped(ts, Elements(init + [last]), now) == Stamped(ts, Elements(init), now)[last := now]
  {
    assert Elements(init + [last]) == Elements(init) + {last};
  }

  lemma RunMore(ks: KeyState, m: string, d: nat, window: bool, now: int)
    ensures RunKey(ks, [ZIncrBy(m, d)] + if window then [ZAdd(m, now)] else [])
         == ks.(rank := ks.rank[m := At(ks.rank, m) + d], ts := if window then ks.ts[m := now] else ks.ts)
  {
    var first := ZIncrBy(m, d);
    RunOne(ks, first);
    IncrEffect(ks, m, d);
    hide *;
    if window {
      RunConcat(ks, [first], [ZAdd(m, now)]);
      RunOne(RunKey(ks, [first]), ZAdd(m, now));
      StampEffect(RunKey(ks, [first]), m, now);
    } else {
      assert [first] + [] == [first];
    }
  }

  lemma IncrEffect(ks: KeyState, m: string, d: nat)
    ensures Apply(ks, ZIncrBy(m, d)) == ks.(rank := ks.rank[m := At(ks.rank, m) + d])
  {}

  lemma StampEffect(ks: KeyState, m: string, now: int)
    ensures Apply(ks, ZAdd(m, now)) == ks.(ts := ks.ts[m := now])
  {}

  lemma RunOne(ks: KeyState, c: KeyCommand)
    ensures RunKey(ks, [c]) == Apply(ks, c)
  {
    assert [c][..0] == [];
  }

  // In whatever order its members were enumerated, an accepted pipeline adds
  // all deltas, then trims.
  lemma PipelineEffect(ks: KeyState, cmds: seq<KeyCommand>, key: RankKey, delta: Counts, o: Options, now: int)
    requires IsKeyPipeline(cmds, key, delta, o, now)
    ensures RunKey(ks, cmds) == if delta == map[] then ks else Flushed(ks, key, delta, o, now)
  {
    hide *;
    if delta == map[] {
      NoCommands(cmds, key, o, now, ks);
    } else {
      var body := BodyOf(cmds, key, delta, o, now);
      var order, last := BodyParts(body, key, delta, o, now);
      IncsRun(ks, order, delta, o.window, now);
      WholePart(delta, order);
      RunConcat(ks, Incs(order, delta, o.window, now), [last]);
      RunOne(RunKey(ks, Incs(order, delta, o.window, now)), last);
      LastEffect(ks, last, key, delta, o, now);
      if o.window {
        RunConcat(ks, body, [Register]);
        RunOne(RunKey(ks, body), Register);
        RegisterEffect(RunKey(ks, body));
        FlushedRegistered(ks, key, delta, o, now);
      } else {
        assert body + [] == body;
        FlushedRegistered(ks, key, delta, o, now);
      }
    }
  }

  lemma NoCommands(cmds: seq<KeyCommand>, key: RankKey, o: Options, now: int, ks: KeyState)
    requires IsKeyPipeline(cmds, key, map[], o, now)
    ensures RunKey(ks, cmds) == ks
  {}

  lemma BodyOf(cmds: seq<KeyCommand>, key: RankKey, delta: Counts, o: Options, now: int) returns (body: seq<KeyCommand>)
    requires IsKeyPipeline(cmds, key, delta, o, now) && delta != map[]
    ensures IsBody(body, key, delta, o, now) && cmds == body + if o.window then [Register] else []
  {
    hide IsBody;
    body :| IsBody(body, key, delta, o, now) && cmds == body + if o.window then [Register] else [];
  }

  lemma RegisterEffect(ks: KeyState)
    ensures Apply(ks, Register) == ks.(registered := true)
  {}

  lemma FlushedRegistered(ks: KeyState, key: RankKey, delta: Counts, o: Options, now: int)
    ensures Flushed(ks, key, delta, o, now)
         == Flushed(ks, key, delta, o, now).(registered := ks.registered).(registered := ks.registered || o.window)
  {}

  lemma WholePart(delta: Counts, order: seq<string>)
    requires forall m :: m in order <==> m in delta
    ensures Part(delta, order) == delta && Elements(order) == delta.Keys
  {}

  lemma LastEffect(ks: KeyState, last: KeyCommand, key: RankKey, delta: Counts, o: Options, now: int)
    requires last == if key.ValuesRank? then ZRemRangeByRank(TrimStop(o.topN)) else SAdd(delta.Keys)
    ensures Apply(ks.(rank := Added(ks.rank, delta),
                      ts := if o.window then Stamped(ks.ts, delta.Keys, now) else ks.ts), last)
         == Flushed(ks, key, delta, o, now).(registered := ks.registered)
  {
    hide Added, Stamped, RemoveRange, TrimStop;
  }

  // ----- window mode -----

  // Ranked members have a last-seen time, the companion set of services and
  // operations holds the ranked members, and a ranked key is known to the sweep.
  ghost predicate Tracked(ks: KeyState, key: RankKey) {
    && ks.rank.Keys <= ks.ts.Keys
    && (!key.ValuesRank? ==> ks.members == ks.rank.Keys)
    && (ks.rank != map[] ==> ks.registered)
  }

  // A read half: whatever is still older than its cutoff was found dead, and
  // the cutoff has passed.
  ghost predicate Covered(ks: KeyState, s: Sweeping, clock: int) {
    s.cutoff <= clock && forall m :: m in ks.ts && ks.ts[m] < s.cutoff ==> m in s.dead
  }

  ghost predicate Windowed(w: World) {
    && (forall key :: Tracked(KeyAt(w.redis, key), key))
    && (forall i :: 0 <= i < |w.sweeps| ==> Covered(KeyAt(w.redis, w.sweeps[i].key), w.sweeps[i], w.clock))
  }

  lemma FlushTracks(ks: KeyState, key: RankKey, delta: Counts, o: Options, now: int)
    requires o.window && Tracked(ks, key)
    ensures Tracked(Flushed(ks, key, delta, o, now), key)
    ensures forall s :: Covered(ks, s, now) ==> Covered(Flushed(ks, key, delta, o, now), s, now)
  {
    if key.ValuesRank? {
      RemoveLowers(Added(ks.rank, delta), TrimStop(o.topN));
    }
    hide RemoveRange;
  }

  lemma EvictTracks(ks: KeyState, key: RankKey, s: Sweeping, clock: int)
    requires Tracked(ks, key) && Covered(ks, s, clock)
    ensures Tracked(Evict(ks, key, s.dead, s.cutoff), key)
    ensures forall s', c :: Covered(ks, s', c) ==> Covered(Evict(ks, key, s.dead, s.cutoff), s', c)
    ensures forall m :: m in Evict(ks, key, s.dead, s.cutoff).rank ==> ks.ts[m] >= s.cutoff
  {}

  // Pipelines are carried out whole or not at all.
  ghost predicate Atomic(e: Event) {
    e.Flush? ==> (forall b :: b in e.mask ==> b) || (forall b :: b in e.mask ==> !b)
  }

  lemma {:induction false} MaskedNone(pipe: seq<Command>, mask: seq<bool>)
    requires |mask| == |pipe| && forall b :: b in mask ==> !b
    ensures Masked(pipe, mask) == []
  {
    if pipe != [] {
      var n := |pipe| - 1;
      assert forall b :: b in mask[..n] ==> b in mask;
      MaskedNone(pipe[..n], mask[..n]);
      assert mask[n] in mask;
    }
  }

  // One flush of one pod, at one key.
  lemma FlushAtKey(w: World, e: Event, o: Options, key: RankKey)
    requires e.Flush? && Allowed(w, e, o) && Atomic(e)
    ensures var before, after := KeyAt(w.redis, key), KeyAt(Next(w, e, o).redis, key);
            after == before || after == Flushed(before, key, Delta(w.pods[e.pod], key), o, w.clock)
  {
    hide IsPipeline, Delta, Flushed, Exec;
    if Accepted(e) {
      AcceptedAtKey(w, e, o, key);
    } else {
      MaskedNone(e.pipe, e.mask);
      NothingRun(w.redis, []);
      assert Masked([], []) == [];
    }
  }

  // An accepted flush leaves at most topN values of each tracked key it touches:
  // the highest after its deltas were added, with their scores.
  lemma FlushKeepsTop(w: World, e: Event, o: Options, k: string)
    requires e.Flush? && Allowed(w, e, o) && Accepted(e) && o.topN > 0
    requires Delta(w.pods[e.pod], ValuesRank(k)) != map[]
    ensures var key := ValuesRank(k);
            var before, delta := KeyAt(w.redis, key).rank, Delta(w.pods[e.pod], key);
            var after := KeyAt(Next(w, e, o).redis, key).rank;
            && |after| == (if |before.Keys + delta.Keys| < o.topN then |before.Keys + delta.Keys| else o.topN)
            && after.Keys <= before.Keys + delta.Keys
            && (forall m :: m in after ==> after[m] == At(before, m) + At(delta, m))
            && forall m, gone :: m in after && gone in before.Keys + delta.Keys && gone !in after ==>
                 RanksBelow(Added(before, delta), gone, m) && At(before, gone) + At(delta, gone) <= after[m]
  {
    var key := ValuesRank(k);
    var before, delta := KeyAt(w.redis, key), Delta(w.pods[e.pod], key);
    AcceptedAtKey(w, e, o, key);
    TrimmedRank(before, k, delta, o, w.clock);
    AddedKeys(before.rank, delta);
    TrimKeepsTop(Added(before.rank, delta), o.topN);
  }

  lemma AcceptedAtKey(w: World, e: Event, o: Options, key: RankKey)
    requires e.Flush? && Allowed(w, e, o) && Accepted(e)
    ensures var delta := Delta(w.pods[e.pod], key);
            KeyAt(Next(w, e, o).redis, key)
            == if delta == map[] then KeyAt(w.redis, key) else Flushed(KeyAt(w.redis, key), key, delta, o, w.clock)
  {
    assert IsKeyPipeline(Project(e.pipe, key), key, Delta(w.pods[e.pod], key), o, w.clock);
    hide IsPipeline, IsKeyPipeline, Delta, Flushed, Project, Exec;
    MaskedAll(e.pipe, e.mask);
    ExecLocal(w.redis, e.pipe, key);
    PipelineEffect(KeyAt(w.redis, key), Project(e.pipe, key), key, Delta(w.pods[e.pod], key), o, w.clock);
  }

  lemma TrimmedRank(ks: KeyState, k: string, delta: Counts, o: Options, now: int)
    ensures Flushed(ks, ValuesRank(k), delta, o, now).rank == RemoveRange(Added(ks.rank, delta), TrimStop(o.topN))
  {
    hide RemoveRange, Added, TrimStop;
  }

  lemma AddedKeys(rank: Counts, delta: Counts)
    ensures Added(rank, delta).Keys == rank.Keys + delta.Keys
    ensures |Added(rank, delta)| == |rank.Keys + delta.Keys|
    ensures forall m :: m in Added(rank, delta) ==> Added(rank, delta)[m] == At(rank, m) + At(delta, m)
  {
    assert |Added(rank, delta)| == |Added(rank, delta).Keys|;
  }

  // No tracked key ever ranks more than topN values while every pipeline is
  // carried out whole or not at all.
  lemma {:induction false} RanksStayBounded(n: nat, clock: int, events: seq<Event>, o: Options, k: string)
    requires IsRun(Start(n, clock), events, o) && o.topN > 0
    requires forall e :: e in events ==> Atomic(e)
    ensures |KeyAt(After(Start(n, clock), events, o).redis, ValuesRank(k)).rank| <= o.topN
  {
    hide Next, Allowed, Atomic, Start;
    if events == [] {
      NoneRanked(n, clock, k);
    } else {
      var init, last := events[..|events| - 1], events[|events| - 1];
      assert last in events && forall e :: e in init ==> e in events;
      RanksStayBounded(n, clock, init, o, k);
      StepKeepsBound(After(Start(n, clock), init, o), last, o, k);
    }
  }

  lemma NoneRanked(n: nat, clock: int, k: string)
    ensures KeyAt(Start(n, clock).redis, ValuesRank(k)).rank == map[]
  {}

  lemma StepKeepsBound(w: World, e: Event, o: Options, k: string)
    requires Allowed(w, e, o) && Atomic(e) && o.topN > 0
    requires |KeyAt(w.redis, ValuesRank(k)).rank| <= o.topN
    ensures |KeyAt(Next(w, e, o).redis, ValuesRank(k)).rank| <= o.topN
  {
    hide Exec, IsPipeline, Masked, SpanObserved, Dead, Evict, Delta, Flushed, RemoveRange;
    match e
    case Observe(_, _) =>
    case Flush(pod, _, _) =>
      var key := ValuesRank(k);
      var before, delta := KeyAt(w.redis, key), Delta(w.pods[pod], key);
      FlushAtKey(w, e, o, key);
      TrimmedRank(before, k, delta, o, w.clock);
      TrimKeepsTop(Added(before.rank, delta), o.topN);
    case ReadDead(_) =>
    case DeleteDead(i) => EvictShrinks(KeyAt(w.redis, w.sweeps[i].key), w.sweeps[i]);
    case Later(_) =>
  }

  lemma EvictShrinks(ks: KeyState, s: Sweeping)
    ensures |Evict(ks, s.key, s.dead, s.cutoff).rank| <= |ks.rank|
  {
    var after := Evict(ks, s.key, s.dead, s.cutoff).rank;
    assert after.Keys <= ks.rank.Keys;
    SubsetIsSmaller(after.Keys, ks.rank.Keys);
    assert |after| == |after.Keys| && |ks.rank| == |ks.rank.Keys|;
  }

  lemma FlushWindowed(w: World, e: Event, o: Options)
    requires e.Flush? && Allowed(w, e, o) && Atomic(e) && o.window && Windowed(w)
    ensures Windowed(Next(w, e, o))
  {
    var w' := Next(w, e, o);
    forall key
      ensures Tracked(KeyAt(w'.redis, key), key)
      ensures forall s :: Covered(KeyAt(w.redis, key), s, w.clock) ==> Covered(KeyAt(w'.redis, key), s, w.clock)
    {
      hide Exec, IsPipeline, Masked, Delta, Flushed, Tracked, Covered;
      FlushAtKey(w, e, o, key);
      FlushTracks(KeyAt(w.redis, key), key, Delta(w.pods[e.pod], key), o, w.clock);
    }
    hide Exec, IsPipeline, Masked, Tracked, Covered;
  }

  lemma DeleteWindowed(w: World, e: Event, o: Options)
    requires e.DeleteDead? && Allowed(w, e, o) && Windowed(w)
    ensures Windowed(Next(w, e, o))
  {
    var s := w.sweeps[e.sweep];
    EvictTracks(KeyAt(w.redis, s.key), s.key, s, w.clock);
    hide Tracked, Covered, Evict;
    var w' := Next(w, e, o);
    forall key ensures Tracked(KeyAt(w'.redis, key), key) {
      assert Tracked(KeyAt(w.redis, key), key);
    }
    forall i | 0 <= i < |w'.sweeps| ensures Covered(KeyAt(w'.redis, w'.sweeps[i].key), w'.sweeps[i], w'.clock) {
      var j := if i < e.sweep then i else i + 1;
      assert w'.sweeps[i] == w.sweeps[j];
      assert Covered(KeyAt(w.redis, w.sweeps[j].key), w.sweeps[j], w.clock);
    }
  }

  lemma ReadWindowed(w: World, e: Event, o: Options)
    requires e.ReadDead? && Allowed(w, e, o) && Windowed(w) && o.windowSize > 0
    ensures Windowed(Next(w, e, o))
  {
    hide Tracked;
    var w' := Next(w, e, o);
    forall i | 0 <= i < |w'.sweeps| ensures Covered(KeyAt(w'.redis, w'.sweeps[i].key), w'.sweeps[i], w'.clock) {
      if i < |w.sweeps| {
        assert w'.sweeps[i] == w.sweeps[i];
      }
    }
  }

  lemma LaterWindowed(w: World, e: Event, o: Options)
    requires e.Later? && Allowed(w, e, o) && Windowed(w)
    ensures Windowed(Next(w, e, o))
  {
    hide Tracked;
    var w' := Next(w, e, o);
    forall i | 0 <= i < |w'.sweeps| ensures Covered(KeyAt(w'.redis, w'.sweeps[i].key), w'.sweeps[i], w'.clock) {
      assert Covered(KeyAt(w.redis, w.sweeps[i].key), w.sweeps[i], w.clock);
    }
  }

  // In window mode every reachable state keeps the ranks, the companion sets
  // and the last-seen times together, even between the halves of a sweep.
  lemma {:induction false} WindowKept(n: nat, clock: int, events: seq<Event>, o: Options)
    requires IsRun(Start(n, clock), events, o) && o.window && o.windowSize > 0
    requires forall e :: e in events ==> Atomic(e)
    ensures Windowed(After(Start(n, clock), events, o))
  {
    hide Next, Allowed, Windowed, Atomic, Start;
    if events == [] {
      WindowedAtStart(n, clock);
    } else {
      var init, last := events[..|events| - 1], events[|events| - 1];
      assert last in events && forall e :: e in init ==> e in events;
      WindowKept(n, clock, init, o);
      WindowStep(After(Start(n, clock), init, o), last, o);
    }
  }

  lemma WindowedAtStart(n: nat, clock: int)
    ensures Windowed(Start(n, clock))
  {}

  lemma WindowStep(w: World, e: Event, o: Options)
    requires Allowed(w, e, o) && Atomic(e) && Windowed(w) && o.window && o.windowSize > 0
    ensures Windowed(Next(w, e, o))
  {
    match e
    case Observe(_, _) => ObserveWindowed(w, e, o);
    case Flush(_, _, _) => FlushWindowed(w, e, o);
    case ReadDead(_) => ReadWindowed(w, e, o);
    case DeleteDead(_) => DeleteWindowed(w, e, o);
    case Later(_) => LaterWindowed(w, e, o);
  }

  lemma ObserveWindowed(w: World, e: Event, o: Options)
    requires e.Observe? && Allowed(w, e, o) && Windowed(w)
    ensures Windowed(Next(w, e, o))
  {
    hide Tracked, Covered, SpanObserved;
  }

  // The delete half of a sweep leaves no ranked member of its key that was last
  // seen before the cutoff, also when flushes ran since the read half. What
  // they revived goes too: exactly the members found dead leave the rank.
  lemma SweepLeavesNothingStale(w: World, e: Event, o: Options)
    requires Windowed(w) && e.DeleteDead? && Allowed(w, e, o)
    ensures var s := w.sweeps[e.sweep];
            var before, after := KeyAt(w.redis, s.key), KeyAt(Next(w, e, o).redis, s.key);
            && after.rank.Keys == before.rank.Keys - s.dead
            && forall m :: m in after.rank ==>
              m in after.ts && after.ts[m] >= s.cutoff && after.rank[m] == before.rank[m]
  {
    var s := w.sweeps[e.sweep];
    assert Tracked(KeyAt(w.redis, s.key), s.key);
    assert Covered(KeyAt(w.redis, s.key), s, w.clock);
  }

  // A whole sweep with nothing in between: exactly the members last seen before
  // the cutoff leave.
  lemma SweepIsExact(ks: KeyState, key: RankKey, cutoff: int)
    requires Tracked(ks, key)
    ensures var after := Swept(ks, key, cutoff);
            && Tracked(after, key)
            && forall m :: m in after.rank <==> m in ks.rank && ks.ts[m] >= cutoff
  {}
}
