// The autocomplete cache: spans are folded into an in-memory aggregate, which a
// flush drains into Redis with one pipeline; a sweep drops stale members.
module Autocomplete {
  import opened Problems
  import opened Sorting
  import opened Collecting

  // ----- options -----

  datatype Card = CardTrack | CardHLL | CardSkip

  datatype Options = Options(
    policy: string -> Card, topN: int, maxValLen: int, maxDistinct: int, window: bool, windowSize: int)

  predicate ValidOptions(o: Options) {
    o.topN > 0 && o.maxValLen > 0 && o.maxDistinct > 0 && o.windowSize > 0
  }

  function ApplyDefaults(o: Options): (r: Options)
    ensures ValidOptions(r)
    ensures ValidOptions(o) ==> r == o
  {
    o.(topN := if o.topN <= 0 then 1000 else o.topN,
       maxValLen := if o.maxValLen <= 0 then 256 else o.maxValLen,
       maxDistinct := if o.maxDistinct <= 0 then 50000 else o.maxDistinct,
       windowSize := if o.windowSize <= 0 then 86400 else o.windowSize)
  }

  // Without settings: the top thousand values of up to 256 characters, fifty
  // thousand of them pending, and a day.
  lemma DefaultOptions(policy: string -> Card, window: bool)
    ensures ApplyDefaults(Options(policy, 0, 0, 0, window, 0)) == Options(policy, 1000, 256, 50000, window, 86400)
  {}

  // ----- spans -----

  datatype Span = Span(
    service: string, name: string,
    httpMethod: string, httpRoute: string, httpStatus: nat, dbSystem: string,
    rpcSystem: string, rpcMethod: string, peerService: string, msgSystem: string,
    kind: string, hostName: string, deployEnv: string,
    attrKeys: seq<string>, attrValues: seq<string>, resKeys: seq<string>, resValues: seq<string>)

  function Decimal(n: nat): (s: string)
    ensures s != ""
  {
    var digit := ['0' + (n % 10) as char];
    if n < 10 then digit else Decimal(n / 10) + digit
  }

  // The attributes read from a span's own columns. An empty value stands for an
  // absent one.
  function Columns(sp: Span): seq<(string, string)> {
    [("http.method", sp.httpMethod),
     ("http.route", sp.httpRoute),
     ("http.status_code", if sp.httpStatus != 0 then Decimal(sp.httpStatus) else ""),
     ("db.system", sp.dbSystem),
     ("rpc.system", sp.rpcSystem),
     ("rpc.method", sp.rpcMethod),
     ("peer.service", sp.peerService),
     ("messaging.system", sp.msgSystem),
     ("kind", sp.kind),
     ("host.name", sp.hostName),
     ("deployment.environment", sp.deployEnv)]
  }

  predicate DedicatedHarvested(k: string) {
    || k == "http.method" || k == "http.route" || k == "http.status_code"
    || k == "db.system" || k == "rpc.system" || k == "rpc.method"
    || k == "peer.service" || k == "messaging.system" || k == "kind"
    || k == "host.name" || k == "deployment.environment"
  }

  // The first n entries of two parallel arrays, without the harvested keys and
  // the keys that have no value.
  function FreePairs(keys: seq<string>, values: seq<string>, n: nat): seq<(string, string)>
    requires n <= |keys|
  {
    if n == 0 then []
    else FreePairs(keys, values, n - 1)
         + if DedicatedHarvested(keys[n - 1]) || n > |values| then [] else [(keys[n - 1], values[n - 1])]
  }

  // Every (key, value) a span offers, in order.
  function Attributes(sp: Span): seq<(string, string)> {
    Columns(sp) + FreePairs(sp.attrKeys, sp.attrValues, |sp.attrKeys|)
      + FreePairs(sp.resKeys, sp.resValues, |sp.resKeys|)
  }

  // ----- the aggregate -----

  type Counts = map<string, nat>

  function At(counts: Counts, m: string): nat {
    if m in counts then counts[m] else 0
  }

  function Bump(counts: Counts, m: string): Counts {
    counts[m := At(counts, m) + 1]
  }

  datatype Agg = Agg(
    services: Counts, ops: map<string, Counts>, attrVals: map<string, Counts>,
    attrHLL: map<string, set<string>>, keys: set<string>)

  const EMPTY := Agg(map[], map[], map[], map[], {})

  function InnerCounts(m: map<string, Counts>, k: string): Counts {
    if k in m then m[k] else map[]
  }

  function InnerSet(m: map<string, set<string>>, k: string): set<string> {
    if k in m then m[k] else {}
  }

  predicate Kept(o: Options, key: string, val: string) {
    key != "" && val != "" && |val| <= o.maxValLen
  }

  function AttrObserved(a: Agg, o: Options, key: string, val: string): Agg {
    if !Kept(o, key, val) then a
    else
      var a := a.(keys := a.keys + {key});
      match o.policy(key)
      case CardTrack =>
        var m := InnerCounts(a.attrVals, key);
        a.(attrVals := a.attrVals[key := if val in m || |m| < o.maxDistinct then Bump(m, val) else m])
      case CardHLL =>
        var m := InnerSet(a.attrHLL, key);
        a.(attrHLL := a.attrHLL[key := if |m| < o.maxDistinct then m + {val} else m])
      case CardSkip => a
  }

  function AttrsObserved(a: Agg, o: Options, pairs: seq<(string, string)>): Agg {
    if pairs == [] then a
    else
      var last := pairs[|pairs| - 1];
      AttrObserved(AttrsObserved(a, o, pairs[..|pairs| - 1]), o, last.0, last.1)
  }

  function NamesObserved(a: Agg, sp: Span): Agg {
    if sp.service == "" then a
    else
      var a := a.(services := Bump(a.services, sp.service));
      if sp.name == "" then a
      else a.(ops := a.ops[sp.service := Bump(InnerCounts(a.ops, sp.service), sp.name)])
  }

  // The aggregate after one more span: the specification of ObserveSpan.
  function SpanObserved(a: Agg, o: Options, sp: Span): Agg {
    AttrsObserved(NamesObserved(a, sp), o, Attributes(sp))
  }

  lemma AttrsAppend(a: Agg, o: Options, pairs: seq<(string, string)>, k: string, v: string)
    ensures AttrsObserved(a, o, pairs + [(k, v)]) == AttrObserved(AttrsObserved(a, o, pairs), o, k, v)
  {
    assert (pairs + [(k, v)])[..|pairs|] == pairs;
  }

  lemma AttrsDone(a: Agg, o: Options, pairs: seq<(string, string)>, i: nat)
    requires i < |pairs|
    ensures AttrsObserved(a, o, pairs[..i + 1])
              == AttrObserved(AttrsObserved(a, o, pairs[..i]), o, pairs[i].0, pairs[i].1)
  {
    AttrsAppend(a, o, pairs[..i], pairs[i].0, pairs[i].1);
    assert pairs[..i + 1] == pairs[..i] + [(pairs[i].0, pairs[i].1)];
  }

  lemma NoAttrs(a: Agg, o: Options)
    ensures AttrsObserved(a, o, []) == a
  {}

  lemma FreePairsStep(keys: seq<string>, values: seq<string>, n: nat)
    requires n < |keys|
    ensures FreePairs(keys, values, n + 1)
         == FreePairs(keys, values, n)
            + if DedicatedHarvested(keys[n]) || n >= |values| then [] else [(keys[n], values[n])]
    ensures FreePairs(keys, values, 0) == []
  {}

  lemma NoValue(o: Options)
    ensures forall a, k :: AttrObserved(a, o, k, "") == a
  {}

  // The columns one after the other.
  lemma AttrsOfColumns(a: Agg, o: Options, sp: Span)
    ensures AttrsObserved(a, o, Columns(sp)) == ColumnsObserved(a, o, sp)
  {
    var c := Columns(sp);
    NoAttrs(a, o);
    hide AttrsObserved, AttrObserved;
    assert c[..0] == [] && c[..11] == c;
    AttrsDone(a, o, c, 0);
    AttrsDone(a, o, c, 1);
    AttrsDone(a, o, c, 2);
    AttrsDone(a, o, c, 3);
    AttrsDone(a, o, c, 4);
    AttrsDone(a, o, c, 5);
    AttrsDone(a, o, c, 6);
    AttrsDone(a, o, c, 7);
    AttrsDone(a, o, c, 8);
    AttrsDone(a, o, c, 9);
    AttrsDone(a, o, c, 10);
  }

  ghost function ColumnsObserved(a: Agg, o: Options, sp: Span): Agg {
    var a0 := a;
    var a1 := AttrObserved(a0, o, "http.method", sp.httpMethod);
    var a2 := AttrObserved(a1, o, "http.route", sp.httpRoute);
    var a3 := AttrObserved(a2, o, "http.status_code", if sp.httpStatus != 0 then Decimal(sp.httpStatus) else "");
    var a4 := AttrObserved(a3, o, "db.system", sp.dbSystem);
    var a5 := AttrObserved(a4, o, "rpc.system", sp.rpcSystem);
    var a6 := AttrObserved(a5, o, "rpc.method", sp.rpcMethod);
    var a7 := AttrObserved(a6, o, "peer.service", sp.peerService);
    var a8 := AttrObserved(a7, o, "messaging.system", sp.msgSystem);
    var a9 := AttrObserved(a8, o, "kind", sp.kind);
    var a10 := AttrObserved(a9, o, "host.name", sp.hostName);
    var a11 := AttrObserved(a10, o, "deployment.environment", sp.deployEnv);
    a11
  }

  class Store {
    const opt: Options
    var services: Counts
    var ops: map<string, Counts>
    var attrVals: map<string, Counts>
    var attrHLL: map<string, set<string>>
    var keys: set<string>

    constructor (o: Options)
      ensures opt == ApplyDefaults(o) && Current() == EMPTY && Valid()
    {
      opt := ApplyDefaults(o);
      services, ops, attrVals, attrHLL, keys := map[], map[], map[], map[], {};
    }

    ghost predicate Valid()
      reads this
    {
      ValidOptions(opt) && Tidy(Current())
    }

    function Current(): Agg
      reads this
    {
      Agg(services, ops, attrVals, attrHLL, keys)
    }

    method ObserveAttr(key: string, val: string)
      modifies this
      ensures Current() == AttrObserved(old(Current()), opt, key, val)
    {
      if key == "" || val == "" || |val| > opt.maxValLen {
        return;
      }
      keys := keys + {key};
      match opt.policy(key)
      case CardTrack =>
        var m := InnerCounts(attrVals, key);
        if val in m || |m| < opt.maxDistinct {
          m := m[val := At(m, val) + 1];
        }
        attrVals := attrVals[key := m];
      case CardHLL =>
        var m := InnerSet(attrHLL, key);
        if |m| < opt.maxDistinct {
          m := m + {val};
        }
        attrHLL := attrHLL[key := m];
      case CardSkip =>
    }

    method ObserveColumns(sp: Span)
      modifies this
      ensures Current() == AttrsObserved(old(Current()), opt, Columns(sp))
    {
      ghost var a := Current();
      AttrsOfColumns(a, opt, sp);
      NoValue(opt);
      hide AttrObserved, AttrsObserved, Columns, Decimal;
      ObserveAttr("http.method", sp.httpMethod);
      ObserveAttr("http.route", sp.httpRoute);
      if sp.httpStatus != 0 {
        ObserveAttr("http.status_code", Decimal(sp.httpStatus));
      }
      ObserveAttr("db.system", sp.dbSystem);
      ObserveAttr("rpc.system", sp.rpcSystem);
      ObserveAttr("rpc.method", sp.rpcMethod);
      ObserveAttr("peer.service", sp.peerService);
      ObserveAttr("messaging.system", sp.msgSystem);
      if sp.kind != "" {
        ObserveAttr("kind", sp.kind);
      }
      ObserveAttr("host.name", sp.hostName);
      ObserveAttr("deployment.environment", sp.deployEnv);
    }

    // Two order-aligned arrays; the keys that columns already gave are skipped.
    method ObserveArrays(ks: seq<string>, vs: seq<string>, ghost a: Agg, ghost before: seq<(string, string)>)
      requires Current() == AttrsObserved(a, opt, before)
      modifies this
      ensures Current() == AttrsObserved(a, opt, before + FreePairs(ks, vs, |ks|))
    {
      hide *;
      assert before + [] == before;
      if |ks| > 0 { FreePairsStep(ks, vs, 0); } else { NoFreePairs(vs); }
      for i := 0 to |ks|
        invariant Current() == AttrsObserved(a, opt, before + FreePairs(ks, vs, i))
      {
        FreePairsStep(ks, vs, i);
        ghost var done := before + FreePairs(ks, vs, i);
        if DedicatedHarvested(ks[i]) {
          assert before + (FreePairs(ks, vs, i) + []) == done;
          continue;
        }
        if i < |vs| {
          AttrsAppend(a, opt, done, ks[i], vs[i]);
          assert before + (FreePairs(ks, vs, i) + [(ks[i], vs[i])]) == done + [(ks[i], vs[i])];
          ObserveAttr(ks[i], vs[i]);
        } else {
          assert before + (FreePairs(ks, vs, i) + []) == done;
        }
      }
    }

    method ObserveSpan(sp: Span)
      requires Valid()
      modifies this
      ensures Valid() && Current() == SpanObserved(old(Current()), opt, sp)
    {
      TidyKept(Current(), opt, sp);
      assert ValidOptions(opt);
      if sp.service != "" {
        services := Bump(services, sp.service);
        if sp.name != "" {
          ops := ops[sp.service := Bump(InnerCounts(ops, sp.service), sp.name)];
        }
      }
      assert Current() == NamesObserved(old(Current()), sp);
      ghost var named := Current();
      hide *;
      ObserveColumns(sp);
      ObserveArrays(sp.attrKeys, sp.attrValues, named, Columns(sp));
      ghost var before := Columns(sp) + FreePairs(sp.attrKeys, sp.attrValues, |sp.attrKeys|);
      ObserveArrays(sp.resKeys, sp.resValues, named, before);
      SpanObservedIs(old(Current()), opt, sp);
      assert Valid() by { ValidIs(this); }
    }

    // Swap the aggregate out and run its pipeline. When the pipeline fails the
    // deltas are gone.
    method Flush(redis: Redis, now: int) returns (ok: bool, ghost pipe: seq<Command>, ghost mask: seq<bool>)
      requires Valid()
      modifies this, redis
      ensures Valid() && Current() == EMPTY
      ensures IsPipeline(pipe, old(Current()), opt, now) && |mask| == |pipe|
      ensures redis.state == Exec(old(redis.state), Masked(pipe, mask))
      ensures ok ==> forall b :: b in mask ==> b
    {
      var a := Current();
      services, ops, attrVals, attrHLL, keys := map[], map[], map[], map[], {};
      if a == EMPTY {
        EmptyPipeline(opt, now);
        NothingRun(redis.state, []);
        return true, [], [];
      }
      hide IsPipeline, Exec, Masked;
      var commands := BuildPipeline(a, opt, now);
      pipe := commands;
      ok, mask := redis.Run(commands);
    }

    // Drop what was not seen within the window. Keys whose read or pipeline
    // fails are left for the next sweep.
    method Sweep(redis: Redis, now: int) returns (ghost complete: bool)
      requires opt.window
      modifies redis
      ensures forall key :: KeyAt(redis.state, key) == KeyAt(old(redis.state), key)
                         || KeyAt(redis.state, key) == Swept(KeyAt(old(redis.state), key), key, now - opt.windowSize)
      ensures complete ==> forall key :: KeyAt(old(redis.state), key).registered ==>
                KeyAt(redis.state, key) == Swept(KeyAt(old(redis.state), key), key, now - opt.windowSize)
      ensures redis.state.names == old(redis.state.names) && redis.state.hll == old(redis.state.hll)
    {
      complete := true;
      var cutoff := now - opt.windowSize;
      hide Swept;
      var todo := set key | key in redis.state.keyed && redis.state.keyed[key].registered;
      ghost var before := redis.state;
      while todo != {}
        invariant forall key :: key in todo ==> KeyAt(redis.state, key) == KeyAt(before, key)
        invariant forall key :: KeyAt(redis.state, key) == KeyAt(before, key)
                             || KeyAt(redis.state, key) == Swept(KeyAt(before, key), key, cutoff)
        invariant complete ==> forall key :: KeyAt(before, key).registered && key !in todo ==>
                    KeyAt(redis.state, key) == Swept(KeyAt(before, key), key, cutoff)
        invariant redis.state.names == before.names && redis.state.hll == before.hll
        decreases todo
      {
        var key :| key in todo;
        todo := todo - {key};
        var dead := Dead(KeyAt(redis.state, key), cutoff);
        var fails: bool := *;
        if fails || dead == {} {
          NothingDead(KeyAt(redis.state, key), key, cutoff);
          complete := complete && !fails;
          continue;
        }
        SweptIs(KeyAt(redis.state, key), key, cutoff);
        var kept := Evict(KeyAt(redis.state, key), key, dead, cutoff);
        redis.state := redis.state.(keyed := redis.state.keyed[key := kept]);
      }
    }
  }

  lemma ValidIs(s: Store)
    requires ValidOptions(s.opt) && Tidy(s.Current())
    ensures s.Valid()
  {}

  lemma EmptyPipeline(o: Options, now: int)
    ensures IsPipeline([], EMPTY, o, now)
  {
    forall key ensures Project([], key) == [] && Delta(EMPTY, key) == map[] {
      NothingCollected(ForKey(key));
    }
  }

  lemma TidyAttr(a: Agg, o: Options, key: string, val: string)
    requires Tidy(a) && ValidOptions(o)
    ensures Tidy(AttrObserved(a, o, key, val))
  {
    if Kept(o, key, val) && o.policy(key).CardTrack? {
      var m := InnerCounts(a.attrVals, key);
      assert val in Bump(m, val);
      assert m == map[] ==> |m| == 0;
    }
    if Kept(o, key, val) && o.policy(key).CardHLL? {
      assert val in InnerSet(a.attrHLL, key) + {val};
    }
  }

  lemma {:induction false} TidyAttrs(a: Agg, o: Options, pairs: seq<(string, string)>)
    requires Tidy(a) && ValidOptions(o)
    ensures Tidy(AttrsObserved(a, o, pairs))
  {
    if pairs != [] {
      var last := pairs[|pairs| - 1];
      TidyAttrs(a, o, pairs[..|pairs| - 1]);
      TidyAttr(AttrsObserved(a, o, pairs[..|pairs| - 1]), o, last.0, last.1);
    }
  }

  // A pipeline never has to add nothing to a set.
  lemma TidyKept(a: Agg, o: Options, sp: Span)
    requires Tidy(a) && ValidOptions(o)
    ensures Tidy(SpanObserved(a, o, sp))
  {
    assert Tidy(NamesObserved(a, sp)) by {
      var m := InnerCounts(a.ops, sp.service);
      assert sp.name in Bump(m, sp.name);
    }
    TidyAttrs(NamesObserved(a, sp), o, Attributes(sp));
  }

  lemma NoFreePairs(values: seq<string>)
    ensures FreePairs([], values, 0) == []
  {}

  lemma SpanObservedIs(a: Agg, o: Options, sp: Span)
    ensures SpanObserved(a, o, sp)
         == AttrsObserved(NamesObserved(a, sp), o,
              Columns(sp) + FreePairs(sp.attrKeys, sp.attrValues, |sp.attrKeys|)
              + FreePairs(sp.resKeys, sp.resValues, |sp.resKeys|))
  {}

  // ----- Redis -----

  // Every ranked key has a companion set (services and operations) and, in
  // window mode, a companion of last-seen times.
  datatype RankKey = ServicesRank | OpsRank(service: string) | ValuesRank(attr: string)

  datatype KeyState = KeyState(rank: Counts, members: set<string>, ts: map<string, int>, registered: bool)

  const COLD := KeyState(map[], {}, map[], false)

  datatype KeyCommand =
    | ZIncrBy(member: string, delta: nat)
    | ZAdd(member: string, now: int)
    | SAdd(members: set<string>)
    | ZRemRangeByRank(stop: int)
    | Register

  datatype Command =
    OnKey(key: RankKey, cmd: KeyCommand) | AddNames(names: set<string>) | PFAdd(attr: string, values: set<string>)

  datatype RedisState = RedisState(keyed: map<RankKey, KeyState>, names: set<string>, hll: map<string, set<string>>)

  // The order of a sorted set: by score, then by member.
  predicate RanksBelow(rank: Counts, a: string, b: string)
    requires a in rank && b in rank
  {
    rank[a] < rank[b] || (rank[a] == rank[b] && StringLess(a, b))
  }

  predicate IsLowest(rank: Counts, m: string) {
    m in rank && forall x :: x in rank && x != m ==> RanksBelow(rank, m, x)
  }

  lemma {:induction false} LowestExists(rank: Counts)
    requires rank != map[]
    ensures exists m :: IsLowest(rank, m)
    decreases |rank|
  {
    StringOrder();
    var m :| m in rank;
    var rest := rank - {m};
    assert forall x :: x in rank <==> x == m || x in rest.Keys;
    if rest == map[] {
      assert IsLowest(rank, m);
    } else {
      LowestExists(rest);
      var l :| IsLowest(rest, l);
      assert forall x :: x in rest && x != l ==> RanksBelow(rank, l, x);
      if RanksBelow(rank, m, l) {
        assert IsLowest(rank, m);
      } else {
        assert IsLowest(rank, l);
      }
    }
  }

  lemma LowestUnique(rank: Counts, a: string, b: string)
    requires IsLowest(rank, a) && IsLowest(rank, b)
    ensures a == b
  {
    StringOrder();
  }

  function Lowest(rank: Counts): (m: string)
    requires rank != map[]
    ensures IsLowest(rank, m)
  {
    LowestExists(rank);
    assert forall a, b :: IsLowest(rank, a) && IsLowest(rank, b) ==> a == b by {
      forall a, b | IsLowest(rank, a) && IsLowest(rank, b) ensures a == b { LowestUnique(rank, a, b); }
    }
    var m :| m in rank && IsLowest(rank, m);
    m
  }

  // Without its k lowest members.
  function DropLowest(rank: Counts, k: nat): Counts
    requires k <= |rank|
    decreases k
  {
    if k == 0 then rank else DropLowest(rank - {Lowest(rank)}, k - 1)
  }

  // The members of ascending ranks 0 to stop go; a negative stop counts from
  // the highest one.
  function RemoveRange(rank: Counts, stop: int): Counts {
    var last := if stop < 0 then |rank| + stop else stop;
    DropLowest(rank, if last < 0 then 0 else if last >= |rank| then |rank| else last + 1)
  }

  function TrimStop(n: int): int { -n - 1 }

  function Apply(ks: KeyState, c: KeyCommand): KeyState {
    match c
    case ZIncrBy(m, d) => ks.(rank := ks.rank[m := At(ks.rank, m) + d])
    case ZAdd(m, now) => ks.(ts := ks.ts[m := now])
    case SAdd(ms) => ks.(members := ks.members + ms)
    case ZRemRangeByRank(stop) => ks.(rank := RemoveRange(ks.rank, stop))
    case Register => ks.(registered := true)
  }

  function RunKey(ks: KeyState, cmds: seq<KeyCommand>): KeyState {
    if cmds == [] then ks else Apply(RunKey(ks, cmds[..|cmds| - 1]), cmds[|cmds| - 1])
  }

  function KeyAt(st: RedisState, key: RankKey): KeyState {
    if key in st.keyed then st.keyed[key] else COLD
  }

  function ExecOne(st: RedisState, c: Command): RedisState {
    match c
    case OnKey(key, cmd) => st.(keyed := st.keyed[key := Apply(KeyAt(st, key), cmd)])
    case AddNames(names) => st.(names := st.names + names)
    case PFAdd(attr, values) => st.(hll := st.hll[attr := InnerSet(st.hll, attr) + values])
  }

  function Exec(st: RedisState, pipe: seq<Command>): RedisState {
    if pipe == [] then st else ExecOne(Exec(st, pipe[..|pipe| - 1]), pipe[|pipe| - 1])
  }

  // The commands of a pipeline for one key.
  function ForKey(key: RankKey): Command -> Option<KeyCommand> {
    (c: Command) => if c.OnKey? && c.key == key then Some(c.cmd) else None
  }

  function Project(pipe: seq<Command>, key: RankKey): seq<KeyCommand> { Collect(pipe, ForKey(key)) }

  // What a pipeline does to one key depends on its commands for that key only.
  lemma {:induction false} ExecLocal(st: RedisState, pipe: seq<Command>, key: RankKey)
    ensures KeyAt(Exec(st, pipe), key) == RunKey(KeyAt(st, key), Project(pipe, key))
  {
    if pipe != [] {
      var init, last := pipe[..|pipe| - 1], pipe[|pipe| - 1];
      ExecLocal(st, init, key);
      if last.OnKey? && last.key == key {
        assert Project(pipe, key) == Project(init, key) + [last.cmd];
        assert Project(pipe, key)[..|Project(init, key)|] == Project(init, key);
      } else {
        assert Project(pipe, key) == Project(init, key);
      }
    }
  }

  class Redis {
    var state: RedisState

    constructor ()
      ensures state == RedisState(map[], {}, map[])
    {
      state := RedisState(map[], {}, map[]);
    }

    // A pipeline that fails may have been carried out in part.
    method Run(pipe: seq<Command>) returns (ok: bool, ghost mask: seq<bool>)
      modifies this
      ensures |mask| == |pipe| && state == Exec(old(state), Masked(pipe, mask))
      ensures ok ==> forall b :: b in mask ==> b
    {
      ok, mask := true, [];
      hide *;
      NothingRun(old(state), pipe);
      for i := 0 to |pipe|
        invariant |mask| == i && state == Exec(old(state), Masked(pipe[..i], mask))
        invariant ok ==> forall b :: b in mask ==> b
      {
        var done: bool := *;
        MaskedNext(old(state), pipe, i, mask, done);
        if done {
          state := ExecOne(state, pipe[i]);
        } else {
          ok := false;
        }
        mask := mask + [done];
      }
      assert pipe[..|pipe|] == pipe;
    }
  }

  ghost function Masked(pipe: seq<Command>, mask: seq<bool>): seq<Command>
    requires |mask| == |pipe|
  {
    if pipe == [] then []
    else Masked(pipe[..|pipe| - 1], mask[..|pipe| - 1]) + if mask[|pipe| - 1] then [pipe[|pipe| - 1]] else []
  }

  lemma NothingRun(st: RedisState, pipe: seq<Command>)
    ensures Exec(st, Masked(pipe[..0], [])) == st
  {}

  lemma MaskedNext(st: RedisState, pipe: seq<Command>, i: nat, mask: seq<bool>, done: bool)
    requires i < |pipe| && |mask| == i
    ensures var before := Exec(st, Masked(pipe[..i], mask));
            Exec(st, Masked(pipe[..i + 1], mask + [done])) == if done then ExecOne(before, pipe[i]) else before
  {
    var sofar := Masked(pipe[..i], mask);
    assert pipe[..i + 1][..i] == pipe[..i] && (mask + [done])[..i] == mask;
    assert Masked(pipe[..i + 1], mask + [done]) == sofar + if done then [pipe[i]] else [];
    if done {
      assert (sofar + [pipe[i]])[..|sofar|] == sofar;
    } else {
      assert sofar + [] == sofar;
    }
  }

  // ----- the pipeline of a flush -----

  function Delta(a: Agg, key: RankKey): Counts {
    match key
    case ServicesRank => a.services
    case OpsRank(svc) => InnerCounts(a.ops, svc)
    case ValuesRank(k) => InnerCounts(a.attrVals, k)
  }

  // No inner map or set of the aggregate is empty.
  ghost predicate Tidy(a: Agg) {
    && (forall svc :: svc in a.ops ==> a.ops[svc] != map[])
    && (forall k :: k in a.attrVals ==> a.attrVals[k] != map[])
    && (forall k :: k in a.attrHLL ==> a.attrHLL[k] != {})
  }

  ghost function Incs(order: seq<string>, delta: Counts, window: bool, now: int): seq<KeyCommand>
    requires forall m :: m in order ==> m in delta
  {
    if order == [] then []
    else
      var m := order[|order| - 1];
      Incs(order[..|order| - 1], delta, window, now) + [ZIncrBy(m, delta[m])] + if window then [ZAdd(m, now)] else []
  }

  ghost function Body(order: seq<string>, key: RankKey, delta: Counts, o: Options, now: int): seq<KeyCommand>
    requires forall m :: m in order ==> m in delta
  {
    Incs(order, delta, o.window, now)
    + if key.ValuesRank? then [ZRemRangeByRank(TrimStop(o.topN))] else [SAdd(delta.Keys)]
  }

  ghost predicate IsOrder(order: seq<string>, delta: Counts) {
    NoRepeats(order) && Elements(order) == delta.Keys
  }

  // One increment per member in some order, and the trim or the set members.
  ghost predicate IsBody(cmds: seq<KeyCommand>, key: RankKey, delta: Counts, o: Options, now: int) {
    exists order :: IsOrder(order, delta) && (forall m :: m in order ==> m in delta)
      && cmds == Body(order, key, delta, o, now)
  }

  ghost predicate IsKeyPipeline(cmds: seq<KeyCommand>, key: RankKey, delta: Counts, o: Options, now: int) {
    if delta == map[] then cmds == []
    else exists body :: IsBody(body, key, delta, o, now) && cmds == body + if o.window then [Register] else []
  }

  ghost function NamesIn(pipe: seq<Command>): set<string> {
    set c, n | c in pipe && c.AddNames? && n in c.names :: n
  }

  ghost function ValuesIn(pipe: seq<Command>, attr: string): set<string> {
    set c, v | c in pipe && c.PFAdd? && c.attr == attr && v in c.values :: v
  }

  // The specification of a pipeline: what it holds for every key, and the
  // attribute names and distinct values it adds.
  ghost predicate IsPipeline(pipe: seq<Command>, a: Agg, o: Options, now: int) {
    && (forall key :: IsKeyPipeline(Project(pipe, key), key, Delta(a, key), o, now))
    && NamesIn(pipe) == a.keys
    && (forall attr :: ValuesIn(pipe, attr) == InnerSet(a.attrHLL, attr))
  }

  // ----- building the pipeline -----

  ghost predicate KeyProgress(
    cmds: seq<KeyCommand>, key: RankKey, delta: Counts, o: Options, now: int, done: bool, registered: bool)
  {
    if registered then exists body :: IsBody(body, key, delta, o, now) && cmds == body + [Register]
    else if done then IsBody(cmds, key, delta, o, now)
    else cmds == []
  }

  // A pipeline that holds the bodies of the done keys, the registrations of the
  // registered ones, some attribute names and the values of some attributes.
  ghost predicate Progress(
    pipe: seq<Command>, a: Agg, o: Options, now: int,
    done: set<RankKey>, registered: set<RankKey>, names: set<string>, hlls: set<string>)
  {
    && (forall key :: KeyProgress(Project(pipe, key), key, Delta(a, key), o, now, key in done, key in registered))
    && NamesIn(pipe) == names
    && (forall attr :: ValuesIn(pipe, attr) == if attr in hlls then InnerSet(a.attrHLL, attr) else {})
  }

  ghost predicate OnlyKey(block: seq<Command>, key: RankKey) {
    forall c :: c in block ==> c.OnKey? && c.key == key
  }

  lemma {:induction false} ProjectNone(block: seq<Command>, key: RankKey)
    requires forall c :: c in block ==> !(c.OnKey? && c.key == key)
    ensures Project(block, key) == []
  {
    if block != [] {
      assert forall c :: c in block[..|block| - 1] ==> c in block;
      ProjectNone(block[..|block| - 1], key);
    }
  }

  lemma ProjectConcat(pipe: seq<Command>, block: seq<Command>, key: RankKey)
    ensures Project(pipe + block, key) == Project(pipe, key) + Project(block, key)
  {
    CollectConcat(pipe, block, ForKey(key));
  }

  lemma NamesConcat(pipe: seq<Command>, block: seq<Command>)
    ensures NamesIn(pipe + block) == NamesIn(pipe) + NamesIn(block)
    ensures forall attr :: ValuesIn(pipe + block, attr) == ValuesIn(pipe, attr) + ValuesIn(block, attr)
  {}

  lemma NoNames(block: seq<Command>)
    requires forall c :: c in block ==> c.OnKey?
    ensures NamesIn(block) == {} && forall attr :: ValuesIn(block, attr) == {}
  {}

  lemma NothingYet(a: Agg, o: Options, now: int)
    ensures Progress([], a, o, now, {}, {}, {}, {})
  {}

  lemma BlockAdded(
    pipe: seq<Command>, block: seq<Command>, key: RankKey, a: Agg, o: Options, now: int,
    done: set<RankKey>, names: set<string>, hlls: set<string>)
    requires Progress(pipe, a, o, now, done, {}, names, hlls) && key !in done
    requires OnlyKey(block, key) && IsBody(Project(block, key), key, Delta(a, key), o, now)
    ensures Progress(pipe + block, a, o, now, done + {key}, {}, names, hlls)
  {
    NamesConcat(pipe, block);
    NoNames(block);
    hide Project, IsBody, Delta, NamesIn, ValuesIn;
    forall k ensures KeyProgress(Project(pipe + block, k), k, Delta(a, k), o, now, k in done + {key}, k in {}) {
      ProjectConcat(pipe, block, k);
      assert KeyProgress(Project(pipe, k), k, Delta(a, k), o, now, k in done, k in {});
      if k == key {
        assert [] + Project(block, k) == Project(block, k);
      } else {
        ProjectNone(block, k);
        assert Project(pipe, k) + [] == Project(pipe, k);
      }
    }
  }

  lemma OthersAdded(
    pipe: seq<Command>, c: Command, a: Agg, o: Options, now: int, done: set<RankKey>, registered: set<RankKey>,
    names: set<string>, hlls: set<string>)
    requires Progress(pipe, a, o, now, done, registered, names, hlls) && !c.OnKey?
    ensures c.AddNames? ==> Progress(pipe + [c], a, o, now, done, registered, names + c.names, hlls)
    ensures c.PFAdd? && c.attr !in hlls && c.values == InnerSet(a.attrHLL, c.attr) ==>
              Progress(pipe + [c], a, o, now, done, registered, names, hlls + {c.attr})
  {
    NamesConcat(pipe, [c]);
    OwnNames(c);
    hide Project, IsBody, Delta, NamesIn, ValuesIn, KeyProgress;
    forall k ensures Project(pipe + [c], k) == Project(pipe, k) {
      ProjectConcat(pipe, [c], k);
      ProjectNone([c], k);
      assert Project(pipe, k) + [] == Project(pipe, k);
    }
  }

  lemma OwnNames(c: Command)
    ensures NamesIn([c]) == if c.AddNames? then c.names else {}
    ensures forall attr :: ValuesIn([c], attr) == if c.PFAdd? && c.attr == attr then c.values else {}
  {
    if c.AddNames? {
      assert c in [c];
    }
    if c.PFAdd? {
      assert c in [c];
    }
  }

  lemma Registered(
    pipe: seq<Command>, key: RankKey, a: Agg, o: Options, now: int, done: set<RankKey>, registered: set<RankKey>,
    names: set<string>, hlls: set<string>)
    requires Progress(pipe, a, o, now, done, registered, names, hlls) && key in done && key !in registered
    ensures Progress(pipe + [OnKey(key, Register)], a, o, now, done, registered + {key}, names, hlls)
  {
    var c := OnKey(key, Register);
    NamesConcat(pipe, [c]);
    NoNames([c]);
    hide IsBody, Delta, NamesIn, ValuesIn, Project;
    forall k
      ensures KeyProgress(Project(pipe + [c], k), k, Delta(a, k), o, now, k in done, k in registered + {key})
    {
      ProjectConcat(pipe, [c], k);
      assert KeyProgress(Project(pipe, k), k, Delta(a, k), o, now, k in done, k in registered);
      if k == key {
        ProjectOne(c, k);
      } else {
        ProjectNone([c], k);
        assert Project(pipe, k) + [] == Project(pipe, k);
      }
    }
  }

  lemma ProjectOne(c: Command, key: RankKey)
    requires c.OnKey? && c.key == key
    ensures Project([c], key) == [c.cmd]
  {
    CollectNext([], c, ForKey(key));
    assert [] + [c] == [c];
  }

  // The commands for some members of one ranked key.
  ghost predicate BlockFor(
    block: seq<Command>, order: seq<string>, key: RankKey, delta: Counts, window: bool, now: int)
  {
    && NoRepeats(order) && (forall m :: m in order ==> m in delta)
    && OnlyKey(block, key) && Project(block, key) == Incs(order, delta, window, now)
  }

  lemma NoBlock(key: RankKey, delta: Counts, window: bool, now: int)
    ensures BlockFor([], [], key, delta, window, now) && Elements<string>([]) == {}
  {
    ProjectNone([], key);
  }

  lemma BlockNext(
    block: seq<Command>, order: seq<string>, key: RankKey, delta: Counts, window: bool, now: int, m: string,
    more: seq<Command>)
    requires BlockFor(block, order, key, delta, window, now) && m in delta && m !in Elements(order)
    requires more == [OnKey(key, ZIncrBy(m, delta[m]))] + if window then [OnKey(key, ZAdd(m, now))] else []
    ensures BlockFor(block + more, order + [m], key, delta, window, now)
    ensures Elements(order + [m]) == Elements(order) + {m}
  {
    IncsNext(order, m, delta, window, now);
    ElementsNext(order, m);
    ProjectConcat(block, more, key);
    IncsOfMember(more, key, m, delta, window, now);
    hide Incs, Project, NoRepeats, Elements;
  }

  lemma BlockDone(
    block: seq<Command>, order: seq<string>, key: RankKey, delta: Counts, o: Options, now: int, last: Command)
    requires BlockFor(block, order, key, delta, o.window, now) && Elements(order) == delta.Keys
    requires last == OnKey(key, if key.ValuesRank? then ZRemRangeByRank(TrimStop(o.topN)) else SAdd(delta.Keys))
    ensures OnlyKey(block + [last], key) && IsBody(Project(block + [last], key), key, delta, o, now)
  {
    ProjectConcat(block, [last], key);
    ProjectOne(last, key);
    hide Incs, Project, NoRepeats, Elements, TrimStop, IsBody;
    BodyBuilt(order, last, key, delta, o, now);
  }

  // The commands for the deltas of one ranked key.
  method KeyBlock(key: RankKey, delta: Counts, o: Options, now: int) returns (block: seq<Command>)
    ensures OnlyKey(block, key) && IsBody(Project(block, key), key, delta, o, now)
  {
    block := [];
    var todo := delta.Keys;
    ghost var order: seq<string> := [];
    NoBlock(key, delta, o.window, now);
    hide *;
    while todo != {}
      invariant todo <= delta.Keys && Elements(order) == delta.Keys - todo
      invariant BlockFor(block, order, key, delta, o.window, now)
      decreases todo
    {
      var m :| m in todo;
      var more := [OnKey(key, ZIncrBy(m, delta[m]))] + if o.window then [OnKey(key, ZAdd(m, now))] else [];
      BlockNext(block, order, key, delta, o.window, now, m, more);
      block := block + more;
      order := order + [m];
      todo := todo - {m};
    }
    var last := OnKey(key, if key.ValuesRank? then ZRemRangeByRank(TrimStop(o.topN)) else SAdd(delta.Keys));
    BlockDone(block, order, key, delta, o, now, last);
    block := block + [last];
  }

  lemma BodyBuilt(order: seq<string>, last: Command, key: RankKey, delta: Counts, o: Options, now: int)
    requires NoRepeats(order) && Elements(order) == delta.Keys && forall m :: m in order ==> m in delta
    requires last == OnKey(key, if key.ValuesRank? then ZRemRangeByRank(TrimStop(o.topN)) else SAdd(delta.Keys))
    ensures IsBody(Incs(order, delta, o.window, now) + [last.cmd], key, delta, o, now)
  {
    hide Incs, NoRepeats, Elements, TrimStop;
    assert IsOrder(order, delta);
    assert Incs(order, delta, o.window, now) + [last.cmd] == Body(order, key, delta, o, now);
  }

  lemma IncsNext(order: seq<string>, m: string, delta: Counts, window: bool, now: int)
    requires m in delta && forall x :: x in order ==> x in delta
    ensures Incs(order + [m], delta, window, now)
         == Incs(order, delta, window, now) + ([ZIncrBy(m, delta[m])] + if window then [ZAdd(m, now)] else [])
  {
    assert (order + [m])[..|order|] == order;
  }

  lemma ElementsNext(order: seq<string>, m: string)
    requires NoRepeats(order)
    ensures Elements(order + [m]) == Elements(order) + {m}
    ensures m !in Elements(order) ==> NoRepeats(order + [m])
  {}

  lemma IncsOfMember(more: seq<Command>, key: RankKey, m: string, delta: Counts, window: bool, now: int)
    requires m in delta
    requires more == [OnKey(key, ZIncrBy(m, delta[m]))] + if window then [OnKey(key, ZAdd(m, now))] else []
    ensures Project(more, key) == [ZIncrBy(m, delta[m])] + if window then [ZAdd(m, now)] else []
  {
    var first := OnKey(key, ZIncrBy(m, delta[m]));
    ProjectOne(first, key);
    if window {
      ProjectConcat([first], [OnKey(key, ZAdd(m, now))], key);
      ProjectOne(OnKey(key, ZAdd(m, now)), key);
    } else {
      assert more == [first];
    }
  }

  // The keys that a flush of an aggregate touches.
  ghost function Touched(a: Agg): set<RankKey> {
    (if a.services == map[] then {} else {ServicesRank}) + OpsKeys(a.ops.Keys) + ValuesKeys(a.attrVals.Keys)
  }

  function OpsKeys(services: set<string>): set<RankKey> { set svc | svc in services :: OpsRank(svc) }

  function ValuesKeys(attrs: set<string>): set<RankKey> { set k | k in attrs :: ValuesRank(k) }

  lemma KeysGrow(s: set<string>, x: string)
    ensures OpsKeys(s + {x}) == OpsKeys(s) + {OpsRank(x)} && ValuesKeys(s + {x}) == ValuesKeys(s) + {ValuesRank(x)}
    ensures x !in s ==> OpsRank(x) !in OpsKeys(s) && ValuesRank(x) !in ValuesKeys(s)
    ensures ServicesRank !in OpsKeys(s) && OpsKeys({}) == {} && ValuesKeys({}) == {}
  {}

  method AddOps(
    pipe0: seq<Command>, a: Agg, o: Options, now: int, ghost done: set<RankKey>)
    returns (pipe: seq<Command>)
    requires Progress(pipe0, a, o, now, done, {}, {}, {}) && done <= {ServicesRank}
    ensures Progress(pipe, a, o, now, done + OpsKeys(a.ops.Keys), {}, {}, {})
  {
    pipe := pipe0;
    hide Progress, OpsKeys, IsBody, OnlyKey;
    var todo := a.ops.Keys;
    KeysGrow({}, "");
    assert a.ops.Keys - todo == {} && done + {} == done;
    while todo != {}
      invariant todo <= a.ops.Keys
      invariant Progress(pipe, a, o, now, done + OpsKeys(a.ops.Keys - todo), {}, {}, {})
      decreases todo
    {
      var svc :| svc in todo;
      var block := KeyBlock(OpsRank(svc), a.ops[svc], o, now);
      KeysGrow(a.ops.Keys - todo, svc);
      BlockAdded(pipe, block, OpsRank(svc), a, o, now, done + OpsKeys(a.ops.Keys - todo), {}, {});
      assert a.ops.Keys - (todo - {svc}) == a.ops.Keys - todo + {svc};
      assert done + OpsKeys(a.ops.Keys - todo) + {OpsRank(svc)} == done + (OpsKeys(a.ops.Keys - todo) + {OpsRank(svc)});
      pipe := pipe + block;
      todo := todo - {svc};
    }
    assert a.ops.Keys - todo == a.ops.Keys;
  }

  method AddValues(
    pipe0: seq<Command>, a: Agg, o: Options, now: int, ghost done: set<RankKey>)
    returns (pipe: seq<Command>)
    requires Progress(pipe0, a, o, now, done, {}, a.keys, {})
    requires forall key :: key in done ==> !key.ValuesRank?
    ensures Progress(pipe, a, o, now, done + ValuesKeys(a.attrVals.Keys), {}, a.keys, {})
  {
    pipe := pipe0;
    hide Progress, ValuesKeys, IsBody, OnlyKey;
    var todo := a.attrVals.Keys;
    KeysGrow({}, "");
    assert a.attrVals.Keys - todo == {} && done + {} == done;
    while todo != {}
      invariant todo <= a.attrVals.Keys
      invariant Progress(pipe, a, o, now, done + ValuesKeys(a.attrVals.Keys - todo), {}, a.keys, {})
      decreases todo
    {
      var k :| k in todo;
      var block := KeyBlock(ValuesRank(k), a.attrVals[k], o, now);
      KeysGrow(a.attrVals.Keys - todo, k);
      BlockAdded(pipe, block, ValuesRank(k), a, o, now, done + ValuesKeys(a.attrVals.Keys - todo), a.keys, {});
      assert a.attrVals.Keys - (todo - {k}) == a.attrVals.Keys - todo + {k};
      assert done + ValuesKeys(a.attrVals.Keys - todo) + {ValuesRank(k)}
          == done + (ValuesKeys(a.attrVals.Keys - todo) + {ValuesRank(k)});
      pipe := pipe + block;
      todo := todo - {k};
    }
    assert a.attrVals.Keys - todo == a.attrVals.Keys;
  }

  method AddDistinct(
    pipe0: seq<Command>, a: Agg, o: Options, now: int, ghost done: set<RankKey>)
    returns (pipe: seq<Command>)
    requires Progress(pipe0, a, o, now, done, {}, a.keys, {})
    ensures Progress(pipe, a, o, now, done, {}, a.keys, a.attrHLL.Keys)
  {
    pipe := pipe0;
    hide Progress;
    var todo := a.attrHLL.Keys;
    assert a.attrHLL.Keys - todo == {};
    while todo != {}
      invariant todo <= a.attrHLL.Keys
      invariant Progress(pipe, a, o, now, done, {}, a.keys, a.attrHLL.Keys - todo)
      decreases todo
    {
      var k :| k in todo;
      var c := PFAdd(k, a.attrHLL[k]);
      OthersAdded(pipe, c, a, o, now, done, {}, a.keys, a.attrHLL.Keys - todo);
      assert a.attrHLL.Keys - (todo - {k}) == a.attrHLL.Keys - todo + {k};
      pipe := pipe + [c];
      todo := todo - {k};
    }
    assert a.attrHLL.Keys - todo == a.attrHLL.Keys;
  }

  method AddRegistrations(
    pipe0: seq<Command>, a: Agg, o: Options, now: int, touched: set<RankKey>, ghost names: set<string>,
    ghost hlls: set<string>)
    returns (pipe: seq<Command>)
    requires Progress(pipe0, a, o, now, touched, {}, names, hlls)
    ensures Progress(pipe, a, o, now, touched, touched, names, hlls)
  {
    pipe := pipe0;
    hide Progress;
    var todo := touched;
    assert touched - todo == {};
    while todo != {}
      invariant todo <= touched
      invariant Progress(pipe, a, o, now, touched, touched - todo, names, hlls)
      decreases todo
    {
      var key :| key in todo;
      Registered(pipe, key, a, o, now, touched, touched - todo, names, hlls);
      assert touched - (todo - {key}) == touched - todo + {key};
      pipe := pipe + [OnKey(key, Register)];
      todo := todo - {key};
    }
    assert touched - todo == touched;
  }

  // Services, operations and the known attribute names.
  method AddNamesOf(a: Agg, o: Options, now: int) returns (pipe: seq<Command>, touched: set<RankKey>)
    ensures Progress(pipe, a, o, now, touched, {}, a.keys, {})
    ensures touched == (if a.services == map[] then {} else {ServicesRank}) + OpsKeys(a.ops.Keys)
  {
    pipe, touched := [], {};
    NothingYet(a, o, now);
    hide *;
    if |a.services| > 0 {
      var block := KeyBlock(ServicesRank, a.services, o, now);
      ServicesDelta(a);
      BlockAdded(pipe, block, ServicesRank, a, o, now, {}, {}, {});
      assert {} + {ServicesRank} == {ServicesRank} && [] + block == block;
      pipe, touched := block, {ServicesRank};
    } else {
      assert a.services == map[];
    }
    pipe := AddOps(pipe, a, o, now, touched);
    touched := touched + OpsKeys(a.ops.Keys);
    if |a.keys| > 0 {
      OthersAdded(pipe, AddNames(a.keys), a, o, now, touched, {}, {}, {});
      assert {} + a.keys == a.keys;
      pipe := pipe + [AddNames(a.keys)];
    } else {
      assert a.keys == {};
    }
  }

  lemma ServicesDelta(a: Agg)
    ensures Delta(a, ServicesRank) == a.services
  {}

  method BuildPipeline(a: Agg, o: Options, now: int) returns (pipe: seq<Command>)
    requires Tidy(a)
    ensures IsPipeline(pipe, a, o, now)
  {
    hide *;
    var touched;
    pipe, touched := AddNamesOf(a, o, now);
    NoValuesYet(a.ops.Keys);
    pipe := AddValues(pipe, a, o, now, touched);
    touched := touched + ValuesKeys(a.attrVals.Keys);
    pipe := AddDistinct(pipe, a, o, now, touched);
    if o.window && |touched| > 0 {
      pipe := AddRegistrations(pipe, a, o, now, touched, a.keys, a.attrHLL.Keys);
    } else {
      assert o.window ==> touched == {};
    }
    TouchedIs(a);
    PipelineBuilt(pipe, a, o, now, touched);
  }

  lemma NoValuesYet(services: set<string>)
    ensures forall key :: key in {ServicesRank} + OpsKeys(services) ==> !key.ValuesRank?
  {}

  lemma TouchedIs(a: Agg)
    ensures Touched(a) == (if a.services == map[] then {} else {ServicesRank}) + OpsKeys(a.ops.Keys)
              + ValuesKeys(a.attrVals.Keys)
  {}

  lemma PipelineBuilt(pipe: seq<Command>, a: Agg, o: Options, now: int, touched: set<RankKey>)
    requires Tidy(a) && touched == Touched(a)
    requires Progress(pipe, a, o, now, touched, if o.window then touched else {}, a.keys, a.attrHLL.Keys)
    ensures IsPipeline(pipe, a, o, now)
  {
    TouchedKeys(a);
    hide Tidy, Touched, Delta, Project, IsBody;
    var registered := if o.window then touched else {};
    forall key ensures IsKeyPipeline(Project(pipe, key), key, Delta(a, key), o, now) {
      assert KeyProgress(Project(pipe, key), key, Delta(a, key), o, now, key in touched, key in registered);
      if key in touched && !o.window {
        var body := Project(pipe, key);
        assert body == body + [];
      }
    }
  }

  lemma TouchedKeys(a: Agg)
    requires Tidy(a)
    ensures forall key :: key in Touched(a) <==> Delta(a, key) != map[]
  {
    forall key ensures key in Touched(a) <==> Delta(a, key) != map[] {
      match key
      case ServicesRank =>
      case OpsRank(svc) =>
      case ValuesRank(k) =>
    }
  }

  // ----- the sweep -----

  // First half: the members last seen before the cutoff.
  function Dead(ks: KeyState, cutoff: int): set<string> {
    set m | m in ks.ts && ks.ts[m] < cutoff
  }

  // Second half: drop the members found dead, and the times before the cutoff.
  function Evict(ks: KeyState, key: RankKey, dead: set<string>, cutoff: int): KeyState {
    ks.(rank := ks.rank - dead,
        members := if key.ValuesRank? then ks.members else ks.members - dead,
        ts := map m | m in ks.ts && !(ks.ts[m] < cutoff) :: ks.ts[m])
  }

  function Swept(ks: KeyState, key: RankKey, cutoff: int): KeyState { Evict(ks, key, Dead(ks, cutoff), cutoff) }

  lemma SweptIs(ks: KeyState, key: RankKey, cutoff: int)
    ensures Swept(ks, key, cutoff) == Evict(ks, key, Dead(ks, cutoff), cutoff)
  {}

  lemma NothingDead(ks: KeyState, key: RankKey, cutoff: int)
    ensures Dead(ks, cutoff) == {} ==> Swept(ks, key, cutoff) == ks
  {
    if Dead(ks, cutoff) == {} {
      assert forall m :: m in ks.ts ==> !(m in Dead(ks, cutoff));
      assert ks.rank - {} == ks.rank && ks.members - {} == ks.members;
      var ts := map m | m in ks.ts && !(ks.ts[m] < cutoff) :: ks.ts[m];
      assert ts == ks.ts;
    }
  }
}
