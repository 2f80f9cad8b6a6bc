// Members that a flush revives between the two halves of a sweep.
module Revival {
  import opened Collecting
  import opened Autocomplete
  import opened AutocompleteLaws

  // An accepted flush that shows a member of a key again.
  ghost predicate Carries(w: World, e: Event, key: RankKey, m: string) {
    e.Flush? && Accepted(e) && e.pod < |w.pods| && m in Delta(w.pods[e.pod], key)
  }

  // Some flush of the run does.
  ghost predicate Revived(w0: World, events: seq<Event>, o: Options, key: RankKey, m: string)
    requires IsRun(w0, events, o)
  {
    events != []
    && (Revived(w0, events[..|events| - 1], o, key, m)
        || Carries(After(w0, events[..|events| - 1], o), events[|events| - 1], key, m))
  }

  // A member of the rank last seen at the cutoff or later, which the delete half
  // drops.
  ghost predicate FreshLost(before: KeyState, after: KeyState, cutoff: int, m: string) {
    m in before.rank && m in before.ts && before.ts[m] >= cutoff && m !in after.rank
  }

  // One delete half by itself: no fresh member is lost exactly when whatever was
  // found dead and is still ranked is still stale.
  lemma NoneLostIffStillStale(w: World, e: Event, o: Options)
    requires Windowed(w) && e.DeleteDead? && Allowed(w, e, o)
    ensures var s := w.sweeps[e.sweep];
            var before, after := KeyAt(w.redis, s.key), KeyAt(Next(w, e, o).redis, s.key);
            (forall m :: !FreshLost(before, after, s.cutoff, m))
            <==> forall m :: m in s.dead && m in before.rank && m in before.ts ==> before.ts[m] < s.cutoff
  {
    var s := w.sweeps[e.sweep];
    var before, after := KeyAt(w.redis, s.key), KeyAt(Next(w, e, o).redis, s.key);
    SweepLeavesNothingStale(w, e, o);
    assert Covered(before, s, w.clock);
    hide *;
    forall m ensures FreshLost(before, after, s.cutoff, m)
                <==> m in s.dead && m in before.rank && m in before.ts && before.ts[m] >= s.cutoff
    {
      LostIs(before, after, s, m);
    }
  }

  lemma LostIs(before: KeyState, after: KeyState, s: Sweeping, m: string)
    requires after.rank.Keys == before.rank.Keys - s.dead
    ensures FreshLost(before, after, s.cutoff, m)
       <==> m in s.dead && m in before.rank && m in before.ts && before.ts[m] >= s.cutoff
  {}

  // ----- from the read half to the delete half -----

  // A last-seen time is fresh exactly after a revival.
  ghost predicate FreshIff(ks: KeyState, cutoff: int, m: string, revived: bool) {
    m in ks.ts ==> (ks.ts[m] >= cutoff <==> revived)
  }

  lemma RefusedAtKey(w: World, e: Event, o: Options, key: RankKey)
    requires e.Flush? && Allowed(w, e, o) && Atomic(e) && !Accepted(e)
    ensures KeyAt(Next(w, e, o).redis, key) == KeyAt(w.redis, key)
  {
    hide IsPipeline, Exec;
    MaskedNone(e.pipe, e.mask);
    NothingRun(w.redis, []);
    assert Masked([], []) == [];
  }

  lemma FlushFreshens(w: World, e: Event, o: Options, key: RankKey, cutoff: int, m: string, revived: bool)
    requires e.Flush? && Allowed(w, e, o) && Atomic(e) && o.window && cutoff <= w.clock
    requires FreshIff(KeyAt(w.redis, key), cutoff, m, revived)
    ensures FreshIff(KeyAt(Next(w, e, o).redis, key), cutoff, m, revived || Carries(w, e, key, m))
  {
    if Accepted(e) {
      AcceptedAtKey(w, e, o, key);
    } else {
      RefusedAtKey(w, e, o, key);
    }
    hide IsPipeline, Exec, Masked, Delta, RemoveRange, Added;
  }

  lemma EvictKeepsFresh(ks: KeyState, s: Sweeping, cutoff: int, m: string, revived: bool)
    requires FreshIff(ks, cutoff, m, revived)
    ensures FreshIff(Evict(ks, s.key, s.dead, s.cutoff), cutoff, m, revived)
  {}

  lemma StepFreshens(w: World, e: Event, o: Options, key: RankKey, cutoff: int, m: string, revived: bool)
    requires Allowed(w, e, o) && Atomic(e) && o.window && cutoff <= w.clock
    requires FreshIff(KeyAt(w.redis, key), cutoff, m, revived)
    ensures FreshIff(KeyAt(Next(w, e, o).redis, key), cutoff, m, revived || Carries(w, e, key, m))
    ensures cutoff <= Next(w, e, o).clock
  {
    hide IsPipeline, Exec, Masked, SpanObserved, Dead, Evict, FreshIff;
    match e
    case Observe(_, _) =>
    case Flush(_, _, _) => FlushFreshens(w, e, o, key, cutoff, m, revived);
    case ReadDead(_) =>
    case DeleteDead(i) =>
      if w.sweeps[i].key == key {
        EvictKeepsFresh(KeyAt(w.redis, key), w.sweeps[i], cutoff, m, revived);
      }
    case Later(_) =>
  }

  lemma {:induction false} RunFreshens(w0: World, events: seq<Event>, o: Options, key: RankKey, cutoff: int, m: string)
    requires IsRun(w0, events, o) && o.window && cutoff <= w0.clock && forall e :: e in events ==> Atomic(e)
    requires FreshIff(KeyAt(w0.redis, key), cutoff, m, false)
    ensures FreshIff(KeyAt(After(w0, events, o).redis, key), cutoff, m, Revived(w0, events, o, key, m))
    ensures cutoff <= After(w0, events, o).clock
  {
    hide Next, Allowed, FreshIff, Atomic, Carries, KeyAt;
    if events != [] {
      var init, last := events[..|events| - 1], events[|events| - 1];
      assert last in events && forall e :: e in init ==> e in events;
      RunFreshens(w0, init, o, key, cutoff, m);
      StepFreshens(After(w0, init, o), last, o, key, cutoff, m, Revived(w0, init, o, key, m));
    }
  }

  lemma {:induction false} RunWindowed(w0: World, events: seq<Event>, o: Options)
    requires Windowed(w0) && IsRun(w0, events, o) && o.window && o.windowSize > 0
    requires forall e :: e in events ==> Atomic(e)
    ensures Windowed(After(w0, events, o))
  {
    hide Next, Allowed, Windowed, Atomic;
    if events != [] {
      var init, last := events[..|events| - 1], events[|events| - 1];
      assert last in events && forall e :: e in init ==> e in events;
      RunWindowed(w0, init, o);
      WindowStep(After(w0, init, o), last, o);
    }
  }

  // The halves of one sweep of a key with a run between them.
  ghost predicate Halves(w0: World, key: RankKey, mid: seq<Event>, i: nat, o: Options) {
    && Windowed(w0) && o.window && o.windowSize > 0 && Allowed(w0, ReadDead(key), o)
    && IsRun(Next(w0, ReadDead(key), o), mid, o) && (forall e :: e in mid ==> Atomic(e))
    && var w1 := Next(w0, ReadDead(key), o);
       i < |After(w1, mid, o).sweeps| && After(w1, mid, o).sweeps[i] == w1.sweeps[|w0.sweeps|]
  }

  // A sweep loses a fresh member of the rank exactly when it found the member
  // dead and an accepted flush between its halves showed it again.
  lemma LostIffRevived(w0: World, key: RankKey, mid: seq<Event>, i: nat, o: Options, m: string)
    requires Halves(w0, key, mid, i, o)
    ensures var w1 := Next(w0, ReadDead(key), o);
            var w2, s := After(w1, mid, o), w1.sweeps[|w0.sweeps|];
            var before, after := KeyAt(w2.redis, key), KeyAt(Next(w2, DeleteDead(i), o).redis, key);
            FreshLost(before, after, s.cutoff, m)
            <==> m in s.dead && Revived(w1, mid, o, key, m) && m in before.rank
  {
    var w1 := Next(w0, ReadDead(key), o);
    var w2, s := After(w1, mid, o), w1.sweeps[|w0.sweeps|];
    var before, after := KeyAt(w2.redis, key), KeyAt(Next(w2, DeleteDead(i), o).redis, key);
    BothWindowed(w0, key, mid, i, o);
    assert s.key == key;
    SweepLeavesNothingStale(w2, DeleteDead(i), o);
    FoundDead(w0, key, o, m);
    assert forall x :: x in before.rank ==> x in before.ts by {
      assert Tracked(KeyAt(w2.redis, key), key);
    }
    assert m in s.dead ==> FreshIff(before, s.cutoff, m, Revived(w1, mid, o, key, m)) by {
      hide *;
      if m in s.dead {
        RunFreshens(w1, mid, o, key, s.cutoff, m);
      }
    }
    hide *;
    LostIs(before, after, s, m);
    FreshIs(before, s.cutoff, m, Revived(w1, mid, o, key, m));
  }

  lemma BothWindowed(w0: World, key: RankKey, mid: seq<Event>, i: nat, o: Options)
    requires Halves(w0, key, mid, i, o)
    ensures Windowed(After(Next(w0, ReadDead(key), o), mid, o))
    ensures Allowed(After(Next(w0, ReadDead(key), o), mid, o), DeleteDead(i), o)
  {
    ReadWindowed(w0, ReadDead(key), o);
    hide Windowed;
    RunWindowed(Next(w0, ReadDead(key), o), mid, o);
  }

  lemma FoundDead(w0: World, key: RankKey, o: Options, m: string)
    requires Allowed(w0, ReadDead(key), o) && o.windowSize > 0
    ensures var w1 := Next(w0, ReadDead(key), o);
            var s := w1.sweeps[|w0.sweeps|];
            s.key == key && s.cutoff <= w1.clock && (m in s.dead ==> FreshIff(KeyAt(w1.redis, key), s.cutoff, m, false))
  {}

  lemma FreshIs(ks: KeyState, cutoff: int, m: string, revived: bool)
    ensures FreshIff(ks, cutoff, m, revived) && m in ks.ts ==> (ks.ts[m] >= cutoff <==> revived)
  {}

  // ----- services and operations -----

  // No other sweep drops members of the key during the run.
  ghost predicate Undisturbed(w0: World, events: seq<Event>, o: Options, key: RankKey)
    requires IsRun(w0, events, o)
  {
    events == []
    || (Undisturbed(w0, events[..|events| - 1], o, key)
        && !Drops(After(w0, events[..|events| - 1], o), events[|events| - 1], key))
  }

  ghost predicate Drops(w: World, e: Event, key: RankKey) {
    e.DeleteDead? && e.sweep < |w.sweeps| && w.sweeps[e.sweep].key == key
  }

  lemma FlushRanks(w: World, e: Event, o: Options, key: RankKey, m: string)
    requires e.Flush? && Allowed(w, e, o) && Atomic(e) && !key.ValuesRank?
    requires Carries(w, e, key, m) || m in KeyAt(w.redis, key).rank
    ensures m in KeyAt(Next(w, e, o).redis, key).rank
  {
    if Accepted(e) {
      AcceptedAtKey(w, e, o, key);
    } else {
      RefusedAtKey(w, e, o, key);
    }
    hide IsPipeline, Exec, Masked, Delta, RemoveRange, Stamped;
  }

  lemma StepRanks(w: World, e: Event, o: Options, key: RankKey, m: string)
    requires Allowed(w, e, o) && Atomic(e) && !key.ValuesRank? && !Drops(w, e, key)
    requires Carries(w, e, key, m) || m in KeyAt(w.redis, key).rank
    ensures m in KeyAt(Next(w, e, o).redis, key).rank
  {
    hide IsPipeline, Exec, Masked, SpanObserved, Dead, Evict;
    if e.Flush? {
      FlushRanks(w, e, o, key, m);
    }
  }

  lemma {:induction false} RevivedIsRanked(w0: World, events: seq<Event>, o: Options, key: RankKey, m: string)
    requires IsRun(w0, events, o) && !key.ValuesRank? && forall e :: e in events ==> Atomic(e)
    requires Undisturbed(w0, events, o, key) && Revived(w0, events, o, key, m)
    ensures m in KeyAt(After(w0, events, o).redis, key).rank
  {
    hide Next, Allowed, Atomic, Carries, KeyAt, Drops;
    var init, last := events[..|events| - 1], events[|events| - 1];
    assert last in events && forall e :: e in init ==> e in events;
    if Revived(w0, init, o, key, m) {
      RevivedIsRanked(w0, init, o, key, m);
    }
    StepRanks(After(w0, init, o), last, o, key, m);
  }

  // For services and operations the rank need not be looked at: while no other
  // sweep drops members of the key, a fresh one is lost exactly when an accepted
  // flush between the halves carried one that was found dead.
  lemma NameLostIffRevived(w0: World, key: RankKey, mid: seq<Event>, i: nat, o: Options)
    requires Halves(w0, key, mid, i, o) && !key.ValuesRank?
    requires Undisturbed(Next(w0, ReadDead(key), o), mid, o, key)
    ensures var w1 := Next(w0, ReadDead(key), o);
            var w2, s := After(w1, mid, o), w1.sweeps[|w0.sweeps|];
            var before, after := KeyAt(w2.redis, key), KeyAt(Next(w2, DeleteDead(i), o).redis, key);
            && (forall m :: FreshLost(before, after, s.cutoff, m) <==> m in s.dead && Revived(w1, mid, o, key, m))
            && ((exists m :: FreshLost(before, after, s.cutoff, m))
                <==> exists m :: m in s.dead && Revived(w1, mid, o, key, m))
  {
    var w1 := Next(w0, ReadDead(key), o);
    var w2, s := After(w1, mid, o), w1.sweeps[|w0.sweeps|];
    var before, after := KeyAt(w2.redis, key), KeyAt(Next(w2, DeleteDead(i), o).redis, key);
    forall m ensures FreshLost(before, after, s.cutoff, m) <==> m in s.dead && Revived(w1, mid, o, key, m) {
      hide *;
      LostIffRevived(w0, key, mid, i, o, m);
      if Revived(w1, mid, o, key, m) {
        HalvesRun(w0, key, mid, i, o);
        RevivedIsRanked(w1, mid, o, key, m);
      }
    }
  }

  lemma HalvesRun(w0: World, key: RankKey, mid: seq<Event>, i: nat, o: Options)
    requires Halves(w0, key, mid, i, o)
    ensures forall e :: e in mid ==> Atomic(e)
  {}

  // ----- a run in which it happens -----

  function WindowOptions(): Options { Options((k: string) => CardSkip, 10, 256, 50000, true, 10) }

  // A span that shows its service only.
  function ServiceSpan(): Span { Span("a", "", "", "", 0, "", "", "", "", "", "", "", "", [], [], [], []) }

  const SEEN_ONCE := Agg(map["a" := 1], map[], map[], map[], {})

  function OneFlush(now: int): seq<Command> {
    [OnKey(ServicesRank, ZIncrBy("a", 1)), OnKey(ServicesRank, ZAdd("a", now)),
     OnKey(ServicesRank, SAdd({"a"})), OnKey(ServicesRank, Register)]
  }

  const ALL_FOUR := [true, true, true, true]

  // One pod, and what its Redis holds of the services.
  ghost predicate Looks(w: World, a: Agg, ks: KeyState, clock: int, sweeps: seq<Sweeping>) {
    w.pods == [a] && KeyAt(w.redis, ServicesRank) == ks && w.clock == clock && w.sweeps == sweeps
  }

  lemma {:induction false} EmptyValues(a: Agg, o: Options, pairs: seq<(string, string)>)
    requires forall j :: 0 <= j < |pairs| ==> pairs[j].1 == ""
    ensures AttrsObserved(a, o, pairs) == a
  {
    if pairs != [] {
      EmptyValues(a, o, pairs[..|pairs| - 1]);
    }
  }

  lemma ShownOnce()
    ensures SpanObserved(EMPTY, WindowOptions(), ServiceSpan()) == SEEN_ONCE
  {
    var sp := ServiceSpan();
    assert NamesObserved(EMPTY, sp) == SEEN_ONCE;
    assert FreePairs([], [], 0) == [];
    assert Attributes(sp) == Columns(sp);
    EmptyValues(SEEN_ONCE, WindowOptions(), Attributes(sp));
  }

  lemma OneFlushFits(now: int)
    ensures IsPipeline(OneFlush(now), SEEN_ONCE, WindowOptions(), now)
  {
    var pipe, o := OneFlush(now), WindowOptions();
    NoNames(pipe);
    OneFlushCommands(now);
    forall key ensures IsKeyPipeline(Project(pipe, key), key, Delta(SEEN_ONCE, key), o, now) {
      if key != ServicesRank {
        hide IsBody, Project;
        ProjectNone(pipe, key);
      }
    }
    hide IsKeyPipeline, NamesIn, ValuesIn;
  }

  lemma OneFlushCommands(now: int)
    ensures IsKeyPipeline(Project(OneFlush(now), ServicesRank), ServicesRank, map["a" := 1], WindowOptions(), now)
  {
    var k, delta, o := ServicesRank, map["a" := 1], WindowOptions();
    var inc, seen, all, reg := ZIncrBy("a", 1), ZAdd("a", now), SAdd({"a"}), Register;
    var a, b, c, d := OnKey(k, inc), OnKey(k, seen), OnKey(k, all), OnKey(k, reg);
    assert Project(OneFlush(now), k) == [inc, seen, all, reg] by {
      hide *;
      ProjectOne(a, k);
      ProjectOne(b, k);
      ProjectOne(c, k);
      ProjectOne(d, k);
      ProjectConcat([a], [b], k);
      ProjectConcat([a] + [b], [c], k);
      ProjectConcat([a] + [b] + [c], [d], k);
      FourCommands(now);
    }
    var order := ["a"];
    assert Elements(order) == delta.Keys;
    assert order[..0] == [];
    assert Incs(order, delta, true, now) == [inc, seen];
    assert o.window && delta.Keys == {"a"};
    assert Body(order, k, delta, o, now) == [inc, seen, all];
    assert IsOrder(order, delta);
    assert IsBody([inc, seen, all], k, delta, o, now);
    assert [inc, seen, all, reg] == [inc, seen, all] + [Register];
  }

  lemma FourCommands(now: int)
    ensures OneFlush(now)
         == [OnKey(ServicesRank, ZIncrBy("a", 1))] + [OnKey(ServicesRank, ZAdd("a", now))]
            + [OnKey(ServicesRank, SAdd({"a"}))] + [OnKey(ServicesRank, Register)]
  {}

  lemma RunNext(w0: World, events: seq<Event>, e: Event, o: Options)
    requires IsRun(w0, events, o) && Allowed(After(w0, events, o), e, o)
    ensures IsRun(w0, events + [e], o) && After(w0, events + [e], o) == Next(After(w0, events, o), e, o)
  {
    hide Allowed, Next;
    assert (events + [e])[..|events|] == events;
  }

  lemma ObserveStep(w: World, ks: KeyState, clock: int, sweeps: seq<Sweeping>)
    requires Looks(w, EMPTY, ks, clock, sweeps)
    ensures Allowed(w, Observe(0, ServiceSpan()), WindowOptions())
    ensures Looks(Next(w, Observe(0, ServiceSpan()), WindowOptions()), SEEN_ONCE, ks, clock, sweeps)
  {
    ShownOnce();
    hide SpanObserved, KeyAt, ServiceSpan, WindowOptions;
  }

  // The services after one more flush of it.
  function Shown(ks: KeyState, clock: int): KeyState {
    KeyState(ks.rank["a" := At(ks.rank, "a") + 1], ks.members + {"a"}, ks.ts["a" := clock], true)
  }

  lemma FlushStep(w: World, ks: KeyState, clock: int, sweeps: seq<Sweeping>)
    requires Looks(w, SEEN_ONCE, ks, clock, sweeps)
    ensures Allowed(w, Flush(0, OneFlush(clock), ALL_FOUR), WindowOptions())
    ensures Looks(Next(w, Flush(0, OneFlush(clock), ALL_FOUR), WindowOptions()), EMPTY, Shown(ks, clock), clock, sweeps)
  {
    var e, o := Flush(0, OneFlush(clock), ALL_FOUR), WindowOptions();
    OneFlushFits(clock);
    FlushAllowed(w, ks, clock, sweeps, e, o);
    OptionsFit();
    hide WindowOptions, OneFlush;
    FlushLooks(w, ks, clock, sweeps, e, o);
  }

  lemma FlushAllowed(w: World, ks: KeyState, clock: int, sweeps: seq<Sweeping>, e: Event, o: Options)
    requires Looks(w, SEEN_ONCE, ks, clock, sweeps) && e == Flush(0, OneFlush(clock), ALL_FOUR)
    requires IsPipeline(OneFlush(clock), SEEN_ONCE, o, clock)
    ensures Allowed(w, e, o) && Accepted(e)
  {
    hide IsPipeline;
  }

  lemma FlushLooks(w: World, ks: KeyState, clock: int, sweeps: seq<Sweeping>, e: Event, o: Options)
    requires Looks(w, SEEN_ONCE, ks, clock, sweeps) && o.window
    requires e.Flush? && e.pod == 0 && Allowed(w, e, o) && Accepted(e)
    ensures Looks(Next(w, e, o), EMPTY, Shown(ks, clock), clock, sweeps)
  {
    AcceptedAtKey(w, e, o, ServicesRank);
    OnceFlushed(ks, o, clock);
    assert Delta(SEEN_ONCE, ServicesRank) == map["a" := 1];
    hide IsPipeline, Exec, Masked, Flushed, Delta, KeyAt;
  }

  lemma OnceFlushed(ks: KeyState, o: Options, clock: int)
    requires o.window
    ensures Flushed(ks, ServicesRank, map["a" := 1], o, clock) == Shown(ks, clock)
  {
    assert Added(ks.rank, map["a" := 1]) == ks.rank["a" := At(ks.rank, "a") + 1];
    assert Stamped(ks.ts, {"a"}, clock) == ks.ts["a" := clock];
    hide RemoveRange, Added, Stamped;
  }

  function Once(): KeyState { KeyState(map["a" := 1], {"a"}, map["a" := 0], true) }

  function Twice(): KeyState { KeyState(map["a" := 2], {"a"}, map["a" := 20], true) }

  function Found(): seq<Sweeping> { [Sweeping(ServicesRank, {"a"}, 10)] }

  // The service is seen and flushed.
  lemma Round(events: seq<Event>, w: World, ks: KeyState, clock: int, sweeps: seq<Sweeping>)
    returns (events': seq<Event>, w': World)
    requires Reaches(events, w) && Looks(w, EMPTY, ks, clock, sweeps)
    ensures Reaches(events', w')
    ensures Looks(w', EMPTY, Shown(ks, clock), clock, sweeps)
  {
    hide *;
    ObserveStep(w, ks, clock, sweeps);
    events', w' := Extended(events, w, Observe(0, ServiceSpan()));
    FlushStep(w', ks, clock, sweeps);
    events', w' := Extended(events', w', Flush(0, OneFlush(clock), ALL_FOUR));
  }

  // Service a is seen and flushed at 0; at 20, with a window of 10, a sweep
  // finds it dead; it is seen and flushed again. The delete half then meets a
  // last-seen time of 20 and drops the service.
  lemma RevivedMemberExample() returns (o: Options, events: seq<Event>)
    ensures ValidOptions(o) && o.window && IsRun(Start(1, 0), events, o)
    ensures forall e :: e in events ==> Accepted(e)
    ensures var w := After(Start(1, 0), events, o);
            && Windowed(w) && Allowed(w, DeleteDead(0), o) && w.sweeps[0].key == ServicesRank
            && FreshLost(KeyAt(w.redis, ServicesRank), KeyAt(Next(w, DeleteDead(0), o).redis, ServicesRank),
                         w.sweeps[0].cutoff, "a")
  {
    StartLooks();
    Scores();
    hide *;
    o := WindowOptions();
    var w;
    events, w := Round([], Start(1, 0), COLD, 0, []);
    LaterStep(w, Once());
    events, w := Extended(events, w, Later(20));
    ReadStep(w);
    events, w := Extended(events, w, ReadDead(ServicesRank));
    events, w := Round(events, w, Once(), 20, Found());
    ReachesIs(events, w);
    WindowKept(1, 0, events, o);
    DeleteStep(w);
  }

  // A run from the start in which every flush is the one above, and accepted.
  ghost predicate Reaches(events: seq<Event>, w: World) {
    && IsRun(Start(1, 0), events, WindowOptions()) && w == After(Start(1, 0), events, WindowOptions())
    && forall e :: e in events && e.Flush? ==> e.mask == ALL_FOUR
  }

  lemma Extended(events: seq<Event>, w: World, e: Event) returns (events': seq<Event>, w': World)
    requires Reaches(events, w) && Allowed(w, e, WindowOptions()) && (e.Flush? ==> e.mask == ALL_FOUR)
    ensures Reaches(events', w') && w' == Next(w, e, WindowOptions())
  {
    RunNext(Start(1, 0), events, e, WindowOptions());
    hide WindowOptions, IsRun, After, Next, Allowed, Start;
    events', w' := events + [e], Next(w, e, WindowOptions());
  }

  lemma ReachesIs(events: seq<Event>, w: World)
    requires Reaches(events, w)
    ensures IsRun(Start(1, 0), events, WindowOptions()) && w == After(Start(1, 0), events, WindowOptions())
    ensures forall e :: e in events ==> Accepted(e) && Atomic(e)
    ensures ValidOptions(WindowOptions()) && WindowOptions().window && WindowOptions().windowSize > 0
  {}

  lemma StartLooks()
    ensures Reaches([], Start(1, 0)) && Looks(Start(1, 0), EMPTY, COLD, 0, [])
  {}

  lemma OptionsFit()
    ensures WindowOptions().window
  {}

  lemma Scores()
    ensures Shown(COLD, 0) == Once()
    ensures Shown(Once(), 20) == Twice()
  {}

  lemma LaterStep(w: World, ks: KeyState)
    requires Looks(w, EMPTY, ks, 0, [])
    ensures Allowed(w, Later(20), WindowOptions())
    ensures Looks(Next(w, Later(20), WindowOptions()), EMPTY, ks, 20, [])
  {}

  lemma ReadStep(w: World)
    requires Looks(w, EMPTY, Once(), 20, [])
    ensures Allowed(w, ReadDead(ServicesRank), WindowOptions())
    ensures Looks(Next(w, ReadDead(ServicesRank), WindowOptions()), EMPTY, Once(), 20, Found())
  {
    assert Dead(Once(), 10) == {"a"};
  }

  lemma DeleteStep(w: World)
    requires Looks(w, EMPTY, Twice(), 20, Found())
    ensures Allowed(w, DeleteDead(0), WindowOptions()) && w.sweeps[0].key == ServicesRank
    ensures FreshLost(KeyAt(w.redis, ServicesRank),
                      KeyAt(Next(w, DeleteDead(0), WindowOptions()).redis, ServicesRank), w.sweeps[0].cutoff, "a")
  {}
}
