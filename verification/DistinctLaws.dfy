// Laws of the distinct values and the attribute names of the cache, over any
// interleaving of several pods, against what their spans showed.
module DistinctLaws {
  import opened Collecting
  import opened Autocomplete
  import opened AutocompleteLaws

  // ----- what a span shows -----

  ghost predicate Lists(keys: seq<string>, values: seq<string>, attr: string, v: string) {
    exists i :: 0 <= i < |keys| && i < |values| && keys[i] == attr && values[i] == v
  }

  // A span shows a harvested attribute in its own column only, and any other in
  // its two pairs of arrays.
  ghost predicate Shows(sp: Span, attr: string, v: string) {
    if DedicatedHarvested(attr) then Column(sp, attr) == v
    else Lists(sp.attrKeys, sp.attrValues, attr, v) || Lists(sp.resKeys, sp.resValues, attr, v)
  }

  // What is kept of it: named, not empty, and not too long.
  ghost predicate Usable(o: Options, sp: Span, attr: string, v: string) {
    Shows(sp, attr, v) && attr != "" && v != "" && |v| <= o.maxValLen
  }

  ghost predicate Shown(o: Options, events: seq<Event>, attr: string, v: string) {
    exists e :: e in events && e.Observe? && Usable(o, e.span, attr, v)
  }

  lemma {:induction false} FreePairsIff(keys: seq<string>, values: seq<string>, n: nat, attr: string, v: string)
    requires n <= |keys|
    ensures (attr, v) in FreePairs(keys, values, n)
       <==> !DedicatedHarvested(attr) && exists i :: 0 <= i < n && i < |values| && keys[i] == attr && values[i] == v
  {
    if n > 0 {
      FreePairsIff(keys, values, n - 1, attr, v);
      hide DedicatedHarvested;
      if !DedicatedHarvested(attr) && n <= |values| && keys[n - 1] == attr && values[n - 1] == v {
        assert (attr, v) in FreePairs(keys, values, n);
      }
    }
  }

  lemma ColumnsIff(sp: Span, attr: string, v: string)
    ensures (attr, v) in Columns(sp) <==> DedicatedHarvested(attr) && Column(sp, attr) == v
  {
    var c := Columns(sp);
    if DedicatedHarvested(attr) {
      ColumnAt(sp, attr);
    }
    AreHarvested(sp);
    hide *;
    assert (attr, v) in c ==> DedicatedHarvested(attr);
  }

  lemma AreHarvested(sp: Span)
    ensures forall pair :: pair in Columns(sp) ==> DedicatedHarvested(pair.0)
  {
    hide Decimal;
  }

  lemma AttributesIff(sp: Span, attr: string, v: string)
    ensures (attr, v) in Attributes(sp) <==> Shows(sp, attr, v)
  {
    AttributesAre(sp);
    ColumnsIff(sp, attr, v);
    FreePairsIff(sp.attrKeys, sp.attrValues, |sp.attrKeys|, attr, v);
    FreePairsIff(sp.resKeys, sp.resValues, |sp.resKeys|, attr, v);
    hide Attributes, Columns, FreePairs, Column, DedicatedHarvested;
  }

  // The number that decimal digits stand for.
  function Number(s: string): int {
    if s == "" then 0 else 10 * Number(s[..|s| - 1]) + (s[|s| - 1] as int - '0' as int)
  }

  // The status code of a span is written in decimal.
  lemma {:induction false} DecimalIsNumber(n: nat)
    ensures Number(Decimal(n)) == n && (Decimal(n)[0] == '0' ==> n == 0)
  {
    var s := Decimal(n);
    if n >= 10 {
      DecimalIsNumber(n / 10);
      assert s[..|s| - 1] == Decimal(n / 10);
    } else {
      assert s[..0] == "";
    }
  }

  // ----- what one span adds to the aggregate -----

  lemma {:induction false} AttrsKeep(a: Agg, o: Options, pairs: seq<(string, string)>, attr: string, v: string)
    ensures var before, after := InnerSet(a.attrHLL, attr), InnerSet(AttrsObserved(a, o, pairs).attrHLL, attr);
            && (v in before ==> v in after)
            && (v in after && v !in before ==> o.policy(attr) == CardHLL && Kept(o, attr, v) && (attr, v) in pairs)
  {
    if pairs != [] {
      AttrsKeep(a, o, pairs[..|pairs| - 1], attr, v);
      hide Kept, AttrsObserved;
      AttrsLast(a, o, pairs);
    }
  }

  lemma AttrsLast(a: Agg, o: Options, pairs: seq<(string, string)>)
    requires pairs != []
    ensures var last := pairs[|pairs| - 1];
            AttrsObserved(a, o, pairs) == AttrObserved(AttrsObserved(a, o, pairs[..|pairs| - 1]), o, last.0, last.1)
  {}

  lemma {:induction false} AttrsAll(
    a: Agg, o: Options, pairs: seq<(string, string)>, attr: string, v: string, seen: set<string>)
    requires o.policy(attr) == CardHLL && |seen| <= o.maxDistinct && InnerSet(a.attrHLL, attr) <= seen
    requires forall x :: (attr, x) in pairs && Kept(o, attr, x) ==> x in seen
    ensures (attr, v) in pairs && Kept(o, attr, v) ==> v in InnerSet(AttrsObserved(a, o, pairs).attrHLL, attr)
    ensures InnerSet(AttrsObserved(a, o, pairs).attrHLL, attr) <= seen
  {
    if pairs != [] {
      var init, last := pairs[..|pairs| - 1], pairs[|pairs| - 1];
      AttrsAll(a, o, init, attr, v, seen);
      AttrsLast(a, o, pairs);
      hide Kept, AttrsObserved;
      OneMore(AttrsObserved(a, o, init), o, last.0, last.1, attr, v, seen);
    }
  }

  lemma OneMore(a: Agg, o: Options, key: string, val: string, attr: string, v: string, seen: set<string>)
    requires o.policy(attr) == CardHLL && |seen| <= o.maxDistinct && InnerSet(a.attrHLL, attr) <= seen
    requires key == attr && Kept(o, key, val) ==> val in seen
    ensures var after := InnerSet(AttrObserved(a, o, key, val).attrHLL, attr);
            && InnerSet(a.attrHLL, attr) <= after <= seen
            && (key == attr && val == v && Kept(o, key, val) ==> v in after)
  {
    var m := InnerSet(a.attrHLL, attr);
    if key == attr && Kept(o, key, val) && val !in m {
      SubsetIsSmaller(m, seen);
    }
  }

  lemma SpanKeeps(a: Agg, o: Options, sp: Span, attr: string, v: string)
    ensures var before, after := InnerSet(a.attrHLL, attr), InnerSet(SpanObserved(a, o, sp).attrHLL, attr);
            && (v in before ==> v in after)
            && (v in after && v !in before ==> o.policy(attr) == CardHLL && Usable(o, sp, attr, v))
  {
    AttrsKeep(NamesObserved(a, sp), o, Attributes(sp), attr, v);
    AttributesIff(sp, attr, v);
    hide Attributes, AttrsObserved, Shows;
  }

  lemma SpanAddsAll(a: Agg, o: Options, sp: Span, attr: string, v: string, seen: set<string>)
    requires o.policy(attr) == CardHLL && |seen| <= o.maxDistinct && InnerSet(a.attrHLL, attr) <= seen
    requires forall x :: Usable(o, sp, attr, x) ==> x in seen
    ensures Usable(o, sp, attr, v) ==> v in InnerSet(SpanObserved(a, o, sp).attrHLL, attr)
    ensures InnerSet(SpanObserved(a, o, sp).attrHLL, attr) <= seen
  {
    forall x ensures (attr, x) in Attributes(sp) <==> Shows(sp, attr, x) {
      AttributesIff(sp, attr, x);
    }
    hide Attributes, AttrsObserved, Shows;
    AttrsAll(NamesObserved(a, sp), o, Attributes(sp), attr, v, seen);
  }

  // ----- what a pipeline adds to Redis -----

  lemma {:induction false} ExecAdds(st: RedisState, pipe: seq<Command>, attr: string)
    ensures InnerSet(Exec(st, pipe).hll, attr) == InnerSet(st.hll, attr) + ValuesIn(pipe, attr)
    ensures Exec(st, pipe).names == st.names + NamesIn(pipe)
  {
    if pipe != [] {
      var init, last := pipe[..|pipe| - 1], pipe[|pipe| - 1];
      assert pipe == init + [last];
      ExecAdds(st, init, attr);
      NamesConcat(init, [last]);
      OwnNames(last);
      hide NamesIn, ValuesIn;
    }
  }

  lemma {:induction false} MaskedIsPart(pipe: seq<Command>, mask: seq<bool>)
    requires |mask| == |pipe|
    ensures forall c :: c in Masked(pipe, mask) ==> c in pipe
  {
    if pipe != [] {
      MaskedIsPart(pipe[..|pipe| - 1], mask[..|pipe| - 1]);
    }
  }

  lemma FlushAdds(w: World, e: Event, o: Options, attr: string)
    requires e.Flush? && Allowed(w, e, o)
    ensures var a, st, st' := w.pods[e.pod], w.redis, Next(w, e, o).redis;
            && InnerSet(st.hll, attr) <= InnerSet(st'.hll, attr) <= InnerSet(st.hll, attr) + InnerSet(a.attrHLL, attr)
            && st.names <= st'.names <= st.names + a.keys
            && (Accepted(e) ==>
                  InnerSet(st'.hll, attr) == InnerSet(st.hll, attr) + InnerSet(a.attrHLL, attr)
                  && st'.names == st.names + a.keys)
  {
    ExecAdds(w.redis, Masked(e.pipe, e.mask), attr);
    MaskedIsPart(e.pipe, e.mask);
    assert NamesIn(e.pipe) == w.pods[e.pod].keys && ValuesIn(e.pipe, attr) == InnerSet(w.pods[e.pod].attrHLL, attr);
    if Accepted(e) {
      MaskedAll(e.pipe, e.mask);
    }
    PartialNames(Masked(e.pipe, e.mask), e.pipe, attr);
    hide IsPipeline, Exec, Masked, NamesIn, ValuesIn;
  }

  lemma PartialNames(part: seq<Command>, pipe: seq<Command>, attr: string)
    requires forall c :: c in part ==> c in pipe
    ensures NamesIn(part) <= NamesIn(pipe) && ValuesIn(part, attr) <= ValuesIn(pipe, attr)
  {}

  // ----- runs -----

  // A distinct value is stored in Redis, or pending in some pod.
  ghost predicate Collected(w: World, attr: string, v: string) {
    v in InnerSet(w.redis.hll, attr) || exists i :: 0 <= i < |w.pods| && v in InnerSet(w.pods[i].attrHLL, attr)
  }

  lemma CollectedIn(w: World, i: nat, attr: string, v: string)
    requires i < |w.pods| && v in InnerSet(w.pods[i].attrHLL, attr)
    ensures Collected(w, attr, v)
  {}

  // One step collects nothing that its span does not show, and what it collects
  // stays unless a flush fails.
  lemma StepCollects(w: World, e: Event, o: Options, attr: string, v: string)
    requires Allowed(w, e, o)
    ensures Collected(Next(w, e, o), attr, v) ==>
              Collected(w, attr, v) || (o.policy(attr) == CardHLL && e.Observe? && Usable(o, e.span, attr, v))
    ensures Accepted(e) && Collected(w, attr, v) ==> Collected(Next(w, e, o), attr, v)
  {
    match e
    case Observe(pod, sp) =>
      SpanKeeps(w.pods[pod], o, sp, attr, v);
      hide SpanObserved, InnerSet, Usable;
      ObserveCollects(w, Next(w, e, o), pod, attr, v);
    case Flush(pod, _, _) =>
      FlushAdds(w, e, o, attr);
      FlushCollects(w, e, o, attr, v);
    case ReadDead(_) =>
    case DeleteDead(_) =>
    case Later(_) =>
  }

  lemma ObserveCollects(w: World, w': World, pod: nat, attr: string, v: string)
    requires pod < |w.pods| == |w'.pods| && w' == w.(pods := w.pods[pod := w'.pods[pod]])
    requires v in InnerSet(w.pods[pod].attrHLL, attr) ==> v in InnerSet(w'.pods[pod].attrHLL, attr)
    ensures Collected(w, attr, v) ==> Collected(w', attr, v)
    ensures Collected(w', attr, v) ==> Collected(w, attr, v) || v in InnerSet(w'.pods[pod].attrHLL, attr)
    ensures v in InnerSet(w.pods[pod].attrHLL, attr) ==> Collected(w, attr, v)
  {
    hide InnerSet;
    forall i | 0 <= i < |w.pods| ensures i != pod ==> w'.pods[i] == w.pods[i] {}
    if i :| 0 <= i < |w.pods| && v in InnerSet(w.pods[i].attrHLL, attr) {
      CollectedIn(w', i, attr, v);
    }
  }

  lemma FlushCollects(w: World, e: Event, o: Options, attr: string, v: string)
    requires e.Flush? && Allowed(w, e, o)
    requires var st, st' := InnerSet(w.redis.hll, attr), InnerSet(Next(w, e, o).redis.hll, attr);
             var a := InnerSet(w.pods[e.pod].attrHLL, attr);
             st <= st' <= st + a && (Accepted(e) ==> st' == st + a)
    ensures Collected(Next(w, e, o), attr, v) ==> Collected(w, attr, v)
    ensures Accepted(e) && Collected(w, attr, v) ==> Collected(Next(w, e, o), attr, v)
  {
    var w' := Next(w, e, o);
    assert |w'.pods| == |w.pods| && w'.pods[e.pod] == EMPTY;
    assert forall i :: 0 <= i < |w.pods| && i != e.pod ==> w'.pods[i] == w.pods[i];
    assert InnerSet(EMPTY.attrHLL, attr) == {};
    hide InnerSet, Next, Accepted, Allowed;
    if v in InnerSet(w.pods[e.pod].attrHLL, attr) {
      CollectedIn(w, e.pod, attr, v);
    }
  }

  // Whatever fails, no value is ever collected that no span showed.
  lemma {:induction false} NothingInvented(
    n: nat, clock: int, events: seq<Event>, o: Options, attr: string, v: string)
    requires IsRun(Start(n, clock), events, o)
    ensures Collected(After(Start(n, clock), events, o), attr, v) ==>
              o.policy(attr) == CardHLL && Shown(o, events, attr, v)
  {
    hide Next, Allowed, Usable, Collected, Start;
    if events == [] {
      NothingCollectedYet(n, clock, attr, v);
    } else {
      var init, last := events[..|events| - 1], events[|events| - 1];
      assert last in events && forall e :: e in init ==> e in events;
      NothingInvented(n, clock, init, o, attr, v);
      StepCollects(After(Start(n, clock), init, o), last, o, attr, v);
    }
  }

  lemma NothingCollectedYet(n: nat, clock: int, attr: string, v: string)
    ensures !Collected(Start(n, clock), attr, v)
  {}

  // All distinct values of an attribute lie in seen.
  ghost predicate WithinSeen(o: Options, e: Event, attr: string, seen: set<string>) {
    e.Observe? ==> forall v :: Usable(o, e.span, attr, v) ==> v in seen
  }

  ghost predicate PodsWithin(w: World, attr: string, seen: set<string>) {
    forall i :: 0 <= i < |w.pods| ==> InnerSet(w.pods[i].attrHLL, attr) <= seen
  }

  lemma StepAddsAll(w: World, e: Event, o: Options, attr: string, v: string, seen: set<string>)
    requires Allowed(w, e, o) && o.policy(attr) == CardHLL && |seen| <= o.maxDistinct
    requires PodsWithin(w, attr, seen) && WithinSeen(o, e, attr, seen)
    ensures PodsWithin(Next(w, e, o), attr, seen)
    ensures e.Observe? && Usable(o, e.span, attr, v) ==> Collected(Next(w, e, o), attr, v)
  {
    hide Usable, SpanObserved, IsPipeline, Exec, Masked;
    match e
    case Observe(pod, sp) =>
      SpanAddsAll(w.pods[pod], o, sp, attr, v, seen);
      var w' := Next(w, e, o);
      assert w'.pods[pod] == SpanObserved(w.pods[pod], o, sp);
      hide InnerSet;
      if Usable(o, sp, attr, v) {
        CollectedIn(w', pod, attr, v);
      }
    case Flush(_, _, _) =>
    case ReadDead(_) =>
    case DeleteDead(_) =>
    case Later(_) =>
  }

  // Distinct values are conserved: while the flushes succeed and no attribute
  // shows more values than the limit, exactly the shown ones are stored or
  // pending, whatever is swept.
  lemma {:induction false} DistinctConserved(
    n: nat, clock: int, events: seq<Event>, o: Options, attr: string, v: string, seen: set<string>)
    requires IsRun(Start(n, clock), events, o) && o.policy(attr) == CardHLL && |seen| <= o.maxDistinct
    requires forall e :: e in events ==> Accepted(e) && WithinSeen(o, e, attr, seen)
    ensures PodsWithin(After(Start(n, clock), events, o), attr, seen)
    ensures Collected(After(Start(n, clock), events, o), attr, v) <==> Shown(o, events, attr, v)
  {
    hide Next, Allowed, Usable, Collected, Start, WithinSeen, Accepted, PodsWithin;
    NothingInvented(n, clock, events, o, attr, v);
    if events == [] {
      PodsEmpty(n, clock, attr, seen);
    } else {
      var init, last := events[..|events| - 1], events[|events| - 1];
      assert last in events && forall e :: e in events <==> e in init || e == last;
      DistinctConserved(n, clock, init, o, attr, v, seen);
      var w := After(Start(n, clock), init, o);
      StepAddsAll(w, last, o, attr, v, seen);
      StepCollects(w, last, o, attr, v);
    }
  }

  lemma PodsEmpty(n: nat, clock: int, attr: string, seen: set<string>)
    ensures PodsWithin(Start(n, clock), attr, seen)
  {}

  // ----- attribute names -----

  ghost predicate NameKnown(w: World, attr: string) {
    attr in w.redis.names || exists i :: 0 <= i < |w.pods| && attr in w.pods[i].keys
  }

  lemma {:induction false} AttrsName(a: Agg, o: Options, pairs: seq<(string, string)>, attr: string)
    ensures attr in AttrsObserved(a, o, pairs).keys
       <==> attr in a.keys || exists i :: 0 <= i < |pairs| && pairs[i].0 == attr && Kept(o, attr, pairs[i].1)
  {
    if pairs != [] {
      var init, last := pairs[..|pairs| - 1], pairs[|pairs| - 1];
      AttrsName(a, o, init, attr);
      AttrsLast(a, o, pairs);
      hide Kept, AttrsObserved;
      NameAdded(AttrsObserved(a, o, init), o, last.0, last.1);
      assert forall i :: 0 <= i < |init| ==> init[i] == pairs[i];
    }
  }

  lemma NameAdded(a: Agg, o: Options, key: string, val: string)
    ensures AttrObserved(a, o, key, val).keys == a.keys + if Kept(o, key, val) then {key} else {}
  {}

  lemma SpanNames(a: Agg, o: Options, sp: Span, attr: string)
    ensures attr in SpanObserved(a, o, sp).keys <==> attr in a.keys || exists v :: Usable(o, sp, attr, v)
  {
    var pairs := Attributes(sp);
    AttrsName(NamesObserved(a, sp), o, pairs, attr);
    forall v ensures (attr, v) in pairs <==> Shows(sp, attr, v) {
      AttributesIff(sp, attr, v);
    }
    hide Attributes, AttrsObserved, Shows;
    if v :| Usable(o, sp, attr, v) {
      var i :| 0 <= i < |pairs| && pairs[i] == (attr, v);
    }
    if i :| 0 <= i < |pairs| && pairs[i].0 == attr && Kept(o, attr, pairs[i].1) {
      assert (attr, pairs[i].1) in pairs;
      assert Usable(o, sp, attr, pairs[i].1);
    }
  }

  lemma StepNames(w: World, e: Event, o: Options, attr: string)
    requires Allowed(w, e, o)
    ensures NameKnown(Next(w, e, o), attr) ==>
              NameKnown(w, attr) || (e.Observe? && exists v :: Usable(o, e.span, attr, v))
    ensures Accepted(e) && NameKnown(w, attr) ==> NameKnown(Next(w, e, o), attr)
    ensures e.Observe? && (exists v :: Usable(o, e.span, attr, v)) ==> NameKnown(Next(w, e, o), attr)
  {
    match e
    case Observe(pod, sp) =>
      SpanNames(w.pods[pod], o, sp, attr);
      hide SpanObserved, Usable;
      ObserveNames(w, Next(w, e, o), pod, attr);
    case Flush(pod, _, _) =>
      FlushAdds(w, e, o, attr);
      FlushNames(w, e, o, attr);
    case ReadDead(_) =>
    case DeleteDead(_) =>
    case Later(_) =>
  }

  lemma NameIn(w: World, i: nat, attr: string)
    requires i < |w.pods| && attr in w.pods[i].keys
    ensures NameKnown(w, attr)
  {}

  lemma ObserveNames(w: World, w': World, pod: nat, attr: string)
    requires pod < |w.pods| == |w'.pods| && w' == w.(pods := w.pods[pod := w'.pods[pod]])
    requires attr in w.pods[pod].keys ==> attr in w'.pods[pod].keys
    ensures NameKnown(w, attr) ==> NameKnown(w', attr)
    ensures NameKnown(w', attr) ==> NameKnown(w, attr) || attr in w'.pods[pod].keys
    ensures attr in w.pods[pod].keys ==> NameKnown(w, attr)
    ensures attr in w'.pods[pod].keys ==> NameKnown(w', attr)
  {
    forall i | 0 <= i < |w.pods| ensures i != pod ==> w'.pods[i] == w.pods[i] {}
    if i :| 0 <= i < |w.pods| && attr in w.pods[i].keys {
      NameIn(w', i, attr);
    }
  }

  lemma FlushNames(w: World, e: Event, o: Options, attr: string)
    requires e.Flush? && Allowed(w, e, o)
    requires var st, st', a := w.redis.names, Next(w, e, o).redis.names, w.pods[e.pod].keys;
             st <= st' <= st + a && (Accepted(e) ==> st' == st + a)
    ensures NameKnown(Next(w, e, o), attr) ==> NameKnown(w, attr)
    ensures Accepted(e) && NameKnown(w, attr) ==> NameKnown(Next(w, e, o), attr)
  {
    var w' := Next(w, e, o);
    assert |w'.pods| == |w.pods| && w'.pods[e.pod] == EMPTY;
    assert forall i :: 0 <= i < |w.pods| && i != e.pod ==> w'.pods[i] == w.pods[i];
    hide Next, Accepted, Allowed;
    if attr in w.pods[e.pod].keys {
      NameIn(w, e.pod, attr);
    }
  }

  ghost predicate NameShown(o: Options, events: seq<Event>, attr: string) {
    exists e, v :: e in events && e.Observe? && Usable(o, e.span, attr, v)
  }

  // The known attribute names are names that spans showed a value of, and with
  // flushes that succeed all of them; there is no limit to their number.
  lemma {:induction false} NamesKnown(n: nat, clock: int, events: seq<Event>, o: Options, attr: string)
    requires IsRun(Start(n, clock), events, o)
    ensures NameKnown(After(Start(n, clock), events, o), attr) ==> NameShown(o, events, attr)
    ensures (forall e :: e in events ==> Accepted(e)) ==>
              (NameKnown(After(Start(n, clock), events, o), attr) <==> NameShown(o, events, attr))
  {
    hide Next, Allowed, Usable, NameKnown, Start, Accepted;
    if events == [] {
      NoNamesYet(n, clock, attr);
    } else {
      var init, last := events[..|events| - 1], events[|events| - 1];
      assert last in events && forall e :: e in events <==> e in init || e == last;
      NamesKnown(n, clock, init, o, attr);
      StepNames(After(Start(n, clock), init, o), last, o, attr);
    }
  }

  lemma NoNamesYet(n: nat, clock: int, attr: string)
    ensures !NameKnown(Start(n, clock), attr)
  {}

  // ----- what a pod holds at most -----

  // No pod ever holds more pending values of an attribute than the limit.
  ghost predicate PodBounded(a: Agg, o: Options) {
    forall attr :: |InnerCounts(a.attrVals, attr)| <= o.maxDistinct && |InnerSet(a.attrHLL, attr)| <= o.maxDistinct
  }

  lemma AttrBounded(a: Agg, o: Options, key: string, val: string)
    requires PodBounded(a, o) && o.maxDistinct > 0
    ensures PodBounded(AttrObserved(a, o, key, val), o)
  {
    var after := AttrObserved(a, o, key, val);
    forall attr
      ensures |InnerCounts(after.attrVals, attr)| <= o.maxDistinct && |InnerSet(after.attrHLL, attr)| <= o.maxDistinct
    {
      assert |InnerCounts(a.attrVals, attr)| <= o.maxDistinct && |InnerSet(a.attrHLL, attr)| <= o.maxDistinct;
      hide PodBounded, AttrObserved;
      CountsBounded(a, o, key, val, attr);
      SetBounded(a, o, key, val, attr);
    }
    hide AttrObserved, InnerCounts, InnerSet;
  }

  lemma CountsBounded(a: Agg, o: Options, key: string, val: string, attr: string)
    requires |InnerCounts(a.attrVals, attr)| <= o.maxDistinct
    ensures |InnerCounts(AttrObserved(a, o, key, val).attrVals, attr)| <= o.maxDistinct
  {
    var m := InnerCounts(a.attrVals, attr);
    Bumped(m, val);
    hide Kept, Bump;
  }

  lemma Bumped(m: Counts, val: string)
    ensures |Bump(m, val)| == |m| + if val in m then 0 else 1
  {
    assert Bump(m, val).Keys == m.Keys + {val};
    assert |m| == |m.Keys| && |Bump(m, val)| == |Bump(m, val).Keys|;
  }

  lemma SetBounded(a: Agg, o: Options, key: string, val: string, attr: string)
    requires |InnerSet(a.attrHLL, attr)| <= o.maxDistinct
    ensures |InnerSet(AttrObserved(a, o, key, val).attrHLL, attr)| <= o.maxDistinct
  {
    var s := InnerSet(a.attrHLL, attr);
    assert |s + {val}| <= |s| + 1;
    hide Kept;
  }

  lemma {:induction false} AttrsBounded(a: Agg, o: Options, pairs: seq<(string, string)>)
    requires PodBounded(a, o) && o.maxDistinct > 0
    ensures PodBounded(AttrsObserved(a, o, pairs), o)
  {
    hide PodBounded;
    if pairs != [] {
      AttrsBounded(a, o, pairs[..|pairs| - 1]);
      AttrsLast(a, o, pairs);
      AttrBounded(AttrsObserved(a, o, pairs[..|pairs| - 1]), o, pairs[|pairs| - 1].0, pairs[|pairs| - 1].1);
    }
  }

  lemma SpanBounded(a: Agg, o: Options, sp: Span)
    requires PodBounded(a, o) && o.maxDistinct > 0
    ensures PodBounded(SpanObserved(a, o, sp), o)
  {
    var named := NamesObserved(a, sp);
    assert named.attrVals == a.attrVals && named.attrHLL == a.attrHLL;
    AttrsBounded(named, o, Attributes(sp));
    hide AttrsObserved, Attributes;
  }

  lemma {:induction false} PodsStayBounded(n: nat, clock: int, events: seq<Event>, o: Options, i: nat)
    requires IsRun(Start(n, clock), events, o) && o.maxDistinct > 0
    requires i < |After(Start(n, clock), events, o).pods|
    ensures PodBounded(After(Start(n, clock), events, o).pods[i], o)
  {
    hide Allowed, Start, PodBounded, SpanObserved, Exec, Masked;
    if events == [] {
      PodStartsEmpty(n, clock, o, i);
    } else {
      var init, last := events[..|events| - 1], events[|events| - 1];
      StepBounded(After(Start(n, clock), init, o), last, o, i);
      PodsStayBounded(n, clock, init, o, i);
    }
  }

  lemma PodStartsEmpty(n: nat, clock: int, o: Options, i: nat)
    requires i < |Start(n, clock).pods| && o.maxDistinct > 0
    ensures PodBounded(Start(n, clock).pods[i], o)
  {}

  lemma StepBounded(w: World, e: Event, o: Options, i: nat)
    requires Allowed(w, e, o) && o.maxDistinct > 0 && i < |Next(w, e, o).pods|
    ensures i < |w.pods| && (PodBounded(w.pods[i], o) ==> PodBounded(Next(w, e, o).pods[i], o))
  {
    if e.Observe? && PodBounded(w.pods[e.pod], o) {
      SpanBounded(w.pods[e.pod], o, e.span);
    }
    assert PodBounded(EMPTY, o);
    hide PodBounded, SpanObserved, Exec, Masked, IsPipeline;
  }
}
