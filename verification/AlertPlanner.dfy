// Alert rules on VictoriaMetrics: the source decision for one rule and service,
// the capped query plan of a tick, and the measure that reads its results.
module AlertPlanner {
  import opened Problems
  import opened Sorting

  const FAMILIES := 3
  const MAX_QUERIES := 24
  const MIN_WINDOW := 120
  const KIND_BACKOFF := 300

  datatype Kind = KCount | KErr | KSum | KQuant

  function KindIndex(k: Kind): nat {
    match k case KCount => 0 case KErr => 1 case KSum => 2 case KQuant => 3
  }

  // Scope: the labels that queries need could not be settled for a family.
  datatype Reason =
    | NoReason | SpanSetting | NotConfigured | UnknownMetric | ShortWindow | NoFamily | NoService | NoStatus
    | VMError(detail: string) | Budget | Scope(text: string)

  // What discovery knows about one family of histograms.
  datatype Family = Family(
    ok: bool, reason: Reason, svcLabel: string, statusLabels: seq<string>, statusServices: Option<set<string>>)

  // A snapshot of what is known: the services present in each family (None when
  // unknown), and until when a family and kind must not be asked.
  datatype State = State(
    spanSetting: bool, configured: bool, reason: Reason,
    meta: seq<Family>, presence: seq<Option<set<string>>>, backoff: map<(nat, Kind), int>, now: int)

  // Discovery marks a family usable only after it found its service label
  // (red_vm_source.go:299-343).
  predicate ValidState(st: State) {
    && |st.meta| <= FAMILIES && |st.presence| == FAMILIES
    && forall fi :: 0 <= fi < |st.meta| && st.meta[fi].ok ==> st.meta[fi].svcLabel != ""
  }

  // Which kinds a metric is computed from; the request count always is one.
  function MetricKinds(metric: string): Option<seq<Kind>> {
    if metric == "request_rate" then Some([KCount])
    else if metric == "error_count" || metric == "error_rate" then Some([KCount, KErr])
    else if metric == "avg_ms" then Some([KCount, KSum])
    else if metric == "p50_ms" || metric == "p95_ms" || metric == "p99_ms" then Some([KCount, KQuant])
    else None
  }

  predicate BackingOff(st: State, fam: nat, k: Kind) {
    (fam, k) in st.backoff && st.now < st.backoff[(fam, k)]
  }

  // ----- the family of a service -----

  // Family fi rules itself out for the service, without hiding a later one.
  predicate PassesOn(st: State, service: string, fi: nat)
    requires ValidState(st) && fi < |st.meta|
  {
    if st.meta[fi].ok then st.presence[fi].Some? && service !in st.presence[fi].value
    else !st.meta[fi].reason.VMError?
  }

  predicate Serves(st: State, service: string, fi: nat)
    requires ValidState(st) && fi < |st.meta|
  {
    st.meta[fi].ok && st.presence[fi].Some? && service in st.presence[fi].value
  }

  // The first family that has the service, none unknown before it.
  ghost predicate IsFamilyOf(st: State, service: string, fi: nat)
    requires ValidState(st)
  {
    fi < |st.meta| && Serves(st, service, fi) && forall j :: 0 <= j < fi ==> PassesOn(st, service, j)
  }

  // The first family that does not pass on.
  ghost predicate StopsAt(st: State, service: string, fi: nat)
    requires ValidState(st)
  {
    fi < |st.meta| && !PassesOn(st, service, fi) && forall j :: 0 <= j < fi ==> PassesOn(st, service, j)
  }

  predicate Telling(r: Reason) { r != NoReason && r != NoFamily }

  // Why no family was found: the one that could not be read, or no family has
  // the service, or the first telling reason of the unusable ones.
  ghost predicate WhyNone(st: State, service: string, reason: Reason)
    requires ValidState(st)
  {
    if exists fi: nat :: StopsAt(st, service, fi) then
      forall fi: nat :: StopsAt(st, service, fi) ==>
        reason == if st.meta[fi].ok then VMError("services") else st.meta[fi].reason
    else if exists j :: 0 <= j < |st.meta| && st.meta[j].ok then reason == NoService
    else if exists j :: 0 <= j < |st.meta| && Telling(st.meta[j].reason) then
      exists j :: 0 <= j < |st.meta| && reason == st.meta[j].reason && Telling(reason)
                  && forall i :: 0 <= i < j ==> !Telling(st.meta[i].reason)
    else reason == NoFamily
  }

  lemma StopsOnce(st: State, service: string, fi: nat)
    requires ValidState(st) && StopsAt(st, service, fi)
    ensures forall j: nat :: StopsAt(st, service, j) ==> j == fi
    ensures !Serves(st, service, fi) ==> forall j: nat :: !IsFamilyOf(st, service, j)
    ensures WhyNone(st, service, if st.meta[fi].ok then VMError("services") else st.meta[fi].reason)
  {
    assert !PassesOn(st, service, fi);
    ServingStops(st, service);
    assert exists i: nat :: StopsAt(st, service, i);
    assert forall j: nat :: StopsAt(st, service, j) ==> j == fi;
  }

  lemma ServingStops(st: State, service: string)
    requires ValidState(st)
    ensures forall k: nat :: k < |st.meta| && Serves(st, service, k) ==> !PassesOn(st, service, k)
  {}

  method FamilyFor(st: State, service: string) returns (fam: Option<nat>, reason: Reason)
    requires ValidState(st)
    ensures fam.Some? ==> IsFamilyOf(st, service, fam.value) && reason == NoReason
    ensures fam.None? ==> (forall fi: nat :: !IsFamilyOf(st, service, fi)) && WhyNone(st, service, reason)
  {
    reason := NoReason;
    var anyOK := false;
    ServingStops(st, service);
    for fi := 0 to |st.meta|
      invariant forall j :: 0 <= j < fi ==> PassesOn(st, service, j)
      invariant anyOK <==> exists j :: 0 <= j < fi && st.meta[j].ok
      invariant !anyOK && reason == NoReason ==> forall j :: 0 <= j < fi ==> !Telling(st.meta[j].reason)
      invariant reason != NoReason ==> Telling(reason)
      invariant !anyOK && reason != NoReason ==>
        exists j :: 0 <= j < fi && reason == st.meta[j].reason && forall i :: 0 <= i < j ==> !Telling(st.meta[i].reason)
    {
      var m := st.meta[fi];
      if !m.ok {
        if m.reason.VMError? {
          StopsOnce(st, service, fi);
          return None, m.reason;
        }
        if reason == NoReason && m.reason != NoReason && m.reason != NoFamily {
          reason := m.reason;
        }
        continue;
      }
      anyOK := true;
      match st.presence[fi]
      case None =>
        StopsOnce(st, service, fi);
        return None, VMError("services");
      case Some(present) =>
        if service in present {
          return Some(fi), NoReason;
        }
    }
    if anyOK {
      return None, NoService;
    }
    if reason == NoReason {
      reason := NoFamily;
    }
    fam := None;
  }

  // ----- the kinds of a metric -----

  predicate Measurable(st: State, fi: nat, service: string, k: Kind)
    requires ValidState(st) && fi < |st.meta|
  {
    var m := st.meta[fi];
    && (k == KErr ==> m.statusLabels != [] && m.statusServices.Some? && service in m.statusServices.value)
    && !BackingOff(st, fi, k)
  }

  function WhyNot(st: State, fi: nat, service: string, k: Kind): Reason
    requires ValidState(st) && fi < |st.meta|
  {
    var m := st.meta[fi];
    if k == KErr && m.statusLabels == [] then NoStatus
    else if k == KErr && m.statusServices.None? then VMError("status labels")
    else if k == KErr && service !in m.statusServices.value then NoStatus
    else VMError("backing off")
  }

  method KindsOK(st: State, fi: nat, service: string, kinds: seq<Kind>) returns (ok: bool, reason: Reason)
    requires ValidState(st) && fi < |st.meta|
    ensures ok <==> forall i :: 0 <= i < |kinds| ==> Measurable(st, fi, service, kinds[i])
    ensures !ok ==> FirstObstacle(st, fi, service, kinds, reason)
  {
    var m := st.meta[fi];
    for i := 0 to |kinds|
      invariant forall j :: 0 <= j < i ==> Measurable(st, fi, service, kinds[j])
    {
      var k := kinds[i];
      if k == KErr {
        if m.statusLabels == [] {
          return false, NoStatus;
        }
        match m.statusServices
        case None => return false, VMError("status labels");
        case Some(services) =>
          if service !in services {
            return false, NoStatus;
          }
      }
      if (fi, k) in st.backoff && st.now < st.backoff[(fi, k)] {
        return false, VMError("backing off");
      }
    }
    ok, reason := true, NoReason;
  }

  // ----- the source decision -----

  datatype Source = FromVM(fam: nat) | FromSpans(reason: Reason)

  // Under which a measure is counted.
  function Label(src: Source): string { if src.FromVM? then "vm" else "span" }

  // The rule is measured from VictoriaMetrics, in family fi.
  ghost predicate UsesVM(st: State, service: string, metric: string, window: int, fi: nat)
    requires ValidState(st)
  {
    && !st.spanSetting && st.configured && window >= MIN_WINDOW
    && MetricKinds(metric).Some?
    && IsFamilyOf(st, service, fi)
    && forall i :: 0 <= i < |MetricKinds(metric).value| ==> Measurable(st, fi, service, MetricKinds(metric).value[i])
  }

  datatype PickInput = PickInput(
    spanSetting: bool, configured: bool, metricSupported: bool, windowOK: bool,
    familyFound: bool, familyReason: Reason, kindsOK: bool, kindReason: Reason)

  function PickAlertSource(p: PickInput): (bool, Reason) {
    if p.spanSetting then (false, SpanSetting)
    else if !p.configured then (false, NotConfigured)
    else if !p.metricSupported then (false, UnknownMetric)
    else if !p.windowOK then (false, ShortWindow)
    else if !p.familyFound then (false, if p.familyReason == NoReason then NoService else p.familyReason)
    else if !p.kindsOK then (false, p.kindReason)
    else (true, NoReason)
  }

  // Why the rule is measured from spans: the settings, the metric, the window,
  // the missing family, or the first kind that cannot be measured.
  ghost predicate WhySpans(st: State, service: string, metric: string, window: int, reason: Reason)
    requires ValidState(st)
  {
    if st.spanSetting || !st.configured then
      reason == if st.reason != NoReason then st.reason else if st.spanSetting then SpanSetting else NotConfigured
    else if MetricKinds(metric).None? then reason == UnknownMetric
    else if window < MIN_WINDOW then reason == ShortWindow
    else if forall fi: nat :: !IsFamilyOf(st, service, fi) then WhyNone(st, service, reason)
    else
      exists fi: nat ::
        IsFamilyOf(st, service, fi) && FirstObstacle(st, fi, service, MetricKinds(metric).value, reason)
  }

  ghost predicate FirstObstacle(st: State, fi: nat, service: string, kinds: seq<Kind>, reason: Reason)
    requires ValidState(st) && fi < |st.meta|
  {
    exists i :: 0 <= i < |kinds| && reason == WhyNot(st, fi, service, kinds[i])
      && !Measurable(st, fi, service, kinds[i])
      && forall j :: 0 <= j < i ==> Measurable(st, fi, service, kinds[j])
  }

  lemma NoneHasReason(st: State, service: string)
    requires ValidState(st)
    ensures !WhyNone(st, service, NoReason)
  {
  }

  method Decide(st: State, service: string, metric: string, window: int) returns (src: Source)
    requires ValidState(st)
    ensures forall fi: nat :: src == FromVM(fi) <==> UsesVM(st, service, metric, window, fi)
    ensures src.FromSpans? ==> WhySpans(st, service, metric, window, src.reason)
  {
    var p := PickInput(st.spanSetting, st.configured, MetricKinds(metric).Some?, window >= MIN_WINDOW,
                       false, NoReason, false, NoReason);
    var fam: Option<nat> := None;
    hide WhyNone, IsFamilyOf, WhyNot;
    if !p.spanSetting && p.configured && p.metricSupported && p.windowOK {
      var familyReason;
      fam, familyReason := FamilyFor(st, service);
      p := p.(familyFound := fam.Some?, familyReason := familyReason);
      if fam.Some? {
        var kindsOK, kindReason := KindsOK(st, fam.value, service, MetricKinds(metric).value);
        p := p.(kindsOK := kindsOK, kindReason := kindReason);
      }
    }
    var (use, reason) := PickAlertSource(p);
    if st.reason != NoReason && (!st.configured || p.spanSetting) {
      reason := st.reason;
    }
    OneFamily(st, service);
    NoneHasReason(st, service);
    src := if use then FromVM(fam.value) else FromSpans(reason);
  }

  // A service is measured in one family only.
  lemma OneFamily(st: State, service: string)
    requires ValidState(st)
    ensures forall i: nat, j: nat :: IsFamilyOf(st, service, i) && IsFamilyOf(st, service, j) ==> i == j
  {
    ServingStops(st, service);
  }

  // ----- the plan of a tick -----

  datatype Need = Need(metric: string, window: int, services: seq<string>)

  // One query of the fleet: a family, a kind and a window.
  datatype Key = Key(fam: nat, kind: Kind, window: int)

  predicate Asks(n: Need, window: int, k: Kind) {
    n.window == window && window >= MIN_WINDOW && MetricKinds(n.metric).Some? && k in MetricKinds(n.metric).value
  }

  ghost predicate Asked(needs: seq<Need>, window: int, k: Kind) {
    exists n :: n in needs && Asks(n, window, k)
  }

  // The query can be written: without a status label there is no error query.
  predicate Expressible(f: Family, k: Kind, window: int) {
    f.svcLabel != "" && window > 0 && (k == KErr ==> f.statusLabels != [])
  }

  predicate Usable(st: State, fi: nat)
    requires ValidState(st)
  {
    fi < |st.meta| && st.meta[fi].ok && st.presence[fi].Some? && st.presence[fi].value != {}
  }

  // The demand of a tick.
  ghost predicate Wanted(st: State, needs: seq<Need>, key: Key)
    requires ValidState(st)
  {
    && Usable(st, key.fam) && !BackingOff(st, key.fam, key.kind)
    && Expressible(st.meta[key.fam], key.kind, key.window)
    && Asked(needs, key.window, key.kind)
  }

  // The position (window, family, kind) comes after a key.
  predicate Before(key: Key, window: int, fi: nat, ki: nat) {
    key.window < window || (key.window == window && (key.fam < fi || (key.fam == fi && KindIndex(key.kind) < ki)))
  }

  predicate KeyBefore(a: Key, b: Key) { Before(a, b.window, b.fam, KindIndex(b.kind)) }

  function Capped(n: nat): nat { if n < MAX_QUERIES then n else MAX_QUERIES }

  // plan and then skipped list the demand once, by window, family and kind;
  // the plan is as much of it as the budget allows.
  ghost predicate IsPlan(st: State, needs: seq<Need>, plan: seq<Key>, skipped: seq<Key>)
    requires ValidState(st)
  {
    && (forall i, j :: 0 <= i < j < |plan + skipped| ==> KeyBefore((plan + skipped)[i], (plan + skipped)[j]))
    && (forall key :: key in plan + skipped <==> Wanted(st, needs, key))
    && |plan| == Capped(|plan| + |skipped|)
  }

  // The same for the part of the demand before a position.
  ghost predicate SoFar(
    st: State, needs: seq<Need>, plan: seq<Key>, skipped: seq<Key>, window: int, fi: nat, ki: nat)
    requires ValidState(st)
  {
    && (forall i, j :: 0 <= i < j < |plan + skipped| ==> KeyBefore((plan + skipped)[i], (plan + skipped)[j]))
    && (forall key :: key in plan + skipped <==> Wanted(st, needs, key) && Before(key, window, fi, ki))
    && |plan| == Capped(|plan| + |skipped|)
  }

  function KindAt(i: nat): Kind
    requires i < 4
  {
    if i == 0 then KCount else if i == 1 then KErr else if i == 2 then KSum else KQuant
  }

  lemma KindAtIndex(i: nat, k: Kind)
    requires i < 4
    ensures KindIndex(k) == i <==> k == KindAt(i)
  {}

  lemma AddKey(
    st: State, needs: seq<Need>, plan: seq<Key>, skipped: seq<Key>, window: int, fi: nat, ki: nat,
    plan': seq<Key>, skipped': seq<Key>)
    requires ValidState(st) && ki < 4 && SoFar(st, needs, plan, skipped, window, fi, ki)
    requires Wanted(st, needs, Key(fi, KindAt(ki), window))
    requires if |plan| >= MAX_QUERIES then plan' == plan && skipped' == skipped + [Key(fi, KindAt(ki), window)]
             else plan' == plan + [Key(fi, KindAt(ki), window)] && skipped' == skipped
    ensures SoFar(st, needs, plan', skipped', window, fi, ki + 1)
  {
    var key := Key(fi, KindAt(ki), window);
    assert |plan| < MAX_QUERIES ==> skipped == [];
    assert plan' + skipped' == plan + skipped + [key];
    hide Wanted;
    var all := plan + skipped;
    forall k ensures k in all + [key] <==> Wanted(st, needs, k) && Before(k, window, fi, ki + 1) {
      KindAtIndex(ki, k.kind);
      assert k in all <==> Wanted(st, needs, k) && Before(k, window, fi, ki);
    }
    forall i | 0 <= i < |all| ensures KeyBefore(all[i], key) {
      assert all[i] in all;
      KindAtIndex(ki, key.kind);
    }
  }

  lemma NoKey(st: State, needs: seq<Need>, plan: seq<Key>, skipped: seq<Key>, window: int, fi: nat, ki: nat)
    requires ValidState(st) && ki < 4 && SoFar(st, needs, plan, skipped, window, fi, ki)
    requires !Wanted(st, needs, Key(fi, KindAt(ki), window))
    ensures SoFar(st, needs, plan, skipped, window, fi, ki + 1)
  {
    hide Wanted;
    forall k ensures k in plan + skipped <==> Wanted(st, needs, k) && Before(k, window, fi, ki + 1) {
      KindAtIndex(ki, k.kind);
    }
  }

  lemma NextFamily(st: State, needs: seq<Need>, plan: seq<Key>, skipped: seq<Key>, window: int, fi: nat, ki: nat)
    requires ValidState(st) && SoFar(st, needs, plan, skipped, window, fi, ki)
    requires ki == 4 || !Usable(st, fi)
    ensures SoFar(st, needs, plan, skipped, window, fi + 1, 0)
  {
    hide Asked, Expressible, BackingOff;
    forall k ensures k in plan + skipped <==> Wanted(st, needs, k) && Before(k, window, fi + 1, 0) {}
  }

  lemma NextWindow(st: State, needs: seq<Need>, plan: seq<Key>, skipped: seq<Key>, window: int, fi: nat, window': int)
    requires ValidState(st) && SoFar(st, needs, plan, skipped, window, fi, 0) && fi >= |st.meta| && window < window'
    requires forall w, k :: window < w < window' ==> !Asked(needs, w, k)
    ensures SoFar(st, needs, plan, skipped, window', 0, 0)
  {
    hide Asked, Expressible, BackingOff;
    forall k ensures k in plan + skipped <==> Wanted(st, needs, k) && Before(k, window', 0, 0) {}
  }

  method PlanKinds(
    st: State, ghost needs: seq<Need>, window: int, kinds: set<Kind>, fi: nat, plan0: seq<Key>, skipped0: seq<Key>)
    returns (plan: seq<Key>, skipped: seq<Key>)
    requires ValidState(st) && Usable(st, fi)
    requires forall k :: k in kinds <==> Asked(needs, window, k)
    requires SoFar(st, needs, plan0, skipped0, window, fi, 0)
    ensures SoFar(st, needs, plan, skipped, window, fi, 4)
  {
    plan, skipped := plan0, skipped0;
    hide SoFar, Asked, Usable;
    for ki := 0 to 4
      invariant SoFar(st, needs, plan, skipped, window, fi, ki)
    {
      var k := KindAt(ki);
      var key := Key(fi, k, window);
      UsableMeans(st, fi);
      if k !in kinds || BackingOff(st, fi, k) || !Expressible(st.meta[fi], k, window) {
        NoKey(st, needs, plan, skipped, window, fi, ki);
        continue;
      }
      if |plan| >= MAX_QUERIES {
        AddKey(st, needs, plan, skipped, window, fi, ki, plan, skipped + [key]);
        skipped := skipped + [key];
      } else {
        AddKey(st, needs, plan, skipped, window, fi, ki, plan + [key], skipped);
        plan := plan + [key];
      }
    }
  }

  lemma UsableMeans(st: State, fi: nat)
    requires ValidState(st) && Usable(st, fi)
    ensures fi < |st.meta|
  {}

  method PlanWindow(
    st: State, ghost needs: seq<Need>, window: int, kinds: set<Kind>, plan0: seq<Key>, skipped0: seq<Key>)
    returns (plan: seq<Key>, skipped: seq<Key>)
    requires ValidState(st)
    requires forall k :: k in kinds <==> Asked(needs, window, k)
    requires SoFar(st, needs, plan0, skipped0, window, 0, 0)
    ensures SoFar(st, needs, plan, skipped, window, FAMILIES, 0)
  {
    plan, skipped := plan0, skipped0;
    hide SoFar, Asked;
    for fi := 0 to FAMILIES
      invariant SoFar(st, needs, plan, skipped, window, fi, 0)
    {
      if fi >= |st.meta| || !st.meta[fi].ok || st.presence[fi].None? || |st.presence[fi].value| == 0 {
        NextFamily(st, needs, plan, skipped, window, fi, 0);
        continue;
      }
      plan, skipped := PlanKinds(st, needs, window, kinds, fi, plan, skipped);
      NextFamily(st, needs, plan, skipped, window, fi, 4);
    }
  }

  predicate Listed(m: map<int, set<Kind>>, w: int, k: Kind) { w in m && k in m[w] }

  method CollectKinds(needs: seq<Need>) returns (kindsByWindow: map<int, set<Kind>>)
    ensures forall w, k :: Listed(kindsByWindow, w, k) <==> Asked(needs, w, k)
    ensures forall w, k :: Asked(needs, w, k) ==> w in kindsByWindow
  {
    kindsByWindow := map[];
    for i := 0 to |needs|
      invariant forall w, k :: Listed(kindsByWindow, w, k) <==> Asked(needs[..i], w, k)
    {
      var n := needs[i];
      AskedNext(needs, i);
      var kinds := MetricKinds(n.metric);
      if kinds.None? || n.window < MIN_WINDOW {
        continue;
      }
      var known := if n.window in kindsByWindow then kindsByWindow[n.window] else {};
      var added := set k | k in kinds.value;
      ListMore(kindsByWindow, n, known, added);
      ghost var after := kindsByWindow[n.window := known + added];
      forall w: int, k: Kind ensures Listed(after, w, k) <==> Asked(needs[..i + 1], w, k) {
        assert Listed(after, w, k) <==> Listed(kindsByWindow, w, k) || Asks(n, w, k);
        assert Listed(kindsByWindow, w, k) <==> Asked(needs[..i], w, k);
        assert Asked(needs[..i + 1], w, k) <==> Asked(needs[..i], w, k) || Asks(n, w, k);
      }
      kindsByWindow := kindsByWindow[n.window := known + added];
    }
    assert needs[..|needs|] == needs;
    assert forall w, k :: Asked(needs, w, k) ==> Listed(kindsByWindow, w, k);
  }

  lemma ListMore(m: map<int, set<Kind>>, n: Need, known: set<Kind>, added: set<Kind>)
    requires MetricKinds(n.metric).Some? && n.window >= MIN_WINDOW
    requires known == if n.window in m then m[n.window] else {}
    requires added == set k | k in MetricKinds(n.metric).value
    ensures forall w, k :: Listed(m[n.window := known + added], w, k) <==> Listed(m, w, k) || Asks(n, w, k)
  {
    hide MetricKinds;
  }

  lemma AskedNext(needs: seq<Need>, i: nat)
    requires i < |needs|
    ensures forall w, k :: Asked(needs[..i + 1], w, k) <==> Asked(needs[..i], w, k) || Asks(needs[i], w, k)
  {
    hide Asks;
    forall w, k ensures Asked(needs[..i + 1], w, k) <==> Asked(needs[..i], w, k) || Asks(needs[i], w, k) {
      assert needs[..i + 1] == needs[..i] + [needs[i]];
      if Asked(needs[..i], w, k) {
        var n :| n in needs[..i] && Asks(n, w, k);
        assert n in needs[..i + 1];
      }
      assert needs[i] in needs[..i + 1];
    }
  }

  // The elements of a set in an arbitrary order, as a range over a map gives them.
  method AnyOrder<T(==)>(s: set<T>) returns (xs: seq<T>)
    ensures forall i, j :: 0 <= i < j < |xs| ==> xs[i] != xs[j]
    ensures forall x :: x in xs <==> x in s
  {
    xs := [];
    var todo := s;
    while todo != {}
      invariant todo <= s
      invariant forall i, j :: 0 <= i < j < |xs| ==> xs[i] != xs[j]
      invariant forall x :: x in xs <==> x in s && x !in todo
      decreases todo
    {
      var x :| x in todo;
      xs := xs + [x];
      todo := todo - {x};
    }
  }

  predicate IntLess(a: int, b: int) { a < b }

  method SortedWindows(windows: set<int>) returns (wins: seq<int>)
    ensures forall i, j :: 0 <= i < j < |wins| ==> wins[i] < wins[j]
    ensures forall w :: w in wins <==> w in windows
  {
    var list := AnyOrder(windows);
    wins := SortSlice(list, IntLess);
    assert DistinctBy(list, IntLess);
    DistinctPermutes(list, wins, IntLess);
    assert forall w :: w in wins <==> w in multiset(wins);
    assert forall w :: w in list <==> w in multiset(list);
  }

  lemma NothingPlanned(st: State, needs: seq<Need>, w0: int)
    requires ValidState(st) && forall w, k :: w < w0 ==> !Asked(needs, w, k)
    ensures SoFar(st, needs, [], [], w0, 0, 0)
  {
    hide Asked;
  }

  lemma AllPlanned(st: State, needs: seq<Need>, plan: seq<Key>, skipped: seq<Key>, w0: int)
    requires ValidState(st) && SoFar(st, needs, plan, skipped, w0, 0, 0)
    requires forall w, k :: w >= w0 ==> !Asked(needs, w, k)
    ensures IsPlan(st, needs, plan, skipped)
  {
    hide Asked;
  }

  method AlertVMPlan(st: State, needs: seq<Need>) returns (plan: seq<Key>, skipped: seq<Key>)
    requires ValidState(st)
    ensures IsPlan(st, needs, plan, skipped)
  {
    var kindsByWindow := CollectKinds(needs);
    var wins := SortedWindows(kindsByWindow.Keys);
    plan, skipped := [], [];
    hide SoFar, Asked, IsPlan;
    ghost var at := if wins == [] then 0 else wins[0];
    assert forall w, k :: Asked(needs, w, k) ==> w in wins;
    NothingPlanned(st, needs, at);
    for i := 0 to |wins|
      invariant SoFar(st, needs, plan, skipped, at, 0, 0)
      invariant i < |wins| ==> at == wins[i]
      invariant forall j :: 0 <= j < i ==> wins[j] < at
      invariant i == |wins| ==> forall w :: w in wins ==> w < at
    {
      var w := wins[i];
      plan, skipped := PlanWindow(st, needs, w, kindsByWindow[w], plan, skipped);
      ghost var next := if i + 1 < |wins| then wins[i + 1] else w + 1;
      NextWindow(st, needs, plan, skipped, w, FAMILIES, next);
      at := next;
    }
    AllPlanned(st, needs, plan, skipped, at);
  }

  // ----- the results of a tick -----

  datatype Reply = Error | Series(scalars: map<string, real>, phis: map<string, map<string, real>>)

  datatype Sample = Sample(
    count: Option<real>, err: Option<real>, sum: Option<real>, quant: map<string, real>, scale: real, window: int)

  function Positive(x: Option<real>): real { if x.Some? && x.value > 0.0 then x.value else 0.0 }

  function Phi(metric: string): string {
    if metric == "p50_ms" then "0.5"
    else if metric == "p95_ms" then "0.95"
    else if metric == "p99_ms" then "0.99"
    else ""
  }

  // The value of a metric, None when the window holds no measure.
  function MetricValue(metric: string, s: Sample): Option<real> {
    var count, errs := Positive(s.count), Positive(s.err);
    var scale := if s.scale <= 0.0 then 1.0 else s.scale;
    if metric == "request_rate" then if s.window <= 0 then None else Some(count / (s.window as real))
    else if metric == "error_count" then Some(errs)
    else if metric == "error_rate" then
      if count <= 0.0 then None else Some(if errs / count * 100.0 < 100.0 then errs / count * 100.0 else 100.0)
    else if metric == "avg_ms" then
      if count <= 0.0 || s.sum.None? || s.sum.value < 0.0 then None else Some(s.sum.value / count * scale)
    else if metric == "p50_ms" || metric == "p95_ms" || metric == "p99_ms" then
      if Phi(metric) in s.quant then Some(s.quant[Phi(metric)] * scale) else None
    else None
  }

  // Milliseconds in the duration unit of a family: the old gRPC one has them already.
  function Scale(fi: nat): real { if fi == 1 then 1.0 else 1000.0 }

  // The number of requests, to the nearest integer, halves upwards.
  function Rounded(x: Option<real>): nat { (Positive(x) + 0.5).Floor }

  datatype Measure = Measure(source: Source, value: Option<real>, count: nat)

  function Times<K>(counts: map<K, nat>, k: K): nat { if k in counts then counts[k] else 0 }

  function Lookup<K, T>(m: map<K, T>, k: K): Option<T> { if k in m then Some(m[k]) else None }

  class AlertVMTick {
    const st: State
    var vals: map<Key, map<string, real>>
    var quant: map<Key, map<string, map<string, real>>>
    var failed: map<Key, Reason>
    var counts: map<(string, string), nat>

    constructor (st: State)
      ensures this.st == st && vals == map[] && quant == map[] && failed == map[] && counts == map[]
    {
      this.st := st;
      vals, quant, failed, counts := map[], map[], map[], map[];
    }

    // The results of a plan: what was skipped and what the store refused has a
    // reason, everything else its values.
    ghost predicate Holds(plan: seq<Key>, skipped: seq<Key>, query: Key -> Reply)
      reads this
    {
      forall k :: HoldsAt(k, k in plan, k in skipped, query(k))
    }

    ghost predicate HoldsAt(k: Key, planned: bool, skipped: bool, reply: Reply)
      reads this
    {
      && Lookup(failed, k)
        == (if skipped then Some(Budget) else if planned && reply.Error? then Some(VMError("query")) else None)
      && Lookup(vals, k) == (if planned && reply.Series? && k.kind != KQuant then Some(reply.scalars) else None)
      && Lookup(quant, k) == (if planned && reply.Series? && k.kind == KQuant then Some(reply.phis) else None)
    }

    // The query of a key was answered.
    ghost predicate Answered(key: Key)
      reads this`vals, this`quant, this`failed
    {
      key !in failed && (if key.kind == KQuant then key in quant else key in vals)
    }

    // The numbers of a service under a key.
    ghost function Scalar(service: string, key: Key): Option<real>
      reads this`vals
    {
      if key in vals then Lookup(vals[key], service) else None
    }

    ghost function Phis(service: string, key: Key): map<string, real>
      reads this`quant
    {
      if key in quant && service in quant[key] then quant[key][service] else map[]
    }

    // What is known of a service for the first n kinds of a metric.
    ghost function SampleOf(service: string, kinds: seq<Kind>, fi: nat, window: int): Sample
      reads this`vals, this`quant
    {
      Sample(
        if KCount in kinds then Scalar(service, Key(fi, KCount, window)) else None,
        if KErr in kinds then Scalar(service, Key(fi, KErr, window)) else None,
        if KSum in kinds then Scalar(service, Key(fi, KSum, window)) else None,
        if KQuant in kinds then Phis(service, Key(fi, KQuant, window)) else map[],
        Scale(fi), window)
    }

    // What a rule measures for one service: from VictoriaMetrics exactly when it
    // is to be measured there and all its queries were answered. Otherwise the
    // caller measures spans, for the reason given.
    ghost predicate IsMeasure(service: string, metric: string, window: int, m: Measure)
      requires ValidState(st)
      reads this`vals, this`quant, this`failed
    {
      && (forall fi: nat :: m.source == FromVM(fi) <==>
            UsesVM(st, service, metric, window, fi)
            && forall key :: Required(metric, fi, window, key) ==> Answered(key))
      && (forall fi: nat :: m.source == FromVM(fi) ==>
            m.value == MetricValue(metric, SampleOf(service, MetricKinds(metric).value, fi, window))
            && m.count == Rounded(SampleOf(service, MetricKinds(metric).value, fi, window).count))
      && (m.source.FromSpans? ==> m.value == None && m.count == 0)
      && (m.source.FromSpans? && (forall fi: nat :: !UsesVM(st, service, metric, window, fi)) ==>
            WhySpans(st, service, metric, window, m.source.reason))
      && (m.source.FromSpans? ==> forall fi: nat :: UsesVM(st, service, metric, window, fi) ==>
            exists key :: Required(metric, fi, window, key) && Lacking(key, m.source.reason))
    }

    // Why there is no answer for a key.
    ghost predicate Lacking(key: Key, reason: Reason)
      reads this`vals, this`quant, this`failed
    {
      !Answered(key) && reason == if key in failed then failed[key] else Budget
    }

    // The measure of a rule for one service; fell tells that some query was
    // neither answered nor refused.
    method Measured(service: string, metric: string, window: int) returns (m: Measure, ghost fell: bool)
      requires ValidState(st)
      ensures IsMeasure(service, metric, window, m)
      ensures (forall fi: nat :: !UsesVM(st, service, metric, window, fi)) ==> !fell
      ensures forall fi: nat :: UsesVM(st, service, metric, window, fi) && fell ==>
                exists key :: Required(metric, fi, window, key) && key !in failed && !Answered(key)
    {
      fell := false;
      var src := Decide(st, service, metric, window);
      hide UsesVM, MetricKinds, WhySpans;
      OnlyOneUsed(st, service, metric, window);
      if src.FromSpans? {
        assert forall fi: nat :: src != FromVM(fi);
        return Measure(src, None, 0), false;
      }
      var fi := src.fam;
      assert UsesVM(st, service, metric, window, fi);
      KindsOfUsed(st, service, metric, window, fi);
      var kinds := MetricKinds(metric).value;
      var bad: Option<Reason>;
      var s;
      s, bad, fell := ReadKinds(service, metric, kinds, fi, window);
      if bad.Some? {
        m := Measure(FromSpans(bad.value), None, 0);
      } else {
        m := Measure(src, MetricValue(metric, s), Rounded(s.count));
      }
    }

    method ReadKinds(service: string, ghost metric: string, kinds: seq<Kind>, fi: nat, window: int)
      returns (s: Sample, bad: Option<Reason>, ghost fell: bool)
      requires MetricKinds(metric) == Some(kinds)
      ensures bad.None? <==> forall key :: Required(metric, fi, window, key) ==> Answered(key)
      ensures bad.None? ==> !fell && s == SampleOf(service, kinds, fi, window)
      ensures bad.Some? ==> exists key :: Required(metric, fi, window, key) && Lacking(key, bad.value)
      ensures fell ==> exists key :: Required(metric, fi, window, key) && key !in failed && !Answered(key)
    {
      hide Scale;
      s := Sample(None, None, None, map[], Scale(fi), window);
      bad, fell := None, false;
      for i := 0 to |kinds|
        invariant forall j :: 0 <= j < i ==> Answered(Key(fi, kinds[j], window))
        invariant s == SampleOf(service, kinds[..i], fi, window)
      {
        var k := kinds[i];
        var key := Key(fi, k, window);
        assert Required(metric, fi, window, key) by { assert k in kinds; }
        assert kinds[..i + 1] == kinds[..i] + [k];
        if key in failed {
          return s, Some(failed[key]), false;
        }
        if k == KQuant {
          if key !in quant {
            return s, Some(Budget), true;
          }
          s := s.(quant := if service in quant[key] then quant[key][service] else map[]);
          continue;
        }
        if key !in vals {
          return s, Some(Budget), true;
        }
        var v := Lookup(vals[key], service);
        match k
        case KCount => s := s.(count := v);
        case KErr => s := s.(err := v);
        case KSum => s := s.(sum := v);
        case KQuant =>
      }
      assert kinds[..|kinds|] == kinds;
      hide SampleOf;
      forall key | Required(metric, fi, window, key) ensures Answered(key) {
        var j :| 0 <= j < |kinds| && kinds[j] == key.kind;
        assert Answered(Key(fi, kinds[j], window));
      }
    }

    // Counted by metric and source.
    method MeasureRule(service: string, metric: string, window: int) returns (m: Measure)
      requires ValidState(st)
      modifies this`counts
      ensures IsMeasure(service, metric, window, m)
      ensures counts == old(counts)[(metric, Label(m.source)) := 1 + Times(old(counts), (metric, Label(m.source)))]
    {
      ghost var fell;
      m, fell := Measured(service, metric, window);
      var badge := (metric, Label(m.source));
      counts := counts[badge := 1 + Times(counts, badge)];
    }

    // recorded tells that the reader could be locked to note failed kinds; a
    // noted one backs off for KIND_BACKOFF seconds.
    method Prepare(needs: seq<Need>, query: Key -> Reply, recorded: bool)
      returns (plan: seq<Key>, skipped: seq<Key>, backoff: map<(nat, Kind), int>)
      requires ValidState(st)
      requires vals == map[] && quant == map[] && failed == map[]
      modifies this
      ensures if st.spanSetting || !st.configured then plan == [] && skipped == [] else IsPlan(st, needs, plan, skipped)
      ensures Holds(plan, skipped, query) && counts == old(counts)
      ensures BacksOff(backoff, st, if recorded then plan else [], query)
    {
      backoff := st.backoff;
      if st.spanSetting || !st.configured {
        return [], [], backoff;
      }
      plan, skipped := AlertVMPlan(st, needs);
      PlanApart(st, needs, plan, skipped);
      hide IsPlan;
      for i := 0 to |skipped|
        invariant vals == map[] && quant == map[] && counts == old(counts)
        invariant failed.Keys == (set k | k in skipped[..i]) && forall k :: k in failed ==> failed[k] == Budget
      {
        assert skipped[..i + 1] == skipped[..i] + [skipped[i]];
        failed := failed[skipped[i] := Budget];
      }
      assert skipped[..|skipped|] == skipped && plan[..0] == [];
      hide Holds, BacksOff;
      HoldsNothing(skipped, query);
      for i := 0 to |plan|
        invariant Holds(plan[..i], skipped, query) && counts == old(counts)
      {
        ReadOne(plan[i], plan, i, skipped, query);
      }
      assert plan[..|plan|] == plan;
      if recorded {
        backoff := NoteFailures(plan, query);
      } else {
        NothingNoted(st, query);
      }
    }

    method NoteFailures(plan: seq<Key>, query: Key -> Reply) returns (backoff: map<(nat, Kind), int>)
      ensures BacksOff(backoff, st, plan, query)
    {
      backoff := st.backoff;
      for i := 0 to |plan|
        invariant BacksOff(backoff, st, plan[..i], query)
      {
        assert plan[..i + 1] == plan[..i] + [plan[i]];
        FailureNext(st, plan[..i], plan[i], query);
        if query(plan[i]).Error? {
          backoff := backoff[(plan[i].fam, plan[i].kind) := st.now + KIND_BACKOFF];
        }
      }
      assert plan[..|plan|] == plan;
    }

    lemma HoldsNothing(skipped: seq<Key>, query: Key -> Reply)
      requires vals == map[] && quant == map[]
      requires failed.Keys == (set k | k in skipped) && forall k :: k in failed ==> failed[k] == Budget
      ensures Holds([], skipped, query)
    {}

    method ReadOne(key: Key, ghost plan: seq<Key>, ghost i: nat, ghost skipped: seq<Key>, query: Key -> Reply)
      requires i < |plan| && key == plan[i] && key !in skipped && Holds(plan[..i], skipped, query)
      modifies this
      ensures Holds(plan[..i + 1], skipped, query) && counts == old(counts)
    {
      assert forall k :: k in plan[..i + 1] <==> k in plan[..i] || k == key;
      assert HoldsAt(key, key in plan[..i], false, query(key));
      match query(key)
      case Error => failed := failed[key := VMError("query")];
      case Series(scalars, phis) =>
        if key.kind == KQuant {
          quant := quant[key := phis];
        } else {
          vals := vals[key := scalars];
        }
    }
  }

  // Some query of the family and kind failed.
  ghost predicate FailedIn(plan: seq<Key>, query: Key -> Reply, fam: nat, kind: Kind) {
    exists key :: key in plan && key.fam == fam && key.kind == kind && query(key).Error?
  }

  // What must not be asked after the tick: the kinds that failed in it, and
  // what was so before.
  ghost predicate BacksOff(backoff: map<(nat, Kind), int>, st: State, plan: seq<Key>, query: Key -> Reply) {
    forall fam: nat, kind ::
      Lookup(backoff, (fam, kind))
      == if FailedIn(plan, query, fam, kind) then Some(st.now + KIND_BACKOFF) else Lookup(st.backoff, (fam, kind))
  }

  lemma NothingNoted(st: State, query: Key -> Reply)
    ensures BacksOff(st.backoff, st, [], query)
  {}

  lemma FailureNext(st: State, plan: seq<Key>, key: Key, query: Key -> Reply)
    ensures forall fam: nat, kind :: FailedIn(plan + [key], query, fam, kind)
              <==> FailedIn(plan, query, fam, kind) || (fam == key.fam && kind == key.kind && query(key).Error?)
  {
    forall fam: nat, kind
      ensures FailedIn(plan + [key], query, fam, kind)
         <==> FailedIn(plan, query, fam, kind) || (fam == key.fam && kind == key.kind && query(key).Error?)
    {
      if FailedIn(plan, query, fam, kind) {
        var k :| k in plan && k.fam == fam && k.kind == kind && query(k).Error?;
        assert k in plan + [key];
      }
      assert key in plan + [key];
    }
  }

  // A kind that failed is neither planned nor used again until its time is up:
  // a rule that needs it is measured from spans.
  lemma FailedKindsRest(
    st: State, plan: seq<Key>, query: Key -> Reply, key: Key, later: State, needs: seq<Need>, plan': seq<Key>,
    skipped': seq<Key>)
    requires ValidState(later) && BacksOff(later.backoff, st, plan, query)
    requires key in plan && query(key).Error? && later.now < st.now + 300
    requires IsPlan(later, needs, plan', skipped')
    ensures forall k :: k in plan' + skipped' ==> !(k.fam == key.fam && k.kind == key.kind)
    ensures forall service, metric, window :: UsesVM(later, service, metric, window, key.fam) ==>
              MetricKinds(metric).Some? && key.kind !in MetricKinds(metric).value
  {
    assert FailedIn(plan, query, key.fam, key.kind);
    assert Lookup(later.backoff, (key.fam, key.kind)) == Some(st.now + KIND_BACKOFF);
    assert BackingOff(later, key.fam, key.kind);
    hide BacksOff, FailedIn, IsFamilyOf, MetricKinds;
    forall service, metric, window | UsesVM(later, service, metric, window, key.fam)
      ensures MetricKinds(metric).Some? && key.kind !in MetricKinds(metric).value
    {
      var kinds := MetricKinds(metric).value;
      forall i | 0 <= i < |kinds| ensures kinds[i] != key.kind {
        assert Measurable(later, key.fam, service, kinds[i]);
      }
    }
  }

  lemma PlanApart(st: State, needs: seq<Need>, plan: seq<Key>, skipped: seq<Key>)
    requires ValidState(st) && IsPlan(st, needs, plan, skipped)
    ensures forall k :: k in plan ==> k !in skipped
  {
    forall i, j | 0 <= i < |plan| && 0 <= j < |skipped| ensures plan[i] != skipped[j] {
      assert (plan + skipped)[i] == plan[i] && (plan + skipped)[|plan| + j] == skipped[j];
    }
  }

  // ----- what a measure promises -----

  ghost predicate Registered(needs: seq<Need>, metric: string, window: int) {
    exists n :: n in needs && n.metric == metric && n.window == window
  }

  ghost predicate Required(metric: string, fi: nat, window: int, key: Key) {
    MetricKinds(metric).Some? && key.kind in MetricKinds(metric).value && key.fam == fi && key.window == window
  }

  lemma KindsAreMeasurable(st: State, service: string, metric: string, window: int, fi: nat, key: Key)
    requires ValidState(st) && UsesVM(st, service, metric, window, fi) && Required(metric, fi, window, key)
    ensures Measurable(st, fi, service, key.kind)
  {
    var kinds := MetricKinds(metric).value;
    var i :| 0 <= i < |kinds| && kinds[i] == key.kind;
  }

  // The planner and the source decision agree: for a rule the planner was told
  // of, which is measured from family fi, every query that its measure reads
  // was planned or skipped.
  lemma PlannedOrSkipped(
    st: State, needs: seq<Need>, plan: seq<Key>, skipped: seq<Key>, service: string, metric: string, window: int,
    fi: nat)
    requires ValidState(st) && IsPlan(st, needs, plan, skipped)
    requires Registered(needs, metric, window) && UsesVM(st, service, metric, window, fi)
    ensures forall key :: Required(metric, fi, window, key) ==> key in plan || key in skipped
  {
    UsableWhenUsed(st, service, metric, window, fi);
    forall key | Required(metric, fi, window, key) ensures key in plan || key in skipped {
      KindsAreMeasurable(st, service, metric, window, fi, key);
      AskedWhenRegistered(needs, metric, window, key.kind);
      hide UsesVM, Registered, Asked, IsFamilyOf;
      assert Wanted(st, needs, key);
      assert key in plan + skipped;
    }
  }

  lemma UsableWhenUsed(st: State, service: string, metric: string, window: int, fi: nat)
    requires ValidState(st) && UsesVM(st, service, metric, window, fi)
    ensures Usable(st, fi) && window >= MIN_WINDOW && MetricKinds(metric).Some?
  {}

  lemma AskedWhenRegistered(needs: seq<Need>, metric: string, window: int, k: Kind)
    requires Registered(needs, metric, window) && window >= MIN_WINDOW
    requires MetricKinds(metric).Some? && k in MetricKinds(metric).value
    ensures Asked(needs, window, k)
  {
    var n :| n in needs && n.metric == metric && n.window == window;
    assert Asks(n, window, k);
  }

  // At most 24 queries a tick; nothing is skipped before that.
  lemma PlanIsCapped(st: State, needs: seq<Need>, plan: seq<Key>, skipped: seq<Key>)
    requires ValidState(st) && IsPlan(st, needs, plan, skipped)
    ensures |plan| <= 24 && (skipped != [] ==> |plan| == 24)
    ensures forall p, s :: p in plan && s in skipped ==> KeyBefore(p, s)
  {
    forall p, s | p in plan && s in skipped ensures KeyBefore(p, s) {
      var i :| 0 <= i < |plan| && plan[i] == p;
      var j :| 0 <= j < |skipped| && skipped[j] == s;
      assert (plan + skipped)[i] == p && (plan + skipped)[|plan| + j] == s;
    }
  }

  // A strict order on the keys, so that the list of the demand is unique.
  lemma PlanUnique(
    st: State, needs: seq<Need>, plan: seq<Key>, skipped: seq<Key>, plan': seq<Key>, skipped': seq<Key>)
    requires ValidState(st) && IsPlan(st, needs, plan, skipped) && IsPlan(st, needs, plan', skipped')
    ensures plan == plan' && skipped == skipped'
  {
    var all, all' := plan + skipped, plan' + skipped';
    assert forall k :: k in all <==> k in all';
    hide Wanted;
    StrictListsEqual(all, all');
    assert all[..|plan|] == plan && all'[..|plan'|] == plan';
    assert all[|plan|..] == skipped && all'[|plan'|..] == skipped';
  }

  lemma KeyOrder(a: Key, b: Key)
    ensures !(KeyBefore(a, b) && KeyBefore(b, a)) && !KeyBefore(a, a)
  {}

  lemma {:induction false} StrictListsEqual(xs: seq<Key>, ys: seq<Key>)
    requires forall i, j :: 0 <= i < j < |xs| ==> KeyBefore(xs[i], xs[j])
    requires forall i, j :: 0 <= i < j < |ys| ==> KeyBefore(ys[i], ys[j])
    requires forall k :: k in xs <==> k in ys
    ensures xs == ys
  {
    hide KeyBefore;
    forall i | 0 <= i < |ys| ensures ys[i] in xs {
      assert ys[i] in ys;
    }
    assert ys != [] ==> ys[0] in xs;
    if xs == [] {
    } else {
      assert xs[0] in ys;
      var j :| 0 <= j < |ys| && ys[j] == xs[0];
      assert ys[0] in xs;
      var i :| 0 <= i < |xs| && xs[i] == ys[0];
      KeyOrder(xs[0], ys[0]);
      assert xs[0] == ys[0];
      forall k ensures k in xs[1..] <==> k in ys[1..] {
        TailHas(xs, k);
        TailHas(ys, k);
      }
      StrictListsEqual(xs[1..], ys[1..]);
      assert xs == [xs[0]] + xs[1..] && ys == [ys[0]] + ys[1..];
    }
  }

  lemma TailHas(xs: seq<Key>, k: Key)
    requires xs != [] && forall i, j :: 0 <= i < j < |xs| ==> KeyBefore(xs[i], xs[j])
    ensures k in xs[1..] <==> k in xs && k != xs[0]
  {
    assert xs == [xs[0]] + xs[1..];
    if k in xs[1..] {
      var i :| 0 <= i < |xs[1..]| && xs[1..][i] == k;
      assert KeyBefore(xs[0], xs[i + 1]);
      KeyOrder(xs[0], xs[0]);
    }
  }

  lemma KindsOfUsed(st: State, service: string, metric: string, window: int, fi: nat)
    requires ValidState(st) && UsesVM(st, service, metric, window, fi)
    ensures MetricKinds(metric).Some?
  {}

  lemma OnlyOneUsed(st: State, service: string, metric: string, window: int)
    requires ValidState(st)
    ensures forall i: nat, j: nat ::
              UsesVM(st, service, metric, window, i) && UsesVM(st, service, metric, window, j) ==> i == j
  {
    OneFamily(st, service);
    hide IsFamilyOf;
  }

  // In a prepared tick every query behind the measure of a registered rule has
  // an answer or a reason: the measure never falls through to "budget", and it
  // has an answer exactly when the query was within the budget and succeeded.
  lemma NeverFallsThrough(
    t: AlertVMTick, needs: seq<Need>, plan: seq<Key>, skipped: seq<Key>, query: Key -> Reply,
    service: string, metric: string, window: int, fi: nat, key: Key)
    requires ValidState(t.st) && IsPlan(t.st, needs, plan, skipped) && t.Holds(plan, skipped, query)
    requires Registered(needs, metric, window) && UsesVM(t.st, service, metric, window, fi)
    requires Required(metric, fi, window, key)
    ensures key in t.failed || t.Answered(key)
    ensures t.Answered(key) <==> key in plan && query(key).Series?
  {
    PlannedOrSkipped(t.st, needs, plan, skipped, service, metric, window, fi);
    PlanApart(t.st, needs, plan, skipped);
    hide IsPlan, UsesVM, Registered, Required;
    assert t.HoldsAt(key, key in plan, key in skipped, query(key));
  }

  // A rate of errors is a percentage.
  lemma ErrorRateIsPercentage(s: Sample)
    ensures MetricValue("error_rate", s).Some? ==> 0.0 <= MetricValue("error_rate", s).value <= 100.0
    ensures MetricValue("error_rate", s).Some? <==> s.count.Some? && s.count.value > 0.0
  {}
}
