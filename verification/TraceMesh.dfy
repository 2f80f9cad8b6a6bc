// Synthetic traces of the demo mesh: a tree of hops is resolved into durations
// bottom-up and then laid out as spans. Times are nanoseconds.
module TraceMesh {
  import opened Problems

  const MS := 1000000
  const HOP_GAP := 4000000

  datatype Proto =
    Http | Grpc | DbOracle | DbPostgres | DbMongo | Redis | KafkaPub | KafkaConsume | Ext | Unknown

  datatype Hop = Hop(proto: Proto, canFail: bool, par: bool, rep: bool, kids: seq<Hop>)

  // A hop with its randomness resolved.
  datatype Built = Built(proto: Proto, par: bool, d: int, fail: bool, kids: seq<Built>)

  // ----- resolving -----

  // What the kids of a hop take together: the longest of parallel ones, or the
  // sum of sequential ones with their gaps.
  function KidSpan(kids: seq<Built>, par: bool): int {
    if kids == [] then 0
    else
      var before, last := KidSpan(kids[..|kids| - 1], par), kids[|kids| - 1];
      if par then (if last.d > before then last.d else before) else before + last.d + HOP_GAP
  }

  // A failed hop has no kids; a healthy one encloses its kids, unless it
  // publishes to Kafka.
  ghost predicate Enclosing(b: Built) {
    && b.d >= MS
    && (b.fail ==> b.kids == [])
    && (b.kids != [] && b.proto != KafkaPub ==> b.d >= KidSpan(b.kids, b.par) + 2 * HOP_GAP)
    && forall i :: 0 <= i < |b.kids| ==> Enclosing(b.kids[i])
  }

  // b is h with its randomness resolved.
  ghost predicate Resolves(b: Built, h: Hop)
    decreases h, |h.kids| + 1
  {
    && b.proto == h.proto && b.par == h.par
    && (if b.fail then h.canFail else ResolvesFirst(b.kids, h, |h.kids|))
  }

  // kids come from the first n kids of h: each once, or at least once when it
  // repeats, in order.
  ghost predicate ResolvesFirst(kids: seq<Built>, h: Hop, n: nat)
    requires n <= |h.kids|
    decreases h, n
  {
    if n == 0 then kids == []
    else
      exists k :: 0 <= k < |kids| && ResolvesFirst(kids[..k], h, n - 1)
        && (!h.kids[n - 1].rep ==> k == |kids| - 1)
        && forall j :: k <= j < |kids| ==> Resolves(kids[j], h.kids[n - 1])
  }

  lemma KidSpanNext(kids: seq<Built>, par: bool, kb: Built)
    ensures KidSpan(kids + [kb], par)
         == if par then (if kb.d > KidSpan(kids, par) then kb.d else KidSpan(kids, par))
           else KidSpan(kids, par) + kb.d + HOP_GAP
  {
    assert (kids + [kb])[..|kids|] == kids;
  }

  // Durations, failures and repetitions are drawn freely; no duration is below
  // a millisecond.
  method ResolveHop(h: Hop) returns (b: Built)
    ensures Resolves(b, h) && Enclosing(b)
    decreases h, 1
  {
    var d: int :| d >= MS;
    var fails: bool := *;
    if h.canFail && fails {
      return Built(h.proto, h.par, d, true, []);
    }
    var kids, kidSpan := ResolveKids(h);
    if h.proto != KafkaPub {
      var min := kidSpan + 2 * HOP_GAP;
      if |kids| > 0 && d < min {
        d := min;
      }
    }
    b := Built(h.proto, h.par, d, false, kids);
  }

  method ResolveKids(h: Hop) returns (kids: seq<Built>, kidSpan: int)
    ensures ResolvesFirst(kids, h, |h.kids|) && kidSpan == KidSpan(kids, h.par)
    ensures forall i :: 0 <= i < |kids| ==> Enclosing(kids[i])
    decreases h, 0
  {
    kids, kidSpan := [], 0;
    hide Resolves, Enclosing;
    for i := 0 to |h.kids|
      invariant ResolvesFirst(kids, h, i) && kidSpan == KidSpan(kids, h.par)
      invariant forall j :: 0 <= j < |kids| ==> Enclosing(kids[j])
    {
      var n := 1;
      if h.kids[i].rep {
        n := *;
        if n < 1 {
          n := 1;
        }
      }
      ghost var before := kids;
      for j := 0 to n
        invariant |kids| == |before| + j && kids[..|before|] == before && kidSpan == KidSpan(kids, h.par)
        invariant forall k :: |before| <= k < |kids| ==> Resolves(kids[k], h.kids[i])
        invariant forall k :: 0 <= k < |kids| ==> Enclosing(kids[k])
      {
        var kb := ResolveHop(h.kids[i]);
        KidSpanNext(kids, h.par, kb);
        if h.par {
          if kb.d > kidSpan {
            kidSpan := kb.d;
          }
        } else {
          kidSpan := kidSpan + kb.d + HOP_GAP;
        }
        kids := kids + [kb];
      }
      assert kids[..|before|] == before;
    }
  }

  // ----- spans -----

  // A span of a trace; its parent is an earlier span.
  datatype Span = Span(parent: Option<nat>, publish: bool, start: int, d: int)

  function End(s: Span): int { s.start + s.d }

  // Server span inside the client span, at least a millisecond long.
  function Inner(d: int): int { if d - 2 * MS < MS then MS else d - 2 * MS }

  // The trace after a hop was emitted at an offset: the specification of EmitHop.
  function Emitted(spans: seq<Span>, b: Built, parent: Option<nat>, off: int): seq<Span>
    decreases b, |b.kids| + 1
  {
    var id := |spans|;
    if b.proto == Unknown then spans
    else if b.proto == KafkaPub then
      KidsEmitted(spans + [Span(parent, true, off, b.d)], b, |b.kids|, Some(id), off + b.d + 3 * MS, true)
    else if HasClientSpan(b, parent) then
      KidsEmitted(spans + [Span(parent, false, off, b.d), Span(parent, false, off + 2 * MS, Inner(b.d))],
                  b, |b.kids|, Some(id + 1), off + 2 * MS + HOP_GAP, b.par)
    else KidsEmitted(spans + [Span(parent, false, off, b.d)], b, |b.kids|, Some(id), off + HOP_GAP, b.par)
  }

  // A called service has a client span at its caller beside its own span.
  predicate HasClientSpan(b: Built, parent: Option<nat>) {
    (b.proto == Http || b.proto == Grpc) && parent.Some?
  }

  // Where kid n starts when the first one starts at start.
  function KidStart(b: Built, n: nat, start: int, together: bool): int
    requires n <= |b.kids|
  {
    if n == 0 || together then start else KidStart(b, n - 1, start, together) + b.kids[n - 1].d + HOP_GAP
  }

  function KidsEmitted(spans: seq<Span>, b: Built, n: nat, parent: Option<nat>, start: int, together: bool): seq<Span>
    requires n <= |b.kids|
    decreases b, n
  {
    if n == 0 then spans
    else
      Emitted(KidsEmitted(spans, b, n - 1, parent, start, together), b.kids[n - 1], parent,
              KidStart(b, n - 1, start, together))
  }

  class Trace {
    var spans: seq<Span>

    constructor ()
      ensures spans == []
    {
      spans := [];
    }

    method Add(parent: Option<nat>, publish: bool, start: int, d: int) returns (id: nat)
      modifies this
      ensures id == |old(spans)| && spans == old(spans) + [Span(parent, publish, start, d)]
    {
      id := |spans|;
      spans := spans + [Span(parent, publish, start, d)];
    }

    method EmitHop(b: Built, parent: Option<nat>, off: int)
      modifies this
      ensures spans == Emitted(old(spans), b, parent, off)
      decreases b, |b.kids| + 1
    {
      var inner := b.d - 2 * MS;
      if inner < MS {
        inner := MS;
      }
      match b.proto
      case Http =>
        if parent.None? {
          var id := Add(None, false, off, b.d);
          EmitKids(b, id, off + HOP_GAP);
          return;
        }
        var client := Add(parent, false, off, b.d);
        var id := Add(parent, false, off + 2 * MS, inner);
        assert old(spans) + [Span(parent, false, off, b.d)] + [Span(parent, false, off + 2 * MS, inner)]
            == old(spans) + [Span(parent, false, off, b.d), Span(parent, false, off + 2 * MS, inner)];
        EmitKids(b, id, off + 2 * MS + HOP_GAP);
      case Grpc =>
        if parent.None? {
          var id := Add(None, false, off, b.d);
          EmitKids(b, id, off + HOP_GAP);
          return;
        }
        var client := Add(parent, false, off, b.d);
        var id := Add(parent, false, off + 2 * MS, inner);
        assert old(spans) + [Span(parent, false, off, b.d)] + [Span(parent, false, off + 2 * MS, inner)]
            == old(spans) + [Span(parent, false, off, b.d), Span(parent, false, off + 2 * MS, inner)];
        EmitKids(b, id, off + 2 * MS + HOP_GAP);
      case KafkaPub =>
        var id := Add(parent, true, off, b.d);
        var cOff := off + b.d + 3 * MS;
        ghost var base := spans;
        for i := 0 to |b.kids|
          invariant spans == KidsEmitted(base, b, i, Some(id), cOff, true)
        {
          EmitHop(b.kids[i], Some(id), cOff);
        }
      case Unknown =>
      case _ =>
        var id := Add(parent, false, off, b.d);
        EmitKids(b, id, off + HOP_GAP);
    }

    // The children one after the other, or all at the same offset.
    method EmitKids(b: Built, parent: nat, start: int)
      modifies this
      ensures spans == KidsEmitted(old(spans), b, |b.kids|, Some(parent), start, b.par)
      decreases b, |b.kids|
    {
      var cur := start;
      for i := 0 to |b.kids|
        invariant spans == KidsEmitted(old(spans), b, i, Some(parent), start, b.par)
        invariant cur == KidStart(b, i, start, b.par)
      {
        EmitHop(b.kids[i], Some(parent), cur);
        if !b.par {
          cur := cur + b.kids[i].d + HOP_GAP;
        }
      }
    }
  }

  // ----- nesting -----

  // A span lies inside its parent; under a publish it starts after its end.
  predicate Fits(parent: Span, s: Span) {
    if parent.publish then s.start > End(parent) else parent.start <= s.start && End(s) <= End(parent)
  }

  ghost predicate Nested(spans: seq<Span>) {
    forall i :: 0 <= i < |spans| && spans[i].parent.Some? ==>
      spans[i].parent.value < i && Fits(spans[spans[i].parent.value], spans[i])
  }

  // The time a hop takes at most: its server span may outlast a short client span.
  function Extent(b: Built): int { if b.d < 3 * MS then 3 * MS else b.d }

  // The parent has room for the hop at this offset.
  ghost predicate Room(spans: seq<Span>, parent: Option<nat>, b: Built, off: int) {
    parent.Some? ==>
      && parent.value < |spans|
      && var p := spans[parent.value];
         if p.publish then off > End(p) else p.start <= off && off + Extent(b) <= End(p)
  }

  lemma {:induction false} KidStartsLater(b: Built, n: nat, start: int, together: bool)
    requires n <= |b.kids| && forall i :: 0 <= i < |b.kids| ==> b.kids[i].d >= MS
    ensures KidStart(b, n, start, together) >= start
  {
    if n > 0 && !together {
      KidStartsLater(b, n - 1, start, together);
    }
  }

  lemma {:induction false} SequentialSpan(b: Built, n: nat, start: int)
    requires n <= |b.kids|
    ensures KidStart(b, n, start, false) == start + KidSpan(b.kids[..n], false)
  {
    if n > 0 {
      SequentialSpan(b, n - 1, start);
      assert b.kids[..n] == b.kids[..n - 1] + [b.kids[n - 1]];
      KidSpanNext(b.kids[..n - 1], false, b.kids[n - 1]);
    }
  }

  lemma {:induction false} SpanGrows(kids: seq<Built>, par: bool, n: nat, k: nat)
    requires n <= k <= |kids| && forall i :: 0 <= i < |kids| ==> kids[i].d >= MS
    ensures KidSpan(kids[..n], par) <= KidSpan(kids[..k], par)
    decreases k
  {
    if n < k {
      SpanGrows(kids, par, n, k - 1);
      assert kids[..k] == kids[..k - 1] + [kids[k - 1]];
      KidSpanNext(kids[..k - 1], par, kids[k - 1]);
    }
  }

  // The kids fit into the time their parent reserved for them.
  lemma KidFits(b: Built, i: nat, start: int)
    requires i < |b.kids| && forall j :: 0 <= j < |b.kids| ==> b.kids[j].d >= MS
    ensures KidStart(b, i, start, b.par) + Extent(b.kids[i]) <= start + KidSpan(b.kids, b.par) + 2 * MS
  {
    SpanGrows(b.kids, b.par, i + 1, |b.kids|);
    assert b.kids[..|b.kids|] == b.kids;
    assert b.kids[..i + 1] == b.kids[..i] + [b.kids[i]];
    KidSpanNext(b.kids[..i], b.par, b.kids[i]);
    if !b.par {
      SequentialSpan(b, i, start);
    }
  }

  // Emitting only appends.
  lemma {:induction false} EmittedExtends(spans: seq<Span>, b: Built, parent: Option<nat>, off: int)
    ensures spans <= Emitted(spans, b, parent, off)
    decreases b, |b.kids| + 1
  {
    var one, two := spans + [Span(parent, false, off, b.d)],
                    spans + [Span(parent, false, off, b.d), Span(parent, false, off + 2 * MS, Inner(b.d))];
    if b.proto == KafkaPub {
      KidsExtend(spans + [Span(parent, true, off, b.d)], b, |b.kids|, Some(|spans|), off + b.d + 3 * MS, true);
    } else if HasClientSpan(b, parent) {
      KidsExtend(two, b, |b.kids|, Some(|spans| + 1), off + 2 * MS + HOP_GAP, b.par);
    } else {
      KidsExtend(one, b, |b.kids|, Some(|spans|), off + HOP_GAP, b.par);
    }
  }

  lemma {:induction false} KidsExtend(
    spans: seq<Span>, b: Built, n: nat, parent: Option<nat>, start: int, together: bool)
    requires n <= |b.kids|
    ensures spans <= KidsEmitted(spans, b, n, parent, start, together)
    decreases b, n
  {
    if n > 0 {
      KidsExtend(spans, b, n - 1, parent, start, together);
      EmittedExtends(KidsEmitted(spans, b, n - 1, parent, start, together), b.kids[n - 1], parent,
                     KidStart(b, n - 1, start, together));
    }
  }

  lemma AppendNested(spans: seq<Span>, s: Span)
    requires Nested(spans)
    requires s.parent.Some? ==> s.parent.value < |spans| && Fits(spans[s.parent.value], s)
    ensures Nested(spans + [s])
  {
    hide Fits;
  }

  // The parent has room for the first n kids of a hop.
  ghost predicate RoomForKids(spans: seq<Span>, b: Built, n: nat, parent: nat, start: int, together: bool)
    requires n <= |b.kids|
  {
    parent < |spans|
    && forall i :: 0 <= i < n ==> Room(spans, Some(parent), b.kids[i], KidStart(b, i, start, together))
  }

  lemma RoomForKid(spans: seq<Span>, b: Built, n: nat, parent: nat, start: int, together: bool)
    requires 0 < n <= |b.kids| && RoomForKids(spans, b, n, parent, start, together)
    ensures RoomForKids(spans, b, n - 1, parent, start, together) && parent < |spans|
    ensures Room(spans, Some(parent), b.kids[n - 1], KidStart(b, n - 1, start, together))
  {
    hide Room, KidStart;
  }

  lemma {:induction false} KidsNested(spans: seq<Span>, b: Built, n: nat, parent: nat, start: int, together: bool)
    requires Nested(spans) && Enclosing(b) && n <= |b.kids| && RoomForKids(spans, b, n, parent, start, together)
    ensures Nested(KidsEmitted(spans, b, n, Some(parent), start, together))
    decreases b, n, 0
  {
    hide *;
    if n == 0 {
      NoKids(spans, b, parent, start, together);
    } else {
      EnclosingKid(b, n - 1);
      var before, off := KidsEmitted(spans, b, n - 1, Some(parent), start, together),
        KidStart(b, n - 1, start, together);
      RoomForKid(spans, b, n, parent, start, together);
      KidsNested(spans, b, n - 1, parent, start, together);
      KidsExtend(spans, b, n - 1, Some(parent), start, together);
      SameRoom(spans, before, parent, b.kids[n - 1], off);
      EmittedNested(before, b.kids[n - 1], Some(parent), off);
      KidsStep(spans, b, n, Some(parent), start, together);
    }
  }

  lemma NoKids(spans: seq<Span>, b: Built, parent: nat, start: int, together: bool)
    ensures KidsEmitted(spans, b, 0, Some(parent), start, together) == spans
  {}

  lemma EnclosingKid(b: Built, i: nat)
    requires Enclosing(b) && i < |b.kids|
    ensures Enclosing(b.kids[i])
  {}

  lemma KidsStep(spans: seq<Span>, b: Built, n: nat, parent: Option<nat>, start: int, together: bool)
    requires 0 < n <= |b.kids|
    ensures KidsEmitted(spans, b, n, parent, start, together)
         == Emitted(KidsEmitted(spans, b, n - 1, parent, start, together), b.kids[n - 1], parent,
                    KidStart(b, n - 1, start, together))
  {
    hide Emitted;
  }

  lemma SameRoom(spans: seq<Span>, longer: seq<Span>, parent: nat, b: Built, off: int)
    requires spans <= longer && parent < |spans| && Room(spans, Some(parent), b, off)
    ensures Room(longer, Some(parent), b, off)
  {}

  // The kids of a span that encloses them.
  lemma EnclosedKidsNested(spans: seq<Span>, b: Built, id: nat, start: int)
    requires Nested(spans) && Enclosing(b) && id < |spans| && b.proto != KafkaPub
    requires !spans[id].publish && spans[id].start <= start
    requires b.kids != [] ==> start + KidSpan(b.kids, b.par) + 2 * MS <= End(spans[id])
    ensures Nested(KidsEmitted(spans, b, |b.kids|, Some(id), start, b.par))
    decreases b, |b.kids|, 1
  {
    forall i | 0 <= i < |b.kids| ensures Room(spans, Some(id), b.kids[i], KidStart(b, i, start, b.par)) {
      KidFits(b, i, start);
      KidStartsLater(b, i, start, b.par);
    }
    hide Room, KidStart, KidSpan, Nested;
    KidsNested(spans, b, |b.kids|, id, start, b.par);
  }

  lemma {:induction false} EmittedNested(spans: seq<Span>, b: Built, parent: Option<nat>, off: int)
    requires Nested(spans) && Enclosing(b) && Room(spans, parent, b, off)
    ensures Nested(Emitted(spans, b, parent, off))
    decreases b, |b.kids| + 1, 0
  {
    hide Nested;
    var id := |spans|;
    if b.proto == KafkaPub {
      var s := Span(parent, true, off, b.d);
      AppendNested(spans, s);
      forall i | 0 <= i < |b.kids|
        ensures Room(spans + [s], Some(id), b.kids[i], KidStart(b, i, off + b.d + 3 * MS, true)) {}
      KidsNested(spans + [s], b, |b.kids|, id, off + b.d + 3 * MS, true);
    } else if HasClientSpan(b, parent) {
      var client, server := Span(parent, false, off, b.d), Span(parent, false, off + 2 * MS, Inner(b.d));
      AppendNested(spans, client);
      AppendNested(spans + [client], server);
      assert spans + [client] + [server] == spans + [client, server];
      EnclosedKidsNested(spans + [client, server], b, id + 1, off + 2 * MS + HOP_GAP);
    } else if b.proto != Unknown {
      var s := Span(parent, false, off, b.d);
      AppendNested(spans, s);
      EnclosedKidsNested(spans + [s], b, id, off + HOP_GAP);
    }
  }

  // ----- every hop has its spans -----

  // How many spans a hop and its kids have: two for a called service, none for
  // an unknown protocol.
  function SpanCount(b: Built, called: bool): nat
    decreases b, |b.kids| + 1
  {
    if b.proto == Unknown then 0
    else (if called && (b.proto == Http || b.proto == Grpc) then 2 else 1) + KidSpanCount(b, |b.kids|)
  }

  function KidSpanCount(b: Built, n: nat): nat
    requires n <= |b.kids|
    decreases b, n
  {
    if n == 0 then 0 else KidSpanCount(b, n - 1) + SpanCount(b.kids[n - 1], true)
  }

  // spans[from..to] show the hop: first its span as seen by the caller, which
  // starts at off and lasts as long as the hop; a called service has its own span
  // two milliseconds later; then the spans of all kids, whose parent is the hop's
  // own span.
  ghost predicate ShowsHop(spans: seq<Span>, b: Built, parent: Option<nat>, off: int, from: nat, to: nat)
    decreases b, |b.kids| + 1
  {
    if b.proto == Unknown then from == to
    else
      var called := parent.Some? && (b.proto == Http || b.proto == Grpc);
      var own := if called then from + 1 else from;
      && own < to <= |spans|
      && spans[from] == Span(parent, b.proto == KafkaPub, off, b.d)
      && (called ==> spans[own].parent == parent && !spans[own].publish && spans[own].start == off + 2 * MS)
      && (called ==> spans[own].d >= MS && (b.d >= 3 * MS ==> spans[own].d == b.d - 2 * MS))
      && ShowsKids(spans, b, |b.kids|, own, FirstStart(b, called, off), own + 1, to)
  }

  // Kids of a publish start after it; the others soon after the hop's own span.
  function FirstStart(b: Built, called: bool, off: int): int {
    if b.proto == KafkaPub then off + b.d + 3 * MS else if called then off + 2 * MS + HOP_GAP else off + HOP_GAP
  }

  ghost predicate ShowsKids(spans: seq<Span>, b: Built, n: nat, own: nat, start: int, from: nat, to: nat)
    requires n <= |b.kids|
    decreases b, n
  {
    if n == 0 then from == to
    else
      var last, at := n - 1, KidStart(b, n - 1, start, b.par || b.proto == KafkaPub);
      exists mid: nat ::
        && from <= mid <= to && ShowsKids(spans, b, last, own, start, from, mid)
        && ShowsHop(spans, b.kids[last], Some(own), at, mid, to)
  }

  // Kids that run together start together; the others one after the other.
  lemma {:induction false} KidsInTurn(b: Built, i: nat, j: nat, start: int, together: bool)
    requires i < j <= |b.kids| && forall k :: 0 <= k < |b.kids| ==> b.kids[k].d >= 0
    ensures together ==> KidStart(b, i, start, together) == start
    ensures !together ==> KidStart(b, j, start, together) >= KidStart(b, i, start, together) + b.kids[i].d + HOP_GAP
    decreases j
  {
    if i + 1 < j {
      KidsInTurn(b, i, j - 1, start, together);
    }
  }

  lemma {:induction false} HopStaysShown(
    spans: seq<Span>, longer: seq<Span>, b: Built, parent: Option<nat>, off: int, from: nat, to: nat)
    requires spans <= longer && ShowsHop(spans, b, parent, off, from, to)
    ensures ShowsHop(longer, b, parent, off, from, to)
    decreases b, |b.kids| + 1
  {
    if b.proto != Unknown {
      var called := parent.Some? && (b.proto == Http || b.proto == Grpc);
      var own := if called then from + 1 else from;
      KidsStayShown(spans, longer, b, |b.kids|, own, FirstStart(b, called, off), own + 1, to);
    }
  }

  lemma {:induction false} KidsStayShown(
    spans: seq<Span>, longer: seq<Span>, b: Built, n: nat, own: nat, start: int, from: nat, to: nat)
    requires n <= |b.kids| && spans <= longer && ShowsKids(spans, b, n, own, start, from, to)
    ensures ShowsKids(longer, b, n, own, start, from, to)
    decreases b, n
  {
    if n > 0 {
      var at := KidStart(b, n - 1, start, b.par || b.proto == KafkaPub);
      var mid: nat :| from <= mid <= to && ShowsKids(spans, b, n - 1, own, start, from, mid)
        && ShowsHop(spans, b.kids[n - 1], Some(own), at, mid, to);
      hide ShowsHop, KidStart;
      KidsStayShown(spans, longer, b, n - 1, own, start, from, mid);
      HopStaysShown(spans, longer, b.kids[n - 1], Some(own), at, mid, to);
    }
  }

  lemma {:induction false} KidsShown(spans: seq<Span>, b: Built, n: nat, own: nat, start: int)
    requires n <= |b.kids|
    ensures var after := KidsEmitted(spans, b, n, Some(own), start, b.par || b.proto == KafkaPub);
            && ShowsKids(after, b, n, own, start, |spans|, |after|)
            && |after| == |spans| + KidSpanCount(b, n)
    decreases b, n, 0
  {
    if n > 0 {
      var together := b.par || b.proto == KafkaPub;
      var before, at := KidsEmitted(spans, b, n - 1, Some(own), start, together), KidStart(b, n - 1, start, together);
      KidsShown(spans, b, n - 1, own, start);
      EmittedExtends(before, b.kids[n - 1], Some(own), at);
      HopShown(before, b.kids[n - 1], Some(own), at);
      KidsStep(spans, b, n, Some(own), start, together);
      hide ShowsHop, Emitted, KidStart, SpanCount;
      KidsStayShown(before, KidsEmitted(spans, b, n, Some(own), start, together), b, n - 1, own, start, |spans|,
        |before|);
    }
  }

  // Emitting a hop adds its spans and those of all its kids, and no others.
  lemma {:induction false} HopShown(spans: seq<Span>, b: Built, parent: Option<nat>, off: int)
    ensures var after := Emitted(spans, b, parent, off);
            && ShowsHop(after, b, parent, off, |spans|, |after|)
            && |after| == |spans| + SpanCount(b, parent.Some?)
    decreases b, |b.kids| + 1, 0
  {
    var id := |spans|;
    if b.proto == KafkaPub {
      OwnSpansShown(spans, [Span(parent, true, off, b.d)], b, parent, off);
    } else if HasClientSpan(b, parent) {
      OwnSpansShown(spans, [Span(parent, false, off, b.d), Span(parent, false, off + 2 * MS, Inner(b.d))], b, parent,
        off);
    } else if b.proto != Unknown {
      OwnSpansShown(spans, [Span(parent, false, off, b.d)], b, parent, off);
    }
  }

  lemma OwnSpansShown(spans: seq<Span>, more: seq<Span>, b: Built, parent: Option<nat>, off: int)
    requires b.proto != Unknown
    requires var called := HasClientSpan(b, parent);
             && |more| == (if called then 2 else 1) && more[0] == Span(parent, b.proto == KafkaPub, off, b.d)
             && (called ==> more[1] == Span(parent, false, off + 2 * MS, Inner(b.d)))
    ensures var called, own := HasClientSpan(b, parent), |spans| + |more| - 1;
            var after := KidsEmitted(spans + more, b, |b.kids|, Some(own), FirstStart(b, called, off),
                                     b.par || b.proto == KafkaPub);
            && ShowsHop(after, b, parent, off, |spans|, |after|)
            && |after| == |spans| + SpanCount(b, parent.Some?)
    decreases b, |b.kids|, 1
  {
    var called, own := HasClientSpan(b, parent), |spans| + |more| - 1;
    var start, together := FirstStart(b, called, off), b.par || b.proto == KafkaPub;
    var after := KidsEmitted(spans + more, b, |b.kids|, Some(own), start, together);
    KidsShown(spans + more, b, |b.kids|, own, start);
    KidsExtend(spans + more, b, |b.kids|, Some(own), start, together);
    hide ShowsKids, KidsEmitted, KidSpanCount, KidStart;
    assert after[|spans|] == more[0] && after[own] == more[|more| - 1];
  }

  // Every trace built from any tree of hops nests: each span lies inside its
  // parent, and what follows a publish starts after it. It shows every hop of
  // the resolved tree, and nothing else.
  method BuildMeshTrace(h: Hop) returns (t: Trace)
    ensures fresh(t) && Nested(t.spans)
    ensures exists b :: Resolves(b, h) && Enclosing(b) && t.spans == Emitted([], b, None, 0)
                        && ShowsHop(t.spans, b, None, 0, 0, |t.spans|)
  {
    t := new Trace();
    var b := ResolveHop(h);
    EmittedNested([], b, None, 0);
    HopShown([], b, None, 0);
    t.EmitHop(b, None, 0);
  }
}
