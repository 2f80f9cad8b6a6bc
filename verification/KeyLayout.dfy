// The Redis keys of the autocomplete cache as strings, and when two different
// things share one. The other modules of the cache keep them apart.
module KeyLayout {

  datatype Entity =
    | Services | ServicesRank | ServicesTimes
    | Ops(service: string) | OpsRank(service: string) | OpsTimes(service: string)
    | AttrNames | Values(attr: string) | ValuesTimes(attr: string) | Cardinality(attr: string)
    | Registry

  // The part of a key behind its family.
  function Rest(e: Entity): string {
    match e
    case Services => ""
    case ServicesRank => ":rank"
    case ServicesTimes => ":rank:ts"
    case Ops(s) => s
    case OpsRank(s) => "rank:" + s
    case OpsTimes(s) => "rank:" + s + ":ts"
    case AttrNames => "keys"
    case Values(k) => k
    case ValuesTimes(k) => k + ":ts"
    case Cardinality(k) => "card:" + k
    case Registry => ""
  }

  function Family(e: Entity): string {
    match e
    case Services | ServicesRank | ServicesTimes => "coremetry:services"
    case Ops(_) | OpsRank(_) | OpsTimes(_) => "coremetry:ops:"
    case AttrNames | Values(_) | ValuesTimes(_) | Cardinality(_) => "coremetry:attr:"
    case Registry => "coremetry:acache:tsreg"
  }

  function KeyOf(e: Entity): string { Family(e) + Rest(e) }

  // One name reads as the other with the prefix or suffix of its kind.
  predicate Shares(e: Entity, f: Entity) {
    match (e, f)
    case (Ops(s), OpsRank(t)) => s == "rank:" + t
    case (Ops(s), OpsTimes(t)) => s == "rank:" + t + ":ts"
    case (OpsRank(s), OpsTimes(t)) => s == t + ":ts"
    case (Values(k), AttrNames) => k == "keys"
    case (Values(k), Cardinality(c)) => k == "card:" + c
    case (Values(k), ValuesTimes(j)) => k == j + ":ts"
    case (ValuesTimes(k), Cardinality(c)) => k + ":ts" == "card:" + c
    case _ => false
  }

  lemma SamePrefix(p: string, a: string, b: string)
    ensures p + a == p + b <==> a == b
  {
    assert (p + a)[|p|..] == a && (p + b)[|p|..] == b;
  }

  lemma SameSuffix(a: string, b: string, s: string)
    ensures a + s == b + s <==> a == b
  {
    if a + s == b + s {
      assert |a| == |b|;
      assert (a + s)[..|a|] == a && (b + s)[..|b|] == b;
    }
  }

  lemma FamiliesDiffer(e: Entity, f: Entity)
    requires Family(e) != Family(f)
    ensures KeyOf(e) != KeyOf(f)
  {
    hide Rest;
    assert KeyOf(e)[10] == Family(e)[10] && KeyOf(e)[11] == Family(e)[11];
    assert KeyOf(f)[10] == Family(f)[10] && KeyOf(f)[11] == Family(f)[11];
  }

  // Two different things have the same key exactly when their names collide.
  lemma KeysShared(e: Entity, f: Entity)
    ensures KeyOf(e) == KeyOf(f) <==> e == f || Shares(e, f) || Shares(f, e)
  {
    if Family(e) == Family(f) {
      SamePrefix(Family(e), Rest(e), Rest(f));
      if e.OpsRank? || e.OpsTimes? || e.Ops? {
        OpsRests(e, f);
      } else if e.Services? || e.ServicesRank? || e.ServicesTimes? || e.Registry? {
        assert Rest(e) == Rest(f) <==> e == f;
      } else {
        AttrRests(e, f);
      }
    } else {
      FamiliesDiffer(e, f);
    }
  }

  lemma OpsRests(e: Entity, f: Entity)
    requires Family(e) == Family(f) == "coremetry:ops:"
    ensures Rest(e) == Rest(f) <==> e == f || Shares(e, f) || Shares(f, e)
  {
    var s, t := e.service, f.service;
    SamePrefix("rank:", s, t);
    SamePrefix("rank:", s + ":ts", t);
    SamePrefix("rank:", s, t + ":ts");
    SamePrefix("rank:", s + ":ts", t + ":ts");
    SameSuffix(s, t, ":ts");
    assert "rank:" + (s + ":ts") == "rank:" + s + ":ts" && "rank:" + (t + ":ts") == "rank:" + t + ":ts";
  }

  lemma AttrRests(e: Entity, f: Entity)
    requires Family(e) == Family(f) == "coremetry:attr:"
    ensures Rest(e) == Rest(f) <==> e == f || Shares(e, f) || Shares(f, e)
  {
    NamesAlone(e);
    NamesAlone(f);
    if !e.AttrNames? && !f.AttrNames? {
      SamePrefix("card:", e.attr, f.attr);
      SameSuffix(e.attr, f.attr, ":ts");
    }
  }

  lemma NamesAlone(e: Entity)
    ensures e.ValuesTimes? || e.Cardinality? ==> Rest(e) != "keys"
  {
    if e.ValuesTimes? {
      assert Rest(e)[|e.attr|] == ':';
      assert "keys"[0] != ':' && "keys"[1] != ':' && "keys"[2] != ':' && "keys"[3] != ':';
    }
    if e.Cardinality? {
      assert Rest(e)[0] == 'c';
    }
  }

  // Names that never collide.
  predicate PlainService(s: string) { !("rank:" <= s) && !(|s| >= 3 && s[|s| - 3..] == ":ts") }

  // The times of an attribute called card would be the count of one called ts.
  predicate PlainAttr(k: string) {
    k != "keys" && k != "card" && !("card:" <= k) && !(|k| >= 3 && k[|k| - 3..] == ":ts")
  }

  predicate Plain(e: Entity) {
    match e
    case Ops(s) => PlainService(s)
    case OpsRank(s) => PlainService(s)
    case OpsTimes(s) => PlainService(s)
    case Values(k) => PlainAttr(k)
    case ValuesTimes(k) => PlainAttr(k)
    case Cardinality(k) => PlainAttr(k)
    case _ => true
  }

  // With plain names every thing has a key of its own.
  lemma PlainNamesKeepApart(e: Entity, f: Entity)
    requires Plain(e) && Plain(f) && KeyOf(e) == KeyOf(f)
    ensures e == f
  {
    KeysShared(e, f);
    NeverShared(e, f);
    NeverShared(f, e);
  }

  lemma NeverShared(e: Entity, f: Entity)
    requires Plain(e) && Plain(f)
    ensures !Shares(e, f)
  {
    if e.Ops? && f.OpsTimes? {
      assert "rank:" + f.service + ":ts" == "rank:" + (f.service + ":ts");
      Starts("rank:", f.service + ":ts");
    } else if e.Ops? && f.OpsRank? {
      Starts("rank:", f.service);
    } else if e.OpsRank? && f.OpsTimes? {
      Ends(f.service, ":ts");
    } else if e.Values? && f.Cardinality? {
      Starts("card:", f.attr);
    } else if e.Values? && f.ValuesTimes? {
      Ends(f.attr, ":ts");
    } else if e.ValuesTimes? && f.Cardinality? {
      TimesOrCount(e.attr, f.attr);
    }
  }

  lemma Starts(p: string, s: string)
    ensures p <= p + s
  {}

  lemma Ends(s: string, p: string)
    ensures (s + p)[|s + p| - |p|..] == p
  {}

  lemma TimesOrCount(k: string, c: string)
    requires PlainAttr(k)
    ensures k + ":ts" != "card:" + c
  {
    CharsOf(k);
    var a, b := k + ":ts", "card:" + c;
    assert |k| > 0 ==> a[0] == k[0];
    assert |k| > 1 ==> a[1] == k[1];
    assert |k| > 2 ==> a[2] == k[2];
    assert |k| > 3 ==> a[3] == k[3];
    assert |k| > 4 ==> a[4] == k[4];
    assert a[|k|] == ':';
    assert b[0] == 'c' && b[1] == 'a' && b[2] == 'r' && b[3] == 'd' && b[4] == ':';
  }

  lemma CharsOf(k: string)
    requires PlainAttr(k)
    ensures |k| == 4 ==> !(k[0] == 'c' && k[1] == 'a' && k[2] == 'r' && k[3] == 'd')
    ensures |k| >= 5 ==> !(k[0] == 'c' && k[1] == 'a' && k[2] == 'r' && k[3] == 'd' && k[4] == ':')
  {
    if |k| == 4 {
      assert k == [k[0], k[1], k[2], k[3]];
    }
    if |k| >= 5 {
      assert k[..5] == [k[0], k[1], k[2], k[3], k[4]];
      assert "card:" <= k <==> k[..5] == "card:";
    }
  }

  // The collision that is easy to miss.
  lemma CardAndTs()
    ensures KeyOf(ValuesTimes("card")) == KeyOf(Cardinality("ts"))
  {}
}
