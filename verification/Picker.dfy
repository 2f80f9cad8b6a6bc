// The read side of the autocomplete cache: ranked lists and the pattern filter.
module Picker {
  import opened Problems
  import opened Sorting
  import opened Collecting
  import opened Glob
  import opened Autocomplete

  // ----- patterns -----

  function Lower(lower: char -> char, s: string): (t: string)
    ensures |t| == |s| && forall i :: 0 <= i < |s| ==> t[i] == lower(s[i])
  {
    seq(|s|, i requires 0 <= i < |s| => lower(s[i]))
  }

  predicate IsBare(p: string) {
    forall i :: 0 <= i < |p| ==> p[i] != '*' && p[i] != '?'
  }

  ghost predicate Contains(v: string, p: string) {
    exists k :: 0 <= k <= |v| && p <= v[k..]
  }

  // A bare term is looked for inside the value; a term with wildcards has to
  // match all of it.
  ghost predicate MatchesPattern(lower: char -> char, value: string, pattern: string) {
    var v, p := Lower(lower, value), Lower(lower, pattern);
    if IsBare(p) then Contains(v, p) else MatchesLiteralFirst(p, v)
  }

  method ContainsTerm(v: string, p: string) returns (ok: bool)
    ensures ok == Contains(v, p)
  {
    var k := 0;
    while k <= |v|
      invariant 0 <= k <= |v| + 1
      invariant forall j :: 0 <= j < k ==> !(p <= v[j..])
    {
      if p <= v[k..] {
        return true;
      }
      k := k + 1;
    }
    ok := false;
  }

  method MatchPattern(lower: char -> char, value: string, pattern: string) returns (ok: bool)
    ensures ok == MatchesPattern(lower, value, pattern)
  {
    var v, p := Lower(lower, value), Lower(lower, pattern);
    if IsBare(p) {
      ok := ContainsTerm(v, p);
    } else {
      ghost var steps;
      ok, steps := Glob.Glob(p, v);
    }
  }

  // The wildcard pattern that a search term stands for.
  function AsPattern(p: string): string {
    if IsBare(p) then "*" + p + "*" else p
  }

  lemma {:induction false} StarMatchesAll(s: string)
    ensures Matches("*", s)
  {
    var star := "*";
    assert star[1..] == [];
    assert s[|s|..] == [];
    assert Matches(star[1..], s[|s|..]);
  }

  lemma {:induction false} PrefixPattern(p: string, s: string)
    requires IsBare(p)
    ensures Matches(p + "*", s) <==> p <= s
  {
    if p == [] {
      assert p + "*" == "*";
      StarMatchesAll(s);
    } else {
      assert (p + "*")[1..] == p[1..] + "*";
      if s != [] && p[0] == s[0] {
        PrefixPattern(p[1..], s[1..]);
        assert p == [p[0]] + p[1..] && s == [s[0]] + s[1..];
        assert p <= s <==> p[1..] <= s[1..];
      }
    }
  }

  lemma BareIsPattern(v: string, p: string)
    requires IsBare(p)
    ensures Contains(v, p) <==> Matches(AsPattern(p), v)
  {
    var q := AsPattern(p);
    assert q[0] == '*' && q[1..] == p + "*";
    forall k | 0 <= k <= |v| ensures Matches(p + "*", v[k..]) <==> p <= v[k..] {
      PrefixPattern(p, v[k..]);
    }
  }

  // What the filter means: the pattern of the term matches the lower-cased
  // value. Every match is right; none is missed in a value without '*'.
  lemma PatternMeaning(lower: char -> char, value: string, pattern: string)
    ensures var v, q := Lower(lower, value), AsPattern(Lower(lower, pattern));
            && (MatchesPattern(lower, value, pattern) ==> Matches(q, v))
            && ('*' !in v || IsBare(Lower(lower, pattern)) ==>
              (Matches(q, v) ==> MatchesPattern(lower, value, pattern)))
  {
    var v, p := Lower(lower, value), Lower(lower, pattern);
    if IsBare(p) {
      BareIsPattern(v, p);
    } else {
      if MatchesLiteralFirst(p, v) { LiteralFirstIsSound(p, v); }
      if '*' !in v && Matches(p, v) { LiteralFirstIsComplete(p, v); }
    }
  }

  // ----- ranked lists -----

  // All members, the highest first.
  function Ranked(rank: Counts): seq<string>
    decreases |rank|
  {
    if rank == map[] then []
    else
      var l := Lowest(rank);
      SmallerWithout(rank, l);
      Ranked(rank - {l}) + [l]
  }

  lemma SmallerWithout(rank: Counts, l: string)
    requires l in rank
    ensures |rank - {l}| == |rank| - 1
  {
    assert (rank - {l}).Keys == rank.Keys - {l};
    assert |rank| == |rank.Keys| && |rank - {l}| == |(rank - {l}).Keys|;
  }

  // Every member once, in descending order of score and then name.
  lemma {:induction false} RankedOrder(rank: Counts)
    ensures |Ranked(rank)| == |rank|
    ensures forall m :: m in Ranked(rank) <==> m in rank
    ensures forall i, j :: 0 <= i < j < |rank| ==>
              Ranked(rank)[i] in rank && Ranked(rank)[j] in rank && RanksBelow(rank, Ranked(rank)[j], Ranked(rank)[i])
    decreases |rank|
  {
    if rank != map[] {
      var l := Lowest(rank);
      var rest := rank - {l};
      SmallerWithout(rank, l);
      RankedOrder(rest);
      assert forall m :: m in rank <==> m in rest.Keys || m == l;
      forall i, j | 0 <= i < j < |rank|
        ensures Ranked(rank)[i] in rank && Ranked(rank)[j] in rank && RanksBelow(rank, Ranked(rank)[j], Ranked(rank)[i])
      {
        assert Ranked(rank)[i] == Ranked(rest)[i];
        assert Ranked(rest)[i] in Ranked(rest);
        if j < |rest| {
          assert Ranked(rest)[j] in Ranked(rest);
          assert RanksBelow(rest, Ranked(rest)[j], Ranked(rest)[i]);
        }
      }
    }
  }

  // In terms of the scores, each member in one place.
  lemma RankedByScore(rank: Counts)
    ensures NoRepeats(Ranked(rank)) && |Ranked(rank)| == |rank|
    ensures forall i, j :: 0 <= i < j < |rank| ==>
              Ranked(rank)[i] in rank && Ranked(rank)[j] in rank && rank[Ranked(rank)[i]] >= rank[Ranked(rank)[j]]
  {
    RankedOrder(rank);
    hide Ranked;
    var zs := Ranked(rank);
    forall i, j | 0 <= i < j < |zs| ensures zs[i] != zs[j] {
      assert RanksBelow(rank, zs[j], zs[i]);
      StringAsymmetric(zs[i], zs[j]);
    }
  }

  function ClampLimit(n: int): (r: nat)
    ensures 0 < r <= 1000
  {
    if n <= 0 then 200 else if n > 1000 then 1000 else n
  }

  function Take<T>(xs: seq<T>, n: nat): seq<T> { if |xs| <= n then xs else xs[..n] }

  ghost function MatchStep(lower: char -> char, pattern: string): string -> Option<string> {
    (v: string) => if MatchesPattern(lower, v, pattern) then Some(v) else None
  }

  // The members that match, in rank order.
  ghost function Matching(rank: Counts, lower: char -> char, pattern: string): seq<string> {
    Collect(Ranked(rank), MatchStep(lower, pattern))
  }

  method FilterByPattern(values: seq<string>, lower: char -> char, pattern: string) returns (out: seq<string>)
    ensures out == Collect(values, MatchStep(lower, pattern))
  {
    out := [];
    hide MatchesPattern;
    assert values[..0] == [];
    for i := 0 to |values|
      invariant out == Collect(values[..i], MatchStep(lower, pattern))
    {
      CollectStep(values, i, MatchStep(lower, pattern));
      var ok := MatchPattern(lower, values[i], pattern);
      if ok {
        out := out + [values[i]];
      }
    }
    assert values[..|values|] == values;
  }

  lemma {:induction false} EmptyTermMatchesAll(values: seq<string>, lower: char -> char)
    ensures Collect(values, MatchStep(lower, "")) == values
  {
    if values != [] {
      var last := values[|values| - 1];
      EmptyTermMatchesAll(values[..|values| - 1], lower);
      assert Lower(lower, "") == "";
      assert "" <= Lower(lower, last)[0..];
      assert MatchesPattern(lower, last, "");
    }
  }

  // The top of a ranked key; without a term the top is read directly. Both ways
  // answer the same question.
  method ReadRank(readable: bool, rank: Counts, lower: char -> char, term: string, limit0: int)
    returns (names: seq<string>, total: nat, hit: bool)
    ensures hit <==> readable && rank != map[]
    ensures hit ==>
              total == |Matching(rank, lower, term)| && names == Take(Matching(rank, lower, term), ClampLimit(limit0))
    ensures !hit ==> names == [] && total == 0
  {
    var limit := ClampLimit(limit0);
    if !readable || |rank| == 0 {
      return [], 0, false;
    }
    RankedOrder(rank);
    hide Ranked, MatchStep;
    if term == "" {
      EmptyTermMatchesAll(Ranked(rank), lower);
      return Take(Ranked(rank), limit), |rank|, true;
    }
    var matches := FilterByPattern(Ranked(rank), lower, term);
    total := |matches|;
    if total > limit {
      matches := matches[..limit];
    }
    names, hit := matches, true;
  }

  // ----- attribute values -----

  datatype ValueCount = ValueCount(value: string, count: nat)

  datatype Values = Miss | FreeText(distinct: nat) | Listed(values: seq<ValueCount>)

  ghost function CountStep(rank: Counts, lower: char -> char, pattern: string): string -> Option<ValueCount> {
    (v: string) => if MatchesPattern(lower, v, pattern) then Some(ValueCount(v, At(rank, v))) else None
  }

  method GetAttributeValues(
    readable: bool, card: Card, key: string, rank: Counts, distinct: nat, lower: char -> char, term: string,
    limit0: int)
    returns (r: Values)
    ensures r == if key == "" || !readable then Miss
                 else match card
                      case CardHLL => if distinct == 0 then Miss else FreeText(distinct)
                      case CardSkip => Miss
                      case CardTrack =>
                        if rank == map[] then Miss
                        else Listed(Take(Collect(Ranked(rank), CountStep(rank, lower, term)), ClampLimit(limit0)))
  {
    if key == "" || !readable {
      return Miss;
    }
    match card
    case CardHLL => return if distinct == 0 then Miss else FreeText(distinct);
    case CardSkip => return Miss;
    case CardTrack =>
      if |rank| == 0 {
        return Miss;
      }
      var vals := ListValues(rank, lower, term, ClampLimit(limit0));
      r := Listed(vals);
  }

  // The loop stops as soon as it has enough.
  method ListValues(rank: Counts, lower: char -> char, term: string, limit: nat) returns (vals: seq<ValueCount>)
    requires limit > 0
    ensures vals == Take(Collect(Ranked(rank), CountStep(rank, lower, term)), limit)
  {
    vals := [];
    var zs := Ranked(rank);
    hide Ranked, MatchesPattern;
    assert zs[..0] == [];
    for i := 0 to |zs|
      invariant vals == Collect(zs[..i], CountStep(rank, lower, term)) && |vals| < limit
    {
      CollectStep(zs, i, CountStep(rank, lower, term));
      var ok := true;
      if term != "" {
        ok := MatchPattern(lower, zs[i], term);
      } else {
        EmptyTermMatches(zs[i], lower);
      }
      if !ok {
        continue;
      }
      vals := vals + [ValueCount(zs[i], At(rank, zs[i]))];
      if |vals| >= limit {
        CollectConcat(zs[..i + 1], zs[i + 1..], CountStep(rank, lower, term));
        assert zs == zs[..i + 1] + zs[i + 1..];
        return;
      }
    }
    assert zs[..|zs|] == zs;
  }

  lemma EmptyTermMatches(value: string, lower: char -> char)
    ensures MatchesPattern(lower, value, "")
  {
    assert Lower(lower, "") == "";
    assert "" <= Lower(lower, value)[0..];
  }

  // Listed values are ranked values that match, each with its score, the highest
  // first; and when fewer are listed than asked for, they are all that match.
  lemma ListedMeaning(rank: Counts, lower: char -> char, term: string, limit: nat, vals: seq<ValueCount>)
    requires vals == Take(Collect(Ranked(rank), CountStep(rank, lower, term)), limit)
    ensures |vals| <= limit
    ensures forall vc :: vc in vals ==>
              vc.value in rank && vc.count == rank[vc.value] && MatchesPattern(lower, vc.value, term)
    ensures Descending(vals)
    ensures |vals| < limit ==>
              forall v :: v in rank && MatchesPattern(lower, v, term) ==> ValueCount(v, rank[v]) in vals
  {
    var zs, f := Ranked(rank), CountStep(rank, lower, term);
    RankedOrder(rank);
    RankedByScore(rank);
    hide MatchesPattern, Ranked;
    forall vc | vc in vals
      ensures vc.value in rank && vc.count == rank[vc.value] && MatchesPattern(lower, vc.value, term)
    {
      assert vc in Collect(zs, f);
      var v := CollectSource(zs, f, vc);
    }
    ListedInOrder(rank, zs, lower, term);
    forall v | v in rank && MatchesPattern(lower, v, term) ensures ValueCount(v, rank[v]) in Collect(zs, f) {
      CollectKeeps(zs, f, v);
    }
  }

  ghost predicate Descending(vals: seq<ValueCount>) {
    forall i, j :: 0 <= i < j < |vals| ==> vals[i].count >= vals[j].count && vals[i].value != vals[j].value
  }

  lemma DescendingNext(vals: seq<ValueCount>, last: ValueCount)
    requires Descending(vals)
    requires forall i :: 0 <= i < |vals| ==> vals[i].count >= last.count && vals[i].value != last.value
    ensures Descending(vals + [last])
  {}

  // Members by descending score.
  ghost predicate ByScore(rank: Counts, zs: seq<string>) {
    && (forall z :: z in zs ==> z in rank) && NoRepeats(zs)
    && forall i, j :: 0 <= i < j < |zs| ==> At(rank, zs[i]) >= At(rank, zs[j])
  }

  lemma ByScoreInit(rank: Counts, init: seq<string>, last: string)
    requires ByScore(rank, init + [last])
    ensures ByScore(rank, init)
    ensures forall z :: z in init ==> At(rank, z) >= At(rank, last) && z != last
  {
    var zs := init + [last];
    assert zs[|init|] == last && forall i :: 0 <= i < |init| ==> zs[i] == init[i];
  }

  lemma {:induction false} ListedInOrder(rank: Counts, zs: seq<string>, lower: char -> char, term: string)
    requires ByScore(rank, zs)
    ensures Descending(Collect(zs, CountStep(rank, lower, term)))
  {
    hide MatchesPattern, Descending, ByScore;
    var f := CountStep(rank, lower, term);
    if zs == [] {
      NothingCollected(f);
      NothingDescends();
    } else {
      var init, last := zs[..|zs| - 1], zs[|zs| - 1];
      assert zs == init + [last];
      ByScoreInit(rank, init, last);
      ListedInOrder(rank, init, lower, term);
      CollectNext(init, last, f);
      var before := Collect(init, f);
      forall i | 0 <= i < |before| ensures before[i].count >= At(rank, last) && before[i].value != last {
        var z := CollectSource(init, f, before[i]);
      }
      if f(last).Some? {
        DescendingNext(before, f(last).value);
      } else {
        assert before + [] == before;
      }
    }
  }

  lemma NothingDescends()
    ensures Descending([])
  {}
}
