// The outlier-robust baseline: median and median absolute deviation.
module Baseline {
  import opened Sorting

  predicate Below(a: real, b: real) { a < b }

  function Abs(x: real): real { if x < 0.0 then -x else x }

  function MedianOf(xs: seq<real>): real {
    var n := |xs|;
    if n == 0 then 0.0
    else
      SortPermutes(xs, Below);
      var s := Sort(xs, Below);
      if n % 2 == 1 then s[n / 2] else (s[n / 2 - 1] + s[n / 2]) / 2.0
  }

  function Deviations(xs: seq<real>, center: real): (dev: seq<real>)
    ensures |dev| == |xs| && forall i {:trigger dev[i]} :: 0 <= i < |xs| ==> dev[i] == Abs(xs[i] - center)
  {
    seq(|xs|, i requires 0 <= i < |xs| => Abs(xs[i] - center))
  }

  // (median, MAD); (0, 0) for no samples.
  function MedianMAD(xs: seq<real>): (real, real) {
    if xs == [] then (0.0, 0.0)
    else
      var median := MedianOf(xs);
      (median, MedianOf(Deviations(xs, median)))
  }

  // How many samples lie in [lo, hi].
  ghost function CountIn(xs: seq<real>, lo: real, hi: real): nat {
    if xs == [] then 0
    else CountIn(xs[1..], lo, hi) + if lo <= xs[0] <= hi then 1 else 0
  }

  lemma {:induction false} CountConcat(xs: seq<real>, ys: seq<real>, lo: real, hi: real)
    ensures CountIn(xs + ys, lo, hi) == CountIn(xs, lo, hi) + CountIn(ys, lo, hi)
  {
    if xs == [] {
      assert xs + ys == ys;
    } else {
      CountConcat(xs[1..], ys, lo, hi);
      assert (xs + ys)[1..] == xs[1..] + ys;
    }
  }

  lemma {:induction false} CountPermutes(xs: seq<real>, ys: seq<real>, lo: real, hi: real)
    requires multiset(xs) == multiset(ys)
    ensures CountIn(xs, lo, hi) == CountIn(ys, lo, hi)
  {
    if xs == [] {
      assert |multiset(ys)| == 0;
    } else {
      var j := Pull(xs, ys);
      CountPermutes(xs[1..], ys[..j] + ys[j + 1..], lo, hi);
      CountConcat(ys[..j], [ys[j]] + ys[j + 1..], lo, hi);
      CountConcat(ys[..j], ys[j + 1..], lo, hi);
      assert ([ys[j]] + ys[j + 1..])[1..] == ys[j + 1..];
    }
  }

  lemma {:induction false} CountBounds(xs: seq<real>, lo: real, hi: real)
    ensures CountIn(xs, lo, hi) <= |xs|
    ensures (forall x :: x in xs ==> lo <= x <= hi) ==> CountIn(xs, lo, hi) == |xs|
    ensures (forall x :: x in xs ==> !(lo <= x <= hi)) ==> CountIn(xs, lo, hi) == 0
  {
    if xs != [] {
      CountBounds(xs[1..], lo, hi);
      assert xs[0] in xs && forall x :: x in xs[1..] ==> x in xs;
    }
  }

  // If the first k samples, or all from k on, lie outside, the others are the
  // only ones that can lie inside.
  lemma CountSplit(s: seq<real>, k: nat, lo: real, hi: real)
    requires k <= |s|
    ensures (forall i :: 0 <= i < k ==> !(lo <= s[i] <= hi)) ==> CountIn(s, lo, hi) <= |s| - k
    ensures (forall i :: k <= i < |s| ==> !(lo <= s[i] <= hi)) ==> CountIn(s, lo, hi) <= k
    ensures (forall i :: 0 <= i < k ==> lo <= s[i] <= hi) ==> CountIn(s, lo, hi) >= k
  {
    hide CountIn;
    assert s == s[..k] + s[k..];
    CountConcat(s[..k], s[k..], lo, hi);
    CountBounds(s[..k], lo, hi);
    CountBounds(s[k..], lo, hi);
    assert forall x :: x in s[..k] ==> exists i :: 0 <= i < k && s[i] == x;
    assert forall x :: x in s[k..] ==> exists i :: k <= i < |s| && s[i] == x;
  }

  lemma SortFacts(xs: seq<real>)
    ensures SortedBy(Sort(xs, Below), Below)
    ensures multiset(Sort(xs, Below)) == multiset(xs) && |Sort(xs, Below)| == |xs|
  {
    SortPermutes(xs, Below);
    SortSorted(xs, Below);
  }

  // Outliers cannot move the median: a strict majority in [lo, hi] keeps it there.
  lemma MedianInMajority(xs: seq<real>, lo: real, hi: real)
    requires 2 * CountIn(xs, lo, hi) > |xs|
    ensures lo <= MedianOf(xs) <= hi
  {
    var n, s := |xs|, Sort(xs, Below);
    SortFacts(xs);
    CountPermutes(xs, s, lo, hi);
    var k := if n % 2 == 1 then n / 2 else n / 2 - 1;
    // s[k] is the lower middle, s[n / 2] the upper middle
    CountSplit(s, 0, lo, hi);
    if s[k] < lo {
      forall i | 0 <= i < k + 1 ensures !(lo <= s[i] <= hi) {
        assert i == k || !Below(s[k], s[i]);
      }
      CountSplit(s, k + 1, lo, hi);
    }
    if s[n / 2] > hi {
      forall i | n / 2 <= i < n ensures !(lo <= s[i] <= hi) {
        assert i == n / 2 || !Below(s[i], s[n / 2]);
      }
      CountSplit(s, n / 2, lo, hi);
    }
    assert k == n / 2 || !Below(s[n / 2], s[k]);
  }

  lemma {:induction false} CountDeviations(xs: seq<real>, center: real, lo: real, hi: real)
    requires lo <= center <= hi
    ensures CountIn(Deviations(xs, center), 0.0, hi - lo) >= CountIn(xs, lo, hi)
  {
    if xs != [] {
      assert Deviations(xs, center)[1..] == Deviations(xs[1..], center);
      CountDeviations(xs[1..], center, lo, hi);
    }
  }

  // Whatever the other samples are, a strict majority in [lo, hi] keeps the
  // median inside and the MAD at most as wide.
  lemma RobustBaseline(xs: seq<real>, lo: real, hi: real)
    requires 2 * CountIn(xs, lo, hi) > |xs|
    ensures lo <= MedianMAD(xs).0 <= hi
    ensures 0.0 <= MedianMAD(xs).1 <= hi - lo
  {
    CountBounds(xs, lo, hi);
    hide Sort, MedianOf, CountIn, Deviations;
    MedianInMajority(xs, lo, hi);
    var m := MedianOf(xs);
    CountDeviations(xs, m, lo, hi);
    MedianInMajority(Deviations(xs, m), 0.0, hi - lo);
  }

  // More than k samples are at most the one of rank k.
  lemma CountUpToRank(xs: seq<real>, k: nat, low: real)
    requires k < |xs| && forall x :: x in xs ==> low <= x
    ensures |Sort(xs, Below)| == |xs| && CountIn(xs, low, Sort(xs, Below)[k]) >= k + 1
  {
    var s := Sort(xs, Below);
    SortFacts(xs);
    hide Sort, CountIn;
    CountPermutes(xs, s, low, s[k]);
    forall i | 0 <= i < k + 1 ensures low <= s[i] <= s[k] {
      assert i == k || !Below(s[k], s[i]);
      assert s[i] in multiset(s);
      assert s[i] in multiset(xs);
      assert s[i] in xs;
    }
    CountSplit(s, k + 1, low, s[k]);
  }

  lemma {:induction false} CountGrows(xs: seq<real>, lo: real, hi: real, hi': real)
    requires hi <= hi'
    ensures CountIn(xs, lo, hi) <= CountIn(xs, lo, hi')
  {
    if xs != [] {
      CountGrows(xs[1..], lo, hi, hi');
    }
  }

  // At least half of the samples are at most the median of the sequence.
  lemma HalfAtMostMedian(xs: seq<real>, low: real)
    requires forall x :: x in xs ==> low <= x
    ensures 2 * CountIn(xs, low, MedianOf(xs)) >= |xs|
  {
    if xs != [] {
      var n, s := |xs|, Sort(xs, Below);
      var k := if n % 2 == 1 then n / 2 else n / 2 - 1;
      SortFacts(xs);
      assert k == n / 2 || !Below(s[n / 2], s[k]);
      assert s[k] <= MedianOf(xs);
      hide Sort, MedianOf, CountIn;
      CountUpToRank(xs, k, low);
      CountGrows(xs, low, s[k], MedianOf(xs));
    }
  }

  lemma HalfWithinItsDeviation(xs: seq<real>, center: real)
    ensures var d := MedianOf(Deviations(xs, center));
            2 * CountIn(xs, center - d, center + d) >= |xs|
  {
    var dev := Deviations(xs, center);
    assert forall x :: x in dev ==> 0.0 <= x;
    hide *;
    HalfAtMostMedian(dev, 0.0);
    DeviationsWithin(xs, center, MedianOf(dev));
  }

  // At least half of the samples lie within one MAD of the median.
  lemma HalfWithinOneMAD(xs: seq<real>)
    ensures 2 * CountIn(xs, MedianMAD(xs).0 - MedianMAD(xs).1, MedianMAD(xs).0 + MedianMAD(xs).1) >= |xs|
  {
    hide Sort, MedianOf, CountIn;
    HalfWithinItsDeviation(xs, MedianOf(xs));
  }

  lemma {:induction false} DeviationsWithin(xs: seq<real>, center: real, d: real)
    ensures CountIn(xs, center - d, center + d) == CountIn(Deviations(xs, center), 0.0, d)
  {
    if xs != [] {
      assert Deviations(xs, center)[1..] == Deviations(xs[1..], center);
      DeviationsWithin(xs[1..], center, d);
    }
  }

  lemma SortUnaffected(xs: seq<real>, ys: seq<real>)
    requires multiset(xs) == multiset(ys)
    ensures Sort(xs, Below) == Sort(ys, Below)
    ensures |xs| == |ys|
  {
    var s, t := Sort(xs, Below), Sort(ys, Below);
    SortFacts(xs);
    SortFacts(ys);
    assert |xs| == |multiset(xs)| == |multiset(ys)| == |ys|;
    SortedRealsEqual(s, t);
  }

  // Equal reals are one value, so sorted permutations are equal sequences.
  lemma {:induction false} SortedRealsEqual(s: seq<real>, t: seq<real>)
    requires SortedBy(s, Below) && SortedBy(t, Below) && multiset(s) == multiset(t)
    ensures s == t
  {
    assert |s| == |multiset(s)| == |multiset(t)| == |t|;
    if s != [] {
      HeadsEqual(s, t);
      TailsPermute(s, t);
      SortedRealsEqual(s[1..], t[1..]);
    }
  }

  lemma HeadsEqual(s: seq<real>, t: seq<real>)
    requires SortedBy(s, Below) && SortedBy(t, Below) && multiset(s) == multiset(t) && s != []
    ensures t != [] && s[0] == t[0]
  {
    var j := Pull(s, t);
    var i := Pull(t, s);
    assert forall k :: 0 < k < |s| ==> !Below(s[k], s[0]);
    assert forall k :: 0 < k < |t| ==> !Below(t[k], t[0]);
  }

  lemma MedianPermutes(xs: seq<real>, ys: seq<real>)
    requires multiset(xs) == multiset(ys)
    ensures MedianOf(xs) == MedianOf(ys)
  {
    SortUnaffected(xs, ys);
  }

  lemma {:induction false} DeviationsPermute(xs: seq<real>, ys: seq<real>, center: real)
    requires multiset(xs) == multiset(ys)
    ensures multiset(Deviations(xs, center)) == multiset(Deviations(ys, center))
  {
    if xs == [] {
      assert |multiset(ys)| == 0;
      assert ys == xs;
    } else {
      var j := Pull(xs, ys);
      var rest := ys[..j] + ys[j + 1..];
      DeviationsPermute(xs[1..], rest, center);
      PutBack(xs, ys, j, rest, center);
    }
  }

  lemma PutBack(xs: seq<real>, ys: seq<real>, j: nat, rest: seq<real>, center: real)
    requires xs != [] && j < |ys| && ys[j] == xs[0] && rest == ys[..j] + ys[j + 1..]
    requires multiset(Deviations(xs[1..], center)) == multiset(Deviations(rest, center))
    ensures multiset(Deviations(xs, center)) == multiset(Deviations(ys, center))
  {
    hide *;
    var x := Abs(xs[0] - center);
    var dx, dy := multiset(Deviations(xs, center)), multiset(Deviations(ys, center));
    assert dx == multiset(Deviations(xs[1..], center)) + multiset{x} by {
      assert xs[1..] == xs[..0] + xs[1..];
      DeviationsWithout(xs, 0, xs[1..], center);
    }
    assert dy == multiset(Deviations(rest, center)) + multiset{x} by {
      DeviationsWithout(ys, j, rest, center);
    }
  }

  lemma DeviationsWithout(xs: seq<real>, j: nat, rest: seq<real>, center: real)
    requires j < |xs| && rest == xs[..j] + xs[j + 1..]
    ensures multiset(Deviations(xs, center)) == multiset(Deviations(rest, center)) + multiset{Abs(xs[j] - center)}
  {
    var d := Deviations(xs, center);
    RemoveAt(d, j);
    assert Deviations(rest, center) == d[..j] + d[j + 1..];
    assert d[j] in multiset(d);
  }

  // The baseline does not depend on the order of its samples.
  lemma BaselinePermutes(xs: seq<real>, ys: seq<real>)
    requires multiset(xs) == multiset(ys)
    ensures MedianMAD(xs) == MedianMAD(ys)
  {
    assert |xs| == |multiset(xs)| == |multiset(ys)| == |ys|;
    if xs != [] {
      MedianPermutes(xs, ys);
      var m := MedianOf(xs);
      DeviationsPermute(xs, ys, m);
      MedianPermutes(Deviations(xs, m), Deviations(ys, m));
    }
  }
}
