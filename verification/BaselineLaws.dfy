// Further laws of the baseline: it treats both sides of a history alike.
module BaselineLaws {
  import opened Problems
  import opened Sorting
  import opened Collecting
  import opened Baseline

  function Negated(xs: seq<real>): (ys: seq<real>)
    ensures |ys| == |xs| && forall i :: 0 <= i < |xs| ==> ys[i] == -xs[i]
  {
    seq(|xs|, i requires 0 <= i < |xs| => -xs[i])
  }

  function Backwards(xs: seq<real>): (ys: seq<real>)
    ensures |ys| == |xs| && forall i {:trigger ys[i]} :: 0 <= i < |xs| ==> ys[i] == xs[|xs| - 1 - i]
  {
    seq(|xs|, i requires 0 <= i < |xs| => xs[|xs| - 1 - i])
  }

  lemma {:induction false} BackwardsPermutes(xs: seq<real>)
    ensures multiset(Backwards(xs)) == multiset(xs)
  {
    if xs != [] {
      var init, last := xs[..|xs| - 1], xs[|xs| - 1];
      BackwardsPermutes(init);
      assert xs == init + [last];
      assert Backwards(xs) == [last] + Backwards(init);
    }
  }

  lemma {:induction false} NegatedCollects(xs: seq<real>)
    ensures Collect(xs, (x: real) => Some(-x)) == Negated(xs)
  {
    if xs != [] {
      NegatedCollects(xs[..|xs| - 1]);
    }
  }

  lemma NegatedPermutes(xs: seq<real>, ys: seq<real>)
    requires multiset(xs) == multiset(ys)
    ensures multiset(Negated(xs)) == multiset(Negated(ys))
  {
    NegatedCollects(xs);
    NegatedCollects(ys);
    CollectPermutes(xs, ys, (x: real) => Some(-x));
  }

  lemma SortMirrors(xs: seq<real>)
    ensures Sort(Negated(xs), Below) == Backwards(Negated(Sort(xs, Below)))
  {
    var s := Sort(xs, Below);
    var t := Backwards(Negated(s));
    SortFacts(xs);
    SortFacts(Negated(xs));
    NegatedPermutes(s, xs);
    BackwardsPermutes(Negated(s));
    hide Sort;
    forall i, j | 0 <= i < j < |t| ensures !Below(t[j], t[i]) {
      assert !Below(s[|s| - 1 - i], s[|s| - 1 - j]);
    }
    SortedRealsEqual(Sort(Negated(xs), Below), t);
  }

  lemma Middles(xs: seq<real>, k: nat)
    ensures |Sort(xs, Below)| == |xs|
    ensures |xs| == 2 * k + 1 ==> MedianOf(xs) == Sort(xs, Below)[k]
    ensures |xs| == 2 * k > 0 ==> MedianOf(xs) == (Sort(xs, Below)[k - 1] + Sort(xs, Below)[k]) / 2.0
  {
    SortFacts(xs);
    hide Sort;
  }

  lemma MirroredMiddles(s: seq<real>, k: nat)
    ensures var t := Backwards(Negated(s));
            && (|s| == 2 * k + 1 ==> t[k] == -s[k])
            && (|s| == 2 * k > 0 ==> t[k - 1] == -s[k] && t[k] == -s[k - 1])
  {}

  lemma MedianMirrors(xs: seq<real>)
    ensures MedianOf(Negated(xs)) == -MedianOf(xs)
  {
    var k := |xs| / 2;
    if xs == [] {
      assert Negated(xs) == [];
    } else {
      hide *;
      SortMirrors(xs);
      Middles(xs, k);
      Middles(Negated(xs), k);
      MirroredMiddles(Sort(xs, Below), k);
    }
  }

  // A history turned upside down has the negated median and the same deviation.
  lemma BaselineMirrors(xs: seq<real>)
    ensures MedianMAD(Negated(xs)) == (-MedianMAD(xs).0, MedianMAD(xs).1)
  {
    MedianMirrors(xs);
    hide MedianOf;
    var m := MedianOf(xs);
    assert Deviations(Negated(xs), -m) == Deviations(xs, m);
  }

  // The median of a sorted history is its middle, or the mean of its two middles.
  lemma MedianOfSorted(s: seq<real>, k: nat)
    requires SortedBy(s, Below)
    ensures |s| == 2 * k + 1 ==> MedianOf(s) == s[k]
    ensures |s| == 2 * k > 0 ==> 2.0 * MedianOf(s) == s[k - 1] + s[k]
  {
    SortFacts(s);
    SortedRealsEqual(Sort(s, Below), s);
    Middles(s, k);
    hide Sort, MedianOf;
  }
}
