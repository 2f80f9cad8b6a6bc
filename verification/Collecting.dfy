// Loops that go through a list and keep something of some of its elements.
module Collecting {
  import opened Problems
  import opened Sorting

  ghost predicate NoRepeats<T>(xs: seq<T>) {
    forall i, j :: 0 <= i < j < |xs| ==> xs[i] != xs[j]
  }

  ghost function Elements<T>(xs: seq<T>): set<T> {
    set x | x in xs
  }

  function Collect<A, B>(xs: seq<A>, f: A -> Option<B>): seq<B> {
    if xs == [] then []
    else Collect(xs[..|xs| - 1], f) + (match f(xs[|xs| - 1]) case None => [] case Some(y) => [y])
  }

  lemma CollectNext<A, B>(xs: seq<A>, x: A, f: A -> Option<B>)
    ensures Collect(xs + [x], f) == Collect(xs, f) + (match f(x) case None => [] case Some(y) => [y])
  {
    assert (xs + [x])[..|xs|] == xs;
  }

  lemma CollectStep<A, B>(xs: seq<A>, i: nat, f: A -> Option<B>)
    requires i < |xs|
    ensures Collect(xs[..i + 1], f) == Collect(xs[..i], f) + (match f(xs[i]) case None => [] case Some(y) => [y])
  {
    assert xs[..i + 1] == xs[..i] + [xs[i]];
    CollectNext(xs[..i], xs[i], f);
  }

  // Where an element of the result comes from, and that nothing is lost.
  lemma {:induction false} CollectSource<A, B>(xs: seq<A>, f: A -> Option<B>, y: B) returns (x: A)
    requires y in Collect(xs, f)
    ensures x in xs && f(x) == Some(y)
  {
    var last := xs[|xs| - 1];
    if f(last) == Some(y) {
      x := last;
    } else {
      x := CollectSource(xs[..|xs| - 1], f, y);
    }
  }

  lemma {:induction false} CollectKeeps<A, B>(xs: seq<A>, f: A -> Option<B>, x: A)
    requires x in xs && f(x).Some?
    ensures f(x).value in Collect(xs, f)
  {
    if x != xs[|xs| - 1] {
      assert x in xs[..|xs| - 1];
      CollectKeeps(xs[..|xs| - 1], f, x);
    }
  }

  // Elements that are kept for different reasons stay apart.
  ghost predicate Apart<B>(ys: seq<B>, clash: (B, B) -> bool) {
    forall i, j :: 0 <= i < j < |ys| ==> !clash(ys[i], ys[j])
  }

  lemma {:induction false} CollectApart<A, B>(xs: seq<A>, f: A -> Option<B>, clash: (B, B) -> bool)
    requires NoRepeats(xs)
    requires forall x, x' :: x in xs && x' in xs && x != x' && f(x).Some? && f(x').Some? ==>
               !clash(f(x).value, f(x').value)
    ensures Apart(Collect(xs, f), clash)
  {
    if xs != [] {
      var init, last := xs[..|xs| - 1], xs[|xs| - 1];
      assert forall x :: x in init ==> x in xs;
      CollectApart(init, f, clash);
      var rest := Collect(init, f);
      if f(last).Some? {
        forall i | 0 <= i < |rest| ensures !clash(rest[i], f(last).value) {
          var x := CollectSource(init, f, rest[i]);
          assert x in xs && last in xs && x != last;
        }
      }
    }
  }

  lemma {:induction false} CollectConcat<A, B>(xs: seq<A>, ys: seq<A>, f: A -> Option<B>)
    ensures Collect(xs + ys, f) == Collect(xs, f) + Collect(ys, f)
  {
    if ys == [] {
      assert xs + ys == xs;
    } else {
      var init, last := ys[..|ys| - 1], ys[|ys| - 1];
      assert xs + ys == (xs + init) + [last];
      CollectNext(xs + init, last, f);
      CollectConcat(xs, init, f);
    }
  }

  // Dropping elements that are not kept anyway changes nothing.
  lemma {:induction false} CollectThrough<A, B>(xs: seq<A>, g: A -> Option<A>, f: A -> Option<B>)
    requires forall x :: x in xs ==> g(x) == Some(x) || (g(x) == None && f(x) == None)
    ensures Collect(xs, f) == Collect(Collect(xs, g), f)
  {
    if xs != [] {
      var init, last := xs[..|xs| - 1], xs[|xs| - 1];
      assert forall x :: x in init ==> x in xs;
      CollectThrough(init, g, f);
      assert last in xs && xs == init + [last];
      CollectNext(init, last, f);
      CollectNext(init, last, g);
      if g(last) == Some(last) {
        CollectNext(Collect(init, g), last, f);
      } else {
        assert Collect(init, f) + [] == Collect(init, f) && Collect(init, g) + [] == Collect(init, g);
      }
    }
  }

  lemma NothingCollected<A, B>(f: A -> Option<B>)
    ensures Collect([], f) == []
  {}

  // ----- permutations and sizes -----

  lemma SameElements<T>(a: seq<T>, b: seq<T>)
    requires multiset(a) == multiset(b)
    ensures forall x :: x in a <==> x in b
  {
    forall x ensures x in a <==> x in b {
      assert x in a <==> x in multiset(a);
    }
  }

  lemma {:induction false} CollectPermutes<A, B>(xs: seq<A>, ys: seq<A>, f: A -> Option<B>)
    requires multiset(xs) == multiset(ys)
    ensures multiset(Collect(xs, f)) == multiset(Collect(ys, f))
  {
    hide *;
    if xs == [] {
      assert |multiset(ys)| == 0;
      assert ys == [];
    } else {
      var init, last := xs[..|xs| - 1], xs[|xs| - 1];
      assert xs == init + [last];
      SameElements(xs, ys);
      assert last in xs;
      var j :| 0 <= j < |ys| && ys[j] == last;
      RemoveAt(ys, j);
      CollectPermutes(init, ys[..j] + ys[j + 1..], f);
      PutLast(init, last, ys[..j], ys[j + 1..], f);
    }
  }

  lemma PutLast<A, B>(init: seq<A>, last: A, before: seq<A>, after: seq<A>, f: A -> Option<B>)
    requires multiset(Collect(init, f)) == multiset(Collect(before + after, f))
    ensures multiset(Collect(init + [last], f)) == multiset(Collect(before + ([last] + after), f))
  {
    CollectConcat(before, after, f);
    CollectConcat(before, [last] + after, f);
    CollectConcat([last], after, f);
    CollectConcat(init, [last], f);
    hide *;
  }

  lemma {:induction false} CountedOnce<T>(a: seq<T>, x: T)
    requires NoRepeats(a)
    ensures multiset(a)[x] == if x in a then 1 else 0
  {
    if a != [] {
      assert a == [a[0]] + a[1..];
      assert a[0] !in a[1..];
      CountedOnce(a[1..], x);
    }
  }

  lemma TwoPlaces<T>(b: seq<T>, i: nat, j: nat)
    requires i < j < |b| && b[i] == b[j]
    ensures multiset(b)[b[i]] >= 2
  {
    var x, front, back := b[i], b[..j], b[j..];
    assert b == front + back;
    assert multiset(b) == multiset(front) + multiset(back);
    assert x == front[i] && x == back[0];
    assert x in multiset(front) && x in multiset(back);
  }

  lemma PermutedHasNoRepeats<T>(a: seq<T>, b: seq<T>)
    requires NoRepeats(a) && multiset(a) == multiset(b)
    ensures NoRepeats(b)
  {
    forall i, j | 0 <= i < j < |b| ensures b[i] != b[j] {
      CountedOnce(a, b[i]);
      if b[i] == b[j] {
        TwoPlaces(b, i, j);
      }
    }
  }

  // Lists of the same elements, each without repeats, permute each other.
  lemma PermutesWithoutRepeats<T>(a: seq<T>, b: seq<T>)
    requires NoRepeats(a) && NoRepeats(b) && forall x :: x in a <==> x in b
    ensures multiset(a) == multiset(b)
  {
    forall x ensures multiset(a)[x] == multiset(b)[x] {
      CountedOnce(a, x);
      CountedOnce(b, x);
    }
  }

  lemma {:induction false} SubsetIsSmaller<T>(a: set<T>, b: set<T>)
    requires a <= b
    ensures |a| <= |b|
    ensures a != b ==> |a| < |b|
  {
    if a != {} {
      var x :| x in a;
      SubsetIsSmaller(a - {x}, b - {x});
      assert a == b <==> a - {x} == b - {x};
    }
  }
}
