// Go's string order, and sorted permutations: what a call of Go's sort.Slice guarantees, and when
// that guarantee pins down the result.
module Sorting {

  // Lexicographic order.
  predicate StringLess(a: string, b: string) {
    if b == [] then false
    else if a == [] then true
    else if a[0] != b[0] then a[0] < b[0]
    else StringLess(a[1..], b[1..])
  }

  lemma {:induction false} StringAsymmetric(a: string, b: string)
    ensures !(StringLess(a, b) && StringLess(b, a))
  {
    if a != [] && b != [] && a[0] == b[0] {
      StringAsymmetric(a[1..], b[1..]);
    }
  }

  lemma {:induction false} StringTotal(a: string, b: string)
    ensures a == b || StringLess(a, b) || StringLess(b, a)
  {
    if a != [] && b != [] && a[0] == b[0] {
      StringTotal(a[1..], b[1..]);
      assert a == [a[0]] + a[1..] && b == [b[0]] + b[1..];
    }
  }

  lemma {:induction false} StringTransitive(a: string, b: string, c: string)
    requires StringLess(a, b) && StringLess(b, c)
    ensures StringLess(a, c)
  {
    if a != [] && a[0] == b[0] == c[0] {
      StringTransitive(a[1..], b[1..], c[1..]);
    }
  }

  lemma StringOrder()
    ensures forall a, b :: StringLess(a, b) ==> !StringLess(b, a)
    ensures forall a, b :: a == b || StringLess(a, b) || StringLess(b, a)
    ensures forall a, b, c :: StringLess(a, b) && StringLess(b, c) ==> StringLess(a, c)
  {
    forall a, b ensures StringLess(a, b) ==> !StringLess(b, a) {
      StringAsymmetric(a, b);
    }
    forall a, b ensures a == b || StringLess(a, b) || StringLess(b, a) {
      StringTotal(a, b);
    }
    forall a, b, c | StringLess(a, b) && StringLess(b, c) ensures StringLess(a, c) {
      StringTransitive(a, b, c);
    }
  }

  // A comparison in the style of sort.Slice's less: asymmetric, and with
  // "not less" transitive, so that equal elements form classes.
  ghost predicate WeakOrder<T(!new)>(less: (T, T) -> bool) {
    && (forall a, b :: less(a, b) ==> !less(b, a))
    && (forall a, b, c :: !less(b, a) && !less(c, b) ==> !less(c, a))
  }

  ghost predicate SortedBy<T>(xs: seq<T>, less: (T, T) -> bool) {
    forall i, j :: 0 <= i < j < |xs| ==> !less(xs[j], xs[i])
  }

  // No two positions hold elements that less cannot tell apart.
  ghost predicate DistinctBy<T>(xs: seq<T>, less: (T, T) -> bool) {
    forall i, j :: 0 <= i < j < |xs| ==> less(xs[i], xs[j]) || less(xs[j], xs[i])
  }

  // Insert x behind everything that is not greater.
  function Insert<T>(xs: seq<T>, x: T, less: (T, T) -> bool): seq<T> {
    if xs == [] then [x]
    else if less(x, xs[|xs| - 1]) then Insert(xs[..|xs| - 1], x, less) + [xs[|xs| - 1]]
    else xs + [x]
  }

  // A sort of a copy; the elements that less cannot tell apart keep their order.
  function Sort<T>(xs: seq<T>, less: (T, T) -> bool): seq<T> {
    if xs == [] then [] else Insert(Sort(xs[..|xs| - 1], less), xs[|xs| - 1], less)
  }

  lemma {:induction false} InsertPermutes<T>(xs: seq<T>, x: T, less: (T, T) -> bool)
    ensures multiset(Insert(xs, x, less)) == multiset(xs) + multiset{x}
  {
    if xs != [] && less(x, xs[|xs| - 1]) {
      assert xs == xs[..|xs| - 1] + [xs[|xs| - 1]];
      InsertPermutes(xs[..|xs| - 1], x, less);
    }
  }

  lemma {:induction false} SortPermutes<T>(xs: seq<T>, less: (T, T) -> bool)
    ensures multiset(Sort(xs, less)) == multiset(xs)
    ensures |Sort(xs, less)| == |xs|
  {
    if xs != [] {
      assert xs == xs[..|xs| - 1] + [xs[|xs| - 1]];
      SortPermutes(xs[..|xs| - 1], less);
      InsertPermutes(Sort(xs[..|xs| - 1], less), xs[|xs| - 1], less);
    }
    assert |Sort(xs, less)| == |multiset(Sort(xs, less))|;
  }

  lemma {:induction false} InsertSorted<T(!new)>(xs: seq<T>, x: T, less: (T, T) -> bool)
    requires WeakOrder(less) && SortedBy(xs, less)
    ensures SortedBy(Insert(xs, x, less), less)
  {
    if xs != [] && less(x, xs[|xs| - 1]) {
      var last, init := xs[|xs| - 1], xs[..|xs| - 1];
      InsertSorted(init, x, less);
      InsertPermutes(init, x, less);
      var r := Insert(init, x, less);
      forall i | 0 <= i < |r| ensures !less(last, r[i]) {
        assert r[i] in multiset(r);
        if r[i] != x {
          assert r[i] in init;
        }
      }
    } else if xs != [] {
      forall i | 0 <= i < |xs| ensures !less(x, xs[i]) {
        if i < |xs| - 1 {
          assert !less(xs[|xs| - 1], xs[i]);
        }
      }
    }
  }

  lemma {:induction false} SortSorted<T(!new)>(xs: seq<T>, less: (T, T) -> bool)
    requires WeakOrder(less)
    ensures SortedBy(Sort(xs, less), less)
  {
    if xs != [] {
      SortSorted(xs[..|xs| - 1], less);
      InsertSorted(Sort(xs[..|xs| - 1], less), xs[|xs| - 1], less);
    }
  }

  // sort.Slice: some sorted permutation of xs.
  method SortSlice<T(!new)>(xs: seq<T>, less: (T, T) -> bool) returns (ys: seq<T>)
    requires WeakOrder(less)
    ensures multiset(ys) == multiset(xs) && SortedBy(ys, less)
  {
    ys := Sort(xs, less);
    SortPermutes(xs, less);
    SortSorted(xs, less);
  }

  lemma RemoveAt<T>(ys: seq<T>, j: nat)
    requires j < |ys|
    ensures multiset(ys[..j] + ys[j + 1..]) == multiset(ys) - multiset{ys[j]}
    ensures ys == ys[..j] + ([ys[j]] + ys[j + 1..])
  {
    assert ys == ys[..j] + ([ys[j]] + ys[j + 1..]);
    assert multiset(ys) == multiset(ys[..j]) + multiset{ys[j]} + multiset(ys[j + 1..]);
  }

  // The first element of one permutation, taken out of the other.
  lemma Pull<T>(xs: seq<T>, ys: seq<T>) returns (j: nat)
    requires xs != [] && multiset(xs) == multiset(ys)
    ensures j < |ys| && ys[j] == xs[0]
    ensures ys == ys[..j] + ([ys[j]] + ys[j + 1..])
    ensures multiset(xs[1..]) == multiset(ys[..j] + ys[j + 1..])
  {
    assert xs[0] in multiset(xs);
    assert xs[0] in multiset(ys);
    j :| 0 <= j < |ys| && ys[j] == xs[0];
    RemoveAt(ys, j);
    RemoveAt(xs, 0);
    assert xs[..0] + xs[1..] == xs[1..];
  }

  lemma TailsPermute<T>(xs: seq<T>, ys: seq<T>)
    requires xs != [] && ys != [] && xs[0] == ys[0] && multiset(xs) == multiset(ys)
    ensures multiset(xs[1..]) == multiset(ys[1..])
  {
    RemoveAt(xs, 0);
    RemoveAt(ys, 0);
    assert xs[..0] + xs[1..] == xs[1..] && ys[..0] + ys[1..] == ys[1..];
  }

  // Two sorted permutations of each other are equal, unless two of their
  // elements cannot be told apart.
  lemma {:induction false} SortedUnique<T(!new)>(xs: seq<T>, ys: seq<T>, less: (T, T) -> bool)
    requires forall a, b :: less(a, b) ==> !less(b, a)
    requires SortedBy(xs, less) && SortedBy(ys, less) && DistinctBy(xs, less)
    requires multiset(xs) == multiset(ys)
    ensures xs == ys
  {
    if xs == [] {
      assert |multiset(ys)| == 0;
    } else {
      SortedHeadsEqual(xs, ys, less);
      TailsPermute(xs, ys);
      SortedUnique(xs[1..], ys[1..], less);
    }
  }

  lemma SortedHeadsEqual<T(!new)>(xs: seq<T>, ys: seq<T>, less: (T, T) -> bool)
    requires forall a, b :: less(a, b) ==> !less(b, a)
    requires SortedBy(xs, less) && SortedBy(ys, less) && DistinctBy(xs, less)
    requires xs != [] && multiset(xs) == multiset(ys)
    ensures ys != [] && xs[0] == ys[0]
  {
    var j := Pull(xs, ys);
    var i := Pull(ys, xs);
    assert forall k :: 0 < k < |xs| ==> less(xs[0], xs[k]);
    assert forall k :: 0 < k < |ys| ==> !less(ys[k], ys[0]);
  }

  // Being told apart does not depend on the order of the elements.
  lemma {:induction false} DistinctPermutes<T(!new)>(xs: seq<T>, ys: seq<T>, less: (T, T) -> bool)
    requires multiset(xs) == multiset(ys) && DistinctBy(xs, less)
    requires forall a :: !less(a, a)
    ensures DistinctBy(ys, less)
  {
    forall i, j | 0 <= i < j < |ys| ensures less(ys[i], ys[j]) || less(ys[j], ys[i]) {
      assert ys[i] in multiset(xs) && ys[j] in multiset(xs);
      if ys[i] == ys[j] {
        assert ys == ys[..i] + [ys[i]] + ys[i + 1..j] + [ys[j]] + ys[j + 1..];
        assert multiset(ys)[ys[i]] >= 2;
        OccursOnce(xs, ys[i], less);
      } else {
        var a :| 0 <= a < |xs| && xs[a] == ys[i];
        var b :| 0 <= b < |xs| && xs[b] == ys[j];
        assert a != b;
      }
    }
  }

  lemma {:induction false} OccursOnce<T(!new)>(xs: seq<T>, x: T, less: (T, T) -> bool)
    requires DistinctBy(xs, less)
    requires forall a :: !less(a, a)
    ensures multiset(xs)[x] <= 1
  {
    if xs != [] {
      assert xs == [xs[0]] + xs[1..];
      OccursOnce(xs[1..], x, less);
      assert xs[0] == x ==> forall k :: 0 < k < |xs| ==> xs[k] != x;
    }
  }
}
