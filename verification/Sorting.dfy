/** Sorting by a total preorder, standing for Go's sort package. */
module Sorting {
  ghost predicate IsOrder<T(!new)>(le: (T, T) -> bool) {
    && (forall x, y :: le(x, y) || le(y, x))
    && (forall x, y, z :: le(x, y) && le(y, z) ==> le(x, z))
  }

  predicate Sorted<T>(le: (T, T) -> bool, s: seq<T>) {
    forall i, j | 0 <= i < j < |s| :: le(s[i], s[j])
  }

  function Insert<T>(le: (T, T) -> bool, x: T, s: seq<T>): seq<T> {
    if s == [] || le(x, s[0]) then [x] + s else [s[0]] + Insert(le, x, s[1..])
  }

  function Sort<T>(le: (T, T) -> bool, s: seq<T>): seq<T> {
    if s == [] then [] else Insert(le, s[0], Sort(le, s[1..]))
  }

  lemma {:induction false} InsertKeeps<T>(le: (T, T) -> bool, x: T, s: seq<T>)
    ensures multiset(Insert(le, x, s)) == multiset(s) + multiset{x}
    ensures |Insert(le, x, s)| == |s| + 1
  {
    if s != [] && !le(x, s[0]) {
      InsertKeeps(le, x, s[1..]);
      assert s == [s[0]] + s[1..];
    }
  }

  lemma {:induction false} InsertSorts<T(!new)>(le: (T, T) -> bool, x: T, s: seq<T>)
    requires IsOrder(le) && Sorted(le, s)
    ensures Sorted(le, Insert(le, x, s))
  {
    if s != [] && !le(x, s[0]) {
      var rest := Insert(le, x, s[1..]);
      InsertSorts(le, x, s[1..]);
      InsertKeeps(le, x, s[1..]);
      forall y | y in rest ensures le(s[0], y) {
        assert y in multiset(rest);
      }
    }
  }

  /** The result of sorting: the same elements, in order. */
  lemma {:induction false} SortSorts<T(!new)>(le: (T, T) -> bool, s: seq<T>)
    requires IsOrder(le)
    ensures Sorted(le, Sort(le, s)) && multiset(Sort(le, s)) == multiset(s) && |Sort(le, s)| == |s|
  {
    if s != [] {
      SortSorts(le, s[1..]);
      InsertSorts(le, s[0], Sort(le, s[1..]));
      InsertKeeps(le, s[0], Sort(le, s[1..]));
      assert s == [s[0]] + s[1..];
    }
  }

  lemma SameHead<T(!new)>(le: (T, T) -> bool, a: seq<T>, b: seq<T>)
    requires Sorted(le, a) && Sorted(le, b) && multiset(a) == multiset(b) && a != []
    requires forall x <- a, y <- a :: le(x, y) && le(y, x) ==> x == y
    ensures b != [] && a[0] == b[0]
  {
    assert a[0] in multiset(b);
    assert b[0] in multiset(a);
    var i :| 0 <= i < |b| && b[i] == a[0];
    var j :| 0 <= j < |a| && a[j] == b[0];
    if i > 0 && j > 0 {
      assert le(b[0], b[i]) && le(a[0], a[j]);
    }
  }

  lemma TailMultiset<T>(s: seq<T>)
    requires s != []
    ensures multiset(s[1..]) == multiset(s) - multiset{s[0]}
  {
    assert s == [s[0]] + s[1..];
  }

  /** When ties occur only between equal elements, the order of the input does not matter. */
  lemma {:induction false} SortedIsUnique<T(!new)>(le: (T, T) -> bool, a: seq<T>, b: seq<T>)
    requires Sorted(le, a) && Sorted(le, b) && multiset(a) == multiset(b)
    requires forall x <- a, y <- a :: le(x, y) && le(y, x) ==> x == y
    ensures a == b
  {
    if a == [] {
      assert |multiset(b)| == 0;
    } else {
      SameHead(le, a, b);
      TailMultiset(a);
      TailMultiset(b);
      SortedIsUnique(le, a[1..], b[1..]);
      assert a == [a[0]] + a[1..] && b == [b[0]] + b[1..];
    }
  }

  /** Permuting the input of a sort without ties leaves the result alone. */
  lemma SortIgnoresOrder<T(!new)>(le: (T, T) -> bool, a: seq<T>, b: seq<T>)
    requires IsOrder(le) && multiset(a) == multiset(b)
    requires forall x <- a, y <- a :: le(x, y) && le(y, x) ==> x == y
    ensures Sort(le, a) == Sort(le, b)
  {
    SortSorts(le, a);
    SortSorts(le, b);
    forall x <- Sort(le, a), y <- Sort(le, a) | le(x, y) && le(y, x) ensures x == y {
      assert x in multiset(a) && y in multiset(a);
    }
    SortedIsUnique(le, Sort(le, a), Sort(le, b));
  }

  lemma SortOfSorted<T(!new)>(le: (T, T) -> bool, s: seq<T>)
    requires IsOrder(le) && Sorted(le, s)
    requires forall x <- s, y <- s :: le(x, y) && le(y, x) ==> x == y
    ensures Sort(le, s) == s
  {
    SortSorts(le, s);
    SortedIsUnique(le, s, Sort(le, s));
  }

  lemma PairIn<T>(s: seq<T>, i: int, j: int)
    requires 0 <= i < j < |s|
    ensures multiset{s[i], s[j]} <= multiset(s)
  {
    assert s == s[..i] + [s[i]] + s[i + 1..j] + [s[j]] + s[j + 1..];
  }

  lemma PairOut<T>(s: seq<T>, p: T, q: T)
    requires multiset{p, q} <= multiset(s)
    ensures exists k, l :: 0 <= k < |s| && 0 <= l < |s| && k != l && s[k] == p && s[l] == q
  {
    assert p in multiset(s);
    var k :| 0 <= k < |s| && s[k] == p;
    var rest := s[..k] + s[k + 1..];
    assert s == s[..k] + [p] + s[k + 1..];
    assert q in multiset(rest);
    var m :| 0 <= m < |rest| && rest[m] == q;
    assert s[if m < k then m else m + 1] == q;
  }

  predicate DistinctBy<T>(key: T -> int, s: seq<T>) {
    forall i, j | 0 <= i < j < |s| :: key(s[i]) != key(s[j])
  }

  /** A permutation keeps keys distinct. */
  lemma DistinctStaysDistinct<T>(key: T -> int, a: seq<T>, b: seq<T>)
    requires DistinctBy(key, a) && multiset(a) == multiset(b)
    ensures DistinctBy(key, b)
  {
    forall i, j | 0 <= i < j < |b| ensures key(b[i]) != key(b[j]) {
      PairIn(b, i, j);
      PairOut(a, b[i], b[j]);
    }
  }

  /** mapKeysSortedUint64: the elements of a set in ascending order. */
  method MapKeysSorted(ids: set<nat>) returns (sorted: seq<nat>)
    ensures forall id :: id in sorted <==> id in ids
    ensures forall i, j | 0 <= i < j < |sorted| :: sorted[i] < sorted[j]
  {
    var output: seq<nat>, rest := [], ids;
    while rest != {}
      invariant rest <= ids && forall id :: id in output <==> id in ids - rest
      invariant forall i, j | 0 <= i < j < |output| :: output[i] != output[j]
      decreases rest
    {
      var id: nat :| id in rest;
      output, rest := output + [id], rest - {id};
    }
    var le := (a: nat, b: nat) => a <= b;
    sorted := Sort(le, output);
    SortSorts(le, output);
    assert DistinctBy((id: nat) => id as int, output);
    DistinctStaysDistinct((id: nat) => id as int, output, sorted);
    assert forall id :: id in sorted <==> id in multiset(sorted);
    assert forall id :: id in output <==> id in multiset(output);
    forall i, j | 0 <= i < j < |sorted| ensures sorted[i] < sorted[j] {
      assert le(sorted[i], sorted[j]);
    }
  }
}
