/** Adding up a size over a finite set. */
module SetSum {
  ghost function Total<K(!new)>(size: map<K, nat>, s: set<K>): nat
    requires s <= size.Keys
  {
    if s == {} then 0 else var k :| k in s; size[k] + Total(size, s - {k})
  }

  lemma {:induction false} TotalSplit<K(!new)>(size: map<K, nat>, s: set<K>, k: K)
    requires s <= size.Keys && k in s
    ensures Total(size, s) == size[k] + Total(size, s - {k})
    decreases |s|
  {
    var j :| j in s && Total(size, s) == size[j] + Total(size, s - {j});
    if j != k {
      TotalSplit(size, s - {j}, k);
      TotalSplit(size, s - {k}, j);
      assert s - {j} - {k} == s - {k} - {j};
    }
  }

  /** Only the sizes of the members matter. */
  lemma {:induction false} TotalSame<K(!new)>(size: map<K, nat>, size': map<K, nat>, s: set<K>)
    requires s <= size.Keys && s <= size'.Keys && forall k <- s :: size'[k] == size[k]
    ensures Total(size', s) == Total(size, s)
    decreases |s|
  {
    if s != {} {
      var k :| k in s;
      TotalSplit(size, s, k);
      TotalSplit(size', s, k);
      TotalSame(size, size', s - {k});
    }
  }

  /** A part is no larger than the whole, and as many elements only when it is the whole. */
  lemma {:induction false} TotalOfPart<K(!new)>(size: map<K, nat>, part: set<K>, whole: set<K>)
    requires part <= whole <= size.Keys
    ensures |part| <= |whole| && Total(size, part) <= Total(size, whole)
    ensures |part| == |whole| ==> part == whole
    decreases |part|
  {
    if part != {} {
      var k :| k in part;
      TotalSplit(size, part, k);
      TotalSplit(size, whole, k);
      TotalOfPart(size, part - {k}, whole - {k});
      assert part == (part - {k}) + {k} && whole == (whole - {k}) + {k};
    } else if whole != {} {
      assert |whole| > 0;
    }
  }

  /** Disjoint parts add up. */
  lemma {:induction false} TotalOfUnion<K(!new)>(size: map<K, nat>, a: set<K>, b: set<K>)
    requires a !! b && a + b <= size.Keys
    ensures Total(size, a + b) == Total(size, a) + Total(size, b)
    decreases |a|
  {
    if a == {} {
      assert a + b == b;
    } else {
      var k :| k in a;
      TotalSplit(size, a, k);
      TotalSplit(size, a + b, k);
      assert (a + b) - {k} == (a - {k}) + b;
      TotalOfUnion(size, a - {k}, b);
    }
  }
}
