/** Database sequences and random keys: there is always an unused one. */
module Fresh {
  ghost function Highest(s: set<nat>): (top: nat)
    ensures forall n <- s :: n <= top
  {
    if s == {} then 0
    else
      var n :| n in s;
      var rest := Highest(s - {n});
      assert forall m <- s :: m == n || m in s - {n};
      if n <= rest then rest else n
  }

  lemma FreshId(s: set<nat>)
    ensures exists n: nat :: n != 0 && n !in s
  {
    assert Highest(s) + 1 != 0 && Highest(s) + 1 !in s;
  }

  lemma FreshKey(keys: set<string>)
    ensures exists k: string :: k != "" && k !in keys
  {
    ghost var lengths := set k | k in keys :: |k|;
    ghost var k := seq(Highest(lengths) + 1, _ => 'k');
    assert k in keys ==> |k| in lengths;
    assert k != "";
  }
}
