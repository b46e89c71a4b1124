/** Trees kept as a parent for each node. An id that is not a key is outside: no parent, a deleted
    parent and another library's parent all end the way up. */
module Forest {
  type Id = nat

  /** A rank falls strictly on the way up, so there is no cycle. */
  ghost predicate RankedBy(parents: map<Id, Id>, rank: map<Id, nat>) {
    parents.Keys <= rank.Keys && forall n <- parents :: parents[n] in parents ==> rank[parents[n]] < rank[n]
  }

  ghost predicate IsForest(parents: map<Id, Id>) {
    exists rank :: RankedBy(parents, rank)
  }

  /** The way up from n through nodes of `allowed`, each visited once. */
  function Chain(parents: map<Id, Id>, n: Id, allowed: set<Id>): (path: seq<Id>)
    ensures forall a <- path :: a in parents && a in allowed
    decreases allowed
  {
    if n in allowed && n in parents then [n] + Chain(parents, parents[n], allowed - {n}) else []
  }

  /** n, its parent, its parent's parent and so on. */
  function Path(parents: map<Id, Id>, n: Id): (path: seq<Id>)
    ensures forall a <- path :: a in parents
    ensures n in parents ==> |path| > 0 && path[0] == n
  {
    Chain(parents, n, parents.Keys)
  }

  lemma {:induction false} ChainLength(parents: map<Id, Id>, n: Id, allowed: set<Id>)
    ensures |Chain(parents, n, allowed)| <= |allowed|
    decreases allowed
  {
    if n in allowed && n in parents {
      ChainLength(parents, parents[n], allowed - {n});
    }
  }

  lemma {:induction false} ChainNeedsOnlyLowerRanks(parents: map<Id, Id>, rank: map<Id, nat>, n: Id, allowed: set<Id>)
    requires RankedBy(parents, rank)
    requires n in parents ==> forall m <- parents :: rank[m] <= rank[n] ==> m in allowed
    ensures Chain(parents, n, allowed) == Path(parents, n)
    decreases if n in parents then rank[n] else 0
  {
    if n in parents {
      if parents[n] in parents {
        ChainNeedsOnlyLowerRanks(parents, rank, parents[n], allowed - {n});
        ChainNeedsOnlyLowerRanks(parents, rank, parents[n], parents.Keys - {n});
      } else {
        assert Chain(parents, parents[n], allowed - {n}) == [] == Chain(parents, parents[n], parents.Keys - {n});
      }
    }
  }

  lemma PathUnfold(parents: map<Id, Id>, n: Id)
    requires IsForest(parents)
    ensures Path(parents, n) == if n in parents then [n] + Path(parents, parents[n]) else []
  {
    var rank :| RankedBy(parents, rank);
    if n in parents {
      if parents[n] in parents {
        ChainNeedsOnlyLowerRanks(parents, rank, parents[n], parents.Keys - {n});
      } else {
        assert Chain(parents, parents[n], parents.Keys - {n}) == [];
      }
    }
  }

  /** Nodes above have lower ranks. */
  lemma {:induction false} RankFallsAlongPath(parents: map<Id, Id>, rank: map<Id, nat>, n: Id, a: Id)
    requires RankedBy(parents, rank) && a in Path(parents, n)
    ensures n in parents && a in parents && rank[a] <= rank[n] && (rank[a] == rank[n] ==> a == n)
    decreases if n in parents then rank[n] else 0
  {
    PathUnfold(parents, n);
    if a != n {
      assert a in Path(parents, parents[n]);
      PathUnfold(parents, parents[n]);
      RankFallsAlongPath(parents, rank, parents[n], a);
    }
  }

  /** The way up from an ancestor is the rest of the way up. */
  lemma {:induction false} PathOfAncestor(parents: map<Id, Id>, n: Id, a: Id)
    requires IsForest(parents) && a in Path(parents, n)
    ensures |Path(parents, a)| <= |Path(parents, n)|
            && Path(parents, a) == Path(parents, n)[|Path(parents, n)| - |Path(parents, a)|..]
    decreases |Path(parents, n)|
  {
    PathUnfold(parents, n);
    if a != n {
      PathOfAncestor(parents, parents[n], a);
      assert Path(parents, n)[1..] == Path(parents, parents[n]);
    }
  }

  lemma PathTransitive(parents: map<Id, Id>, n: Id, a: Id, b: Id)
    requires IsForest(parents) && a in Path(parents, n) && b in Path(parents, a)
    ensures b in Path(parents, n)
  {
    PathOfAncestor(parents, n, a);
  }

  /** No node is its own proper ancestor. */
  lemma NoCycle(parents: map<Id, Id>, n: Id)
    requires IsForest(parents) && n in parents
    ensures n !in Path(parents, parents[n])
  {
    var rank :| RankedBy(parents, rank);
    if n in Path(parents, parents[n]) {
      RankFallsAlongPath(parents, rank, parents[n], n);
    }
  }

  /** Ancestors of each other are the same node. */
  lemma PathAntisymmetric(parents: map<Id, Id>, a: Id, b: Id)
    requires IsForest(parents) && a in Path(parents, b) && b in Path(parents, a)
    ensures a == b
  {
    var rank :| RankedBy(parents, rank);
    RankFallsAlongPath(parents, rank, a, b);
    RankFallsAlongPath(parents, rank, b, a);
  }

  /** Hanging x under p, which is not below x. */
  lemma MoveKeepsForest(parents: map<Id, Id>, x: Id, p: Id)
    requires IsForest(parents) && x in parents && x !in Path(parents, p)
    ensures IsForest(parents[x := p])
  {
    var rank :| RankedBy(parents, rank);
    var lift := if p in parents then rank[p] + 1 else 0;
    var rank' := map n | n in parents :: if x in Path(parents, n) then rank[n] + lift else rank[n];
    var parents' := parents[x := p];
    forall n | n in parents' && parents'[n] in parents' ensures rank'[parents'[n]] < rank'[n] {
      PathUnfold(parents, n);
    }
    assert RankedBy(parents', rank');
  }

  /** A new node that nobody hangs under. */
  lemma AddLeafKeepsForest(parents: map<Id, Id>, x: Id, p: Id)
    requires IsForest(parents) && x !in parents && x != p && forall n <- parents :: parents[n] != x
    ensures IsForest(parents[x := p])
  {
    var rank :| RankedBy(parents, rank);
    assert RankedBy(parents[x := p], rank[x := if p in parents then rank[p] + 1 else 0]);
  }

  /** Ways up that do not pass x stay as they are. */
  lemma {:induction false} MoveKeepsPath(parents: map<Id, Id>, x: Id, p: Id, n: Id)
    requires IsForest(parents) && x in parents && x !in Path(parents, p) && x !in Path(parents, n)
    ensures Path(parents[x := p], n) == Path(parents, n)
    decreases |Path(parents, n)|
  {
    MoveKeepsForest(parents, x, p);
    PathUnfold(parents, n);
    PathUnfold(parents[x := p], n);
    if n in parents {
      MoveKeepsPath(parents, x, p, parents[n]);
    }
  }
}
