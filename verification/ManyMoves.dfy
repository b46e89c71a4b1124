/** Several moves whose checks all passed on the same tree, applied together: when is the result still a forest? */
module ManyMoves {
  import opened Forest
  import opened Fresh
  import opened Wrappers

  /** The parents after every x in `moves` has been put under moves[x]. */
  function Moved(parents: map<Id, Id>, moves: map<Id, Id>): map<Id, Id> {
    map n | n in parents :: if n in moves then moves[n] else parents[n]
  }

  /** The nearest moved node on a way up. */
  function FirstMoved(path: seq<Id>, moves: map<Id, Id>): (first: Option<Id>)
    ensures first.Some? <==> exists a <- path :: a in moves
    ensures first.Some? ==> first.value in path && first.value in moves
  {
    if path == [] then None
    else if path[0] in moves then Some(path[0])
    else
      assert forall a <- path :: a == path[0] || a in path[1..];
      FirstMoved(path[1..], moves)
  }

  /** Which other move carries the new parent of a move along, if one does. */
  function Carried(parents: map<Id, Id>, moves: map<Id, Id>): map<Id, Id> {
    map x | x in moves && FirstMoved(Path(parents, moves[x]), moves).Some? ::
        FirstMoved(Path(parents, moves[x]), moves).value
  }

  lemma FirstMovedUnfold(parents: map<Id, Id>, moves: map<Id, Id>, n: Id)
    requires IsForest(parents)
    ensures FirstMoved(Path(parents, n), moves) ==
      if n !in parents then None else if n in moves then Some(n) else FirstMoved(Path(parents, parents[n]), moves)
  {
    PathUnfold(parents, n);
    if n in parents {
      assert Path(parents, n)[1..] == Path(parents, parents[n]);
    }
  }

  /** Going up to the nearest moved node takes no rank of the moved tree upwards. */
  lemma {:induction false} RankFallsToFirst(parents: map<Id, Id>, moves: map<Id, Id>, rank: map<Id, nat>, n: Id)
    requires IsForest(parents) && RankedBy(Moved(parents, moves), rank) && FirstMoved(Path(parents, n), moves).Some?
    ensures var y := FirstMoved(Path(parents, n), moves).value;
            n in parents && y in parents && rank[y] <= rank[n]
    decreases |Path(parents, n)|
  {
    PathUnfold(parents, n);
    FirstMovedUnfold(parents, moves, n);
    if n in parents && n !in moves {
      FirstMovedUnfold(parents, moves, parents[n]);
      RankFallsToFirst(parents, moves, rank, parents[n]);
      assert Moved(parents, moves)[n] == parents[n];
    }
  }

  /** A cycle of moves that carry each other along is a cycle of the tree. */
  lemma MovedForestCarriesNoCycle(parents: map<Id, Id>, moves: map<Id, Id>)
    requires IsForest(parents) && moves.Keys <= parents.Keys && IsForest(Moved(parents, moves))
    ensures IsForest(Carried(parents, moves))
  {
    var rank :| RankedBy(Moved(parents, moves), rank);
    var carried := Carried(parents, moves);
    forall x <- carried ensures x in rank && carried[x] in rank && rank[carried[x]] < rank[x] {
      RankFallsToFirst(parents, moves, rank, moves[x]);
      assert Moved(parents, moves)[x] == moves[x];
    }
    assert RankedBy(carried, rank);
  }

  /** How often a way up in the moved tree still jumps to another place of the old tree. */
  ghost function Jumps(parents: map<Id, Id>, moves: map<Id, Id>, rank: map<Id, nat>, n: Id): nat {
    match FirstMoved(Path(parents, n), moves)
    case None => 0
    case Some(y) => if y in rank && y in Carried(parents, moves) then rank[y] + 2 else 1
  }

  ghost function Combined(jumps: nat, rank: nat, bound: nat): nat {
    jumps * bound + rank
  }

  lemma FewerJumps(a: nat, b: nat, i: nat, j: nat, bound: nat)
    requires a < b && i < bound
    ensures Combined(a, i, bound) < Combined(b, j, bound)
  {
    assert a * bound + bound == (a + 1) * bound <= b * bound;
  }

  /** A step up in the moved tree: a jump, or a step up in the old tree. */
  lemma StepUp(parents: map<Id, Id>, moves: map<Id, Id>, rank: map<Id, nat>, n: Id)
    requires IsForest(parents) && moves.Keys <= parents.Keys && RankedBy(Carried(parents, moves), rank) && n in parents
    ensures n in moves ==> Jumps(parents, moves, rank, moves[n]) < Jumps(parents, moves, rank, n)
    ensures n !in moves ==> Jumps(parents, moves, rank, parents[n]) == Jumps(parents, moves, rank, n)
  {
    FirstMovedUnfold(parents, moves, n);
    if n in moves {
      CarriedAt(parents, moves, n);
    }
    hide FirstMoved, Path, IsForest, Carried;
  }

  lemma CarriedAt(parents: map<Id, Id>, moves: map<Id, Id>, x: Id)
    requires x in moves
    ensures var first := FirstMoved(Path(parents, moves[x]), moves);
            && (x in Carried(parents, moves) <==> first.Some?)
            && (first.Some? ==> Carried(parents, moves)[x] == first.value)
  {
    hide FirstMoved, Path;
  }

  lemma RankBound(parents: map<Id, Id>, base: map<Id, nat>) returns (bound: nat)
    requires parents.Keys <= base.Keys
    ensures forall n <- parents :: base[n] < bound
  {
    var values := set n | n in base :: base[n];
    bound := Highest(values) + 1;
    assert forall n <- base :: base[n] in values;
  }

  lemma CombinedRanks(parents: map<Id, Id>, moves: map<Id, Id>, base: map<Id, nat>, rank: map<Id, nat>, bound: nat)
    requires IsForest(parents) && moves.Keys <= parents.Keys
    requires RankedBy(parents, base) && RankedBy(Carried(parents, moves), rank) && forall n <- parents ::
             base[n] < bound
    ensures IsForest(Moved(parents, moves))
  {
    var moved := Moved(parents, moves);
    ghost var combined := map n | n in parents :: Combined(Jumps(parents, moves, rank, n), base[n], bound);
    hide Carried, Path, FirstMoved, Jumps, Combined, IsForest;
    forall n <- moved ensures moved[n] in moved ==> combined[moved[n]] < combined[n] {
      if moved[n] in moved {
        StepUp(parents, moves, rank, n);
        if n in moves {
          FewerJumps(Jumps(parents, moves, rank, moves[n]), Jumps(parents, moves, rank, n), base[moves[n]], base[n],
              bound);
        } else {
          SameJumps(Jumps(parents, moves, rank, n), base[parents[n]], base[n], bound);
        }
      }
    }
    Ranks(moved, combined);
  }

  lemma SameJumps(a: nat, i: nat, j: nat, bound: nat)
    requires i < j
    ensures Combined(a, i, bound) < Combined(a, j, bound)
  {
  }

  lemma Ranks(parents: map<Id, Id>, rank: map<Id, nat>)
    requires RankedBy(parents, rank)
    ensures IsForest(parents)
  {
  }

  lemma UncarriedMovesKeepForest(parents: map<Id, Id>, moves: map<Id, Id>)
    requires IsForest(parents) && moves.Keys <= parents.Keys && IsForest(Carried(parents, moves))
    ensures IsForest(Moved(parents, moves))
  {
    var base :| RankedBy(parents, base);
    var rank :| RankedBy(Carried(parents, moves), rank);
    var bound := RankBound(parents, base);
    CombinedRanks(parents, moves, base, rank, bound);
  }

  /** Any number of moves together leave a forest exactly when no moves carry each other along in a circle. */
  lemma MovesKeepForest(parents: map<Id, Id>, moves: map<Id, Id>)
    requires IsForest(parents) && moves.Keys <= parents.Keys
    ensures IsForest(Moved(parents, moves)) <==> IsForest(Carried(parents, moves))
  {
    if IsForest(Moved(parents, moves)) {
      MovedForestCarriesNoCycle(parents, moves);
    }
    if IsForest(Carried(parents, moves)) {
      UncarriedMovesKeepForest(parents, moves);
    }
  }

  /** Where two batches go: the nodes of each to one target. */
  function TwoTargets(xs: set<Id>, p: Id, ys: set<Id>, q: Id): map<Id, Id> {
    map n | n in xs + ys :: if n in xs then p else q
  }

  /** Two batches that are each fine on their own leave a cycle exactly when each carries the other's target. */
  lemma TwoBatches(parents: map<Id, Id>, xs: set<Id>, p: Id, ys: set<Id>, q: Id)
    requires IsForest(parents) && xs <= parents.Keys && ys <= parents.Keys && xs !! ys && xs != {} && ys != {}
    requires (forall x <- xs :: x !in Path(parents, p)) && (forall y <- ys :: y !in Path(parents, q))
    ensures IsForest(Moved(parents, TwoTargets(xs, p, ys, q))) <==>
            !((exists y <- ys :: y in Path(parents, p)) && (exists x <- xs :: x in Path(parents, q)))
  {
    var moves := TwoTargets(xs, p, ys, q);
    MovesKeepForest(parents, moves);
    var (up, vp) := (FirstMoved(Path(parents, p), moves), FirstMoved(Path(parents, q), moves));
    assert up.Some? ==> up.value in ys;
    assert vp.Some? ==> vp.value in xs;
    assert (exists y <- ys :: y in Path(parents, p)) <==> up.Some?;
    assert (exists x <- xs :: x in Path(parents, q)) <==> vp.Some?;
    CarriedByBatches(parents, xs, p, ys, q);
    hide FirstMoved, Moved, IsForest, Carried, Path, TwoTargets;
    LinkedSets(Carried(parents, moves), xs, ys, up, vp);
  }

  lemma CarriedByBatches(parents: map<Id, Id>, xs: set<Id>, p: Id, ys: set<Id>, q: Id)
    requires xs !! ys
    ensures var moves := TwoTargets(xs, p, ys, q);
            var (links, up, vp) :=
                (Carried(parents, moves), FirstMoved(Path(parents, p), moves), FirstMoved(Path(parents, q), moves));
            && links.Keys <= xs + ys
            && (forall x <- xs :: (x in links <==> up.Some?) && (x in links ==> Some(links[x]) == up))
            && (forall y <- ys :: (y in links <==> vp.Some?) && (y in links ==> Some(links[y]) == vp))
  {
    hide FirstMoved, Path;
  }

  /** Every member of one set is linked to the same member of the other, if at all. */
  lemma LinkedSets(links: map<Id, Id>, xs: set<Id>, ys: set<Id>, up: Option<Id>, vp: Option<Id>)
    requires xs !! ys && xs != {} && ys != {} && links.Keys <= xs + ys
    requires (up.Some? ==> up.value in ys) && (vp.Some? ==> vp.value in xs)
    requires forall x <- xs :: (x in links <==> up.Some?) && (x in links ==> Some(links[x]) == up)
    requires forall y <- ys :: (y in links <==> vp.Some?) && (y in links ==> Some(links[y]) == vp)
    ensures IsForest(links) <==> !(up.Some? && vp.Some?)
  {
    if up.Some? && vp.Some? {
      forall rank: map<Id, nat> ensures !RankedBy(links, rank) {
        assert up.value in links && vp.value in links && links[up.value] == vp.value && links[vp.value] == up.value;
      }
    } else {
      var rank := map n | n in xs + ys :: if (n in xs) == up.Some? then 1 else 0;
      assert RankedBy(links, rank);
    }
  }

  /** Two moves that are each fine on their own leave a cycle exactly when each carries the other's target. */
  lemma TwoMoves(parents: map<Id, Id>, x: Id, p: Id, y: Id, q: Id)
    requires IsForest(parents) && x in parents && y in parents && x != y
    requires x !in Path(parents, p) && y !in Path(parents, q)
    ensures IsForest(parents[x := p][y := q]) <==> !(y in Path(parents, p) && x in Path(parents, q))
  {
    hide Path, IsForest;
    TwoBatches(parents, {x}, p, {y}, q);
    assert Moved(parents, TwoTargets({x}, p, {y}, q)) == parents[x := p][y := q];
    assert x in {x} && y in {y};
  }

  lemma SelfLink(links: map<Id, Id>, x: Id)
    requires x in links && links[x] == x
    ensures !IsForest(links)
  {
    forall rank: map<Id, nat> ensures !RankedBy(links, rank) {}
  }

  function Toward(xs: set<Id>, p: Id): map<Id, Id> {
    map x | x in xs :: p
  }

  /** Moves to one and the same target: fine exactly when no moved node is the target or above it. */
  lemma MovesToOneTarget(parents: map<Id, Id>, xs: set<Id>, p: Id)
    requires IsForest(parents) && xs <= parents.Keys
    ensures IsForest(Moved(parents, Toward(xs, p))) <==> forall x <- xs :: x !in Path(parents, p)
  {
    var moves := Toward(xs, p);
    MovesKeepForest(parents, moves);
    var carried := Carried(parents, moves);
    var first := FirstMoved(Path(parents, p), moves);
    hide Path, FirstMoved, Moved;
    if first.Some? {
      SelfLink(carried, first.value);
    } else {
      assert carried == map[];
      assert RankedBy(carried, map[]);
    }
  }

  /** A way up that meets no moved node stays as it is. */
  lemma {:induction false} UnmovedPath(parents: map<Id, Id>, moves: map<Id, Id>, n: Id)
    requires IsForest(parents) && moves.Keys <= parents.Keys && IsForest(Moved(parents, moves))
    requires forall a <- Path(parents, n) :: a !in moves
    ensures Path(Moved(parents, moves), n) == Path(parents, n)
    decreases |Path(parents, n)|
  {
    PathUnfold(parents, n);
    PathUnfold(Moved(parents, moves), n);
    if n in parents {
      UnmovedPath(parents, moves, parents[n]);
    }
  }
}
