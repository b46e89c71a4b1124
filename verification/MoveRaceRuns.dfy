/** Runs of MoveRaces in which the scopes the code takes are not enough: two moves that carry each other's target
    along, and a delete beside a move into the deleted folder. */
module MoveRaceRuns {
  import opened Forest
  import opened ManyMoves
  import opened MoveRaces
  import opened Wrappers

  ghost predicate IsRunTo(d: Discipline, ws: seq<World>, actions: seq<Action>, start: map<Id, Id>, w: World) {
    IsRun(d, ws, actions) && ws[0] == World(start, map[]) && ws[|ws| - 1] == w
  }

  /** Some run from the tree `start`, with nobody at work, leads to w. */
  ghost predicate Reachable(d: Discipline, start: map<Id, Id>, w: World) {
    exists ws: seq<World>, actions: seq<Action> :: IsRunTo(d, ws, actions, start, w)
  }

  predicate Step(d: Discipline, w: World, a: Action, w': World) {
    Enabled(d, w, a) && Apply(d, w, a) == w'
  }

  lemma RunFurther(d: Discipline, ws: seq<World>, actions: seq<Action>, start: map<Id, Id>, w: World, a: Action,
        w': World)
    requires IsRunTo(d, ws, actions, start, w) && Step(d, w, a, w')
    ensures IsRunTo(d, ws + [w'], actions + [a], start, w')
  {
    hide Enabled, Apply;
  }

  lemma Go(d: Discipline, start: map<Id, Id>, w: World, a: Action, w': World)
    requires Reachable(d, start, w) && Step(d, w, a, w')
    ensures Reachable(d, start, w')
  {
    hide IsRunTo, Step;
    var ws: seq<World>, actions: seq<Action> :| IsRunTo(d, ws, actions, start, w);
    RunFurther(d, ws, actions, start, w, a, w');
  }

  lemma Started(d: Discipline, start: map<Id, Id>)
    ensures Reachable(d, start, World(start, map[]))
  {
    assert IsRunTo(d, [World(start, map[])], [], start, World(start, map[]));
  }

  function Held(d: Discipline, from: Id, to: Id): set<Scope> {
    if d == ParentScopes then {At(from), At(to)} else {}
  }

  /** A move of one node, at some point of its course. */
  function One(d: Discipline, x: Id, from: Id, to: Id, stage: Stage, done: nat): Tx {
    Move(to, [x], done, stage, if stage.Checking? || stage.Writing? || done > 0 then Held(d, from, to) else {})
  }

  function Two(parents: map<Id, Id>, a: Tx, b: Tx): World {
    World(parents, map[0 := a, 1 := b])
  }

  lemma NothingSeen(parents: map<Id, Id>, p: Id)
    ensures Under(parents, [], p) == parents
  {
  }

  lemma OneUnder(parents: map<Id, Id>, x: Id, p: Id)
    requires x in parents
    ensures Under(parents, [x], p) == parents[x := p]
  {
  }

  // ----- a move of one node beside another transaction -----

  lemma MoveBegins(d: Discipline, parents: map<Id, Id>, x: Id, from: Id, to: Id, first: Tx)
    ensures Step(d, World(parents, map[0 := first]), BeginMove(1, to, [x]),
            Two(parents, first, One(d, x, from, to, Reading, 0)))
  {
    assert map[0 := first][1 := One(d, x, from, to, Reading, 0)] ==
        map[0 := first, 1 := One(d, x, from, to, Reading, 0)];
  }

  /** The transaction after this step, in its place. */
  lemma Replaced(parents: map<Id, Id>, a: Tx, b: Tx, a': Tx)
    ensures Set(Two(parents, a, b), 0, a') == Two(parents, a', b)
            && Set(Two(parents, a, b), 1, a') == Two(parents, a, a')
  {
  }

  predicate Apart(d: Discipline, other: Tx, from: Id, to: Id) {
    other.held !! Held(d, from, to)
  }

  predicate NotWritten(other: Tx, x: Id) {
    other.Move? && other.done <= |other.items| ==> x !in other.items[..other.done]
  }

  function Place(parents: map<Id, Id>, t: TxId, mine: Tx, other: Tx): World {
    if t == 0 then Two(parents, mine, other) else Two(parents, other, mine)
  }

  lemma ReadStep(d: Discipline, parents: map<Id, Id>, t: TxId, x: Id, from: Id, to: Id, other: Tx)
    requires t < 2 && x in parents && parents[x] == from
    ensures Step(d, Place(parents, t, One(d, x, from, to, Reading, 0), other), Read(t),
            Place(parents, t, One(d, x, from, to, Locking(from), 0), other))
  {
    var mine := One(d, x, from, to, Reading, 0);
    assert mine.items[..0] == [];
    NothingSeen(parents, to);
    Replaced(parents, mine, other, One(d, x, from, to, Locking(from), 0));
    Replaced(parents, other, mine, One(d, x, from, to, Locking(from), 0));
    hide Under;
  }

  lemma LockStep(d: Discipline, parents: map<Id, Id>, t: TxId, x: Id, from: Id, to: Id, other: Tx)
    requires t < 2 && d != SharedScope && Apart(d, other, from, to)
    ensures Step(d, Place(parents, t, One(d, x, from, to, Locking(from), 0), other), Lock(t),
            Place(parents, t, One(d, x, from, to, Checking, 0), other))
  {
    var mine := One(d, x, from, to, Locking(from), 0);
    Replaced(parents, mine, other, One(d, x, from, to, Checking, 0));
    Replaced(parents, other, mine, One(d, x, from, to, Checking, 0));
    assert Needed(d, mine) == Held(d, from, to);
  }

  lemma CheckStep(d: Discipline, parents: map<Id, Id>, t: TxId, x: Id, from: Id, to: Id, other: Tx)
    requires t < 2 && MayHang(parents, x, to)
    ensures Step(d, Place(parents, t, One(d, x, from, to, Checking, 0), other), Check(t),
            Place(parents, t, One(d, x, from, to, Writing, 0), other))
  {
    var mine := One(d, x, from, to, Checking, 0);
    assert mine.items[..0] == [];
    NothingSeen(parents, to);
    Replaced(parents, mine, other, One(d, x, from, to, Writing, 0));
    Replaced(parents, other, mine, One(d, x, from, to, Writing, 0));
    hide Under, MayHang;
  }

  lemma WriteStep(d: Discipline, parents: map<Id, Id>, t: TxId, x: Id, from: Id, to: Id, other: Tx)
    requires t < 2 && x in parents && NotWritten(other, x)
    ensures Step(d, Place(parents, t, One(d, x, from, to, Writing, 0), other), Write(t),
            Place(parents, t, One(d, x, from, to, Reading, 1), other))
  {
    var mine := One(d, x, from, to, Writing, 0);
    Replaced(parents, mine, other, One(d, x, from, to, Reading, 1));
    Replaced(parents, other, mine, One(d, x, from, to, Reading, 1));
  }

  /** Transaction 0 commits beside transaction 1, which then commits alone. */
  lemma CommitSteps(d: Discipline, parents: map<Id, Id>, x: Id, from: Id, to: Id, first: Tx, parents1: map<Id, Id>)
    requires x in parents1
    requires if first.Move? then
               && first.done == |first.items| && (forall y <- first.items :: y in parents)
               && parents1 == Under(parents, first.items, first.parent)
             else
               && first.Delete? && first.found.Some? && x !in first.found.value
               && parents1 == parents - first.found.value
    ensures Step(d, Two(parents, first, One(d, x, from, to, Reading, 1)), Commit(0),
            World(parents1, map[1 := One(d, x, from, to, Reading, 1)]))
    ensures Step(d, World(parents1, map[1 := One(d, x, from, to, Reading, 1)]), Commit(1),
            World(parents1[x := to], map[]))
  {
    var mine := One(d, x, from, to, Reading, 1);
    assert mine.items[..1] == [x];
    OneUnder(parents1, x, to);
    assert map[0 := first, 1 := mine] - {0} == map[1 := mine];
    assert map[1 := mine] - {1} == map[];
    hide Under;
  }

  /** From its begin to its write, a move of one node beside a transaction that holds none of its scopes. */
  lemma MovesUpToWrite(d: Discipline, start: map<Id, Id>, parents: map<Id, Id>, t: TxId, x: Id, from: Id, to: Id,
        other: Tx)
    requires t < 2 && d != SharedScope && Apart(d, other, from, to) && NotWritten(other, x)
    requires x in parents && parents[x] == from && MayHang(parents, x, to)
    requires Reachable(d, start, Place(parents, t, One(d, x, from, to, Reading, 0), other))
    ensures Reachable(d, start, Place(parents, t, One(d, x, from, to, Writing, 0), other))
    ensures Reachable(d, start, Place(parents, t, One(d, x, from, to, Reading, 1), other))
  {
    ReadStep(d, parents, t, x, from, to, other);
    LockStep(d, parents, t, x, from, to, other);
    CheckStep(d, parents, t, x, from, to, other);
    WriteStep(d, parents, t, x, from, to, other);
    hide Step, Reachable, Place, One, MayHang;
    Go(d, start, Place(parents, t, One(d, x, from, to, Reading, 0), other), Read(t),
        Place(parents, t, One(d, x, from, to, Locking(from), 0), other));
    Go(d, start, Place(parents, t, One(d, x, from, to, Locking(from), 0), other), Lock(t),
        Place(parents, t, One(d, x, from, to, Checking, 0), other));
    Go(d, start, Place(parents, t, One(d, x, from, to, Checking, 0), other), Check(t),
        Place(parents, t, One(d, x, from, to, Writing, 0), other));
    Go(d, start, Place(parents, t, One(d, x, from, to, Writing, 0), other), Write(t),
        Place(parents, t, One(d, x, from, to, Reading, 1), other));
  }

  // ----- two moves -----

  /** Two moves with nothing to lock in common, each fine on its own, commit both: whatever becomes of the tree. */
  lemma TwoMovesCommit(d: Discipline, parents: map<Id, Id>, x: Id, p: Id, y: Id, q: Id)
    requires d != SharedScope && x in parents && y in parents && x != y
    requires MayHang(parents, x, p) && MayHang(parents, y, q)
    requires d == NoScopes || {parents[x], p} !! {parents[y], q}
    ensures Reachable(d, parents, World(parents[x := p][y := q], map[]))
  {
    var (f, g) := (parents[x], parents[y]);
    Started(d, parents);
    var a := One(d, x, f, p, Reading, 0);
    assert Step(d, World(parents, map[]), BeginMove(0, p, [x]), World(parents, map[0 := a]));
    MoveBegins(d, parents, y, g, q, a);
    assert Apart(d, One(d, y, g, q, Reading, 0), f, p) && NotWritten(One(d, y, g, q, Reading, 0), x);
    assert Apart(d, One(d, x, f, p, Reading, 1), g, q) && NotWritten(One(d, x, f, p, Reading, 1), y);
    CommitSteps(d, parents, y, g, q, One(d, x, f, p, Reading, 1), parents[x := p]) by { OneUnder(parents, x, p); }
    var b := One(d, y, g, q, Reading, 1);
    assert Place(parents, 0, a, One(d, y, g, q, Reading, 0)) == Two(parents, a, One(d, y, g, q, Reading, 0));
    assert Place(parents, 0, One(d, x, f, p, Reading, 1), One(d, y, g, q, Reading, 0)) ==
        Place(parents, 1, One(d, y, g, q, Reading, 0), One(d, x, f, p, Reading, 1));
    assert Place(parents, 1, b, One(d, x, f, p, Reading, 1)) == Two(parents, One(d, x, f, p, Reading, 1), b);
    hide Step, Reachable, MayHang, Apart, NotWritten, One, Place, Two;
    Go(d, parents, World(parents, map[]), BeginMove(0, p, [x]), World(parents, map[0 := a]));
    Go(d, parents, World(parents, map[0 := a]), BeginMove(1, q, [y]), Two(parents, a, One(d, y, g, q, Reading, 0)));
    MovesUpToWrite(d, parents, parents, 0, x, f, p, One(d, y, g, q, Reading, 0));
    MovesUpToWrite(d, parents, parents, 1, y, g, q, One(d, x, f, p, Reading, 1));
    Go(d, parents, Two(parents, One(d, x, f, p, Reading, 1), b), Commit(0), World(parents[x := p], map[1 := b]));
    Go(d, parents, World(parents[x := p], map[1 := b]), Commit(1), World(parents[x := p][y := q], map[]));
  }

  const FIVE: map<Id, Id> := map[1 := 0, 2 := 1, 3 := 1, 4 := 2, 5 := 3]

  lemma FiveIsForest()
    ensures Good(FIVE) && FIVE[4] == 2 && FIVE[5] == 3
  {
    assert RankedBy(FIVE, map[1 := 0, 2 := 1, 3 := 1, 4 := 2, 5 := 2]);
  }

  lemma FiveUp()
    ensures Path(FIVE, 2) == [2, 1] && Path(FIVE, 3) == [3, 1]
  {
    FiveIsForest();
    PathUnfold(FIVE, 2);
    PathUnfold(FIVE, 3);
    PathUnfold(FIVE, 1);
    PathUnfold(FIVE, 0);
    hide Path, IsForest;
  }

  lemma FiveIsGood()
    ensures Good(FIVE) && Path(FIVE, 4) == [4, 2, 1] && Path(FIVE, 5) == [5, 3, 1]
  {
    FiveIsForest();
    FiveUp();
    PathUnfold(FIVE, 4);
    PathUnfold(FIVE, 5);
    hide Path, IsForest, Anchored;
  }

  /** Rows 1, 2 and 3 under it, 4 under 2 and 5 under 3: with the scopes of the code, moving 4 under 5 beside moving
      5 under 4 goes through and leaves a cycle. */
  lemma CycleRun(d: Discipline)
    requires d != SharedScope
    ensures Good(FIVE) && MayHang(FIVE, 4, 5) && MayHang(FIVE, 5, 4)
    ensures Reachable(d, FIVE, World(FIVE[4 := 5][5 := 4], map[])) && !IsForest(FIVE[4 := 5][5 := 4])
  {
    FiveIsGood();
    assert MayHang(FIVE, 4, 5) && MayHang(FIVE, 5, 4);
    FiveIsForest();
    hide Path, IsForest, Anchored;
    TwoMovesCommit(d, FIVE, 4, 5, 5, 4);
    TwoMoves(FIVE, 4, 5, 5, 4);
  }

  /** Two moves of different nodes, each of which could go through alone, and which lock nothing in common: some run
      commits both, and it leaves a cycle exactly when each carries the other's target. */
  lemma DisjointScopesDecide(d: Discipline, parents: map<Id, Id>, x: Id, p: Id, y: Id, q: Id)
    requires d != SharedScope && Good(parents) && x in parents && y in parents && x != y
    requires MayHang(parents, x, p) && MayHang(parents, y, q) && (d == NoScopes || {parents[x], p} !! {parents[y], q})
    ensures Reachable(d, parents, World(parents[x := p][y := q], map[]))
    ensures IsForest(parents[x := p][y := q]) <==> !(y in Path(parents, p) && x in Path(parents, q))
  {
    TwoMovesCommit(d, parents, x, p, y, q);
    TwoMoves(parents, x, p, y, q);
  }

  // ----- a delete beside a move -----

  const PAIR: map<Id, Id> := map[1 := 0, 2 := 0]

  lemma PairIsForest()
    ensures Good(PAIR) && Path(PAIR, 1) == [1] && Path(PAIR, 2) == [2]
  {
    assert RankedBy(PAIR, map[1 := 0, 2 := 0]);
    PathUnfold(PAIR, 1);
    PathUnfold(PAIR, 2);
    PathUnfold(PAIR, 0);
    hide Path, IsForest;
  }

  lemma PairIsGood()
    ensures Good(PAIR) && Subtree(PAIR, 1) == {1} && MayHang(PAIR, 2, 1)
  {
    PairIsForest();
    hide Path, Good;
    assert 1 in PAIR && 1 in Path(PAIR, 1) && 1 !in Path(PAIR, 2);
  }

  /** The delete of row 1 has listed that row. */
  const LISTED := Delete(1, Some({1}), {})

  lemma DeleteLists(d: Discipline)
    requires d != SharedScope
    ensures Reachable(d, PAIR, World(PAIR, map[0 := LISTED]))
  {
    PairIsGood();
    Started(d, PAIR);
    assert Step(d, World(PAIR, map[]), BeginDelete(0, 1), World(PAIR, map[0 := Delete(1, None, {})]));
    assert Step(d, World(PAIR, map[0 := Delete(1, None, {})]), Find(0), World(PAIR, map[0 := LISTED]))
        by { hide Subtree, Good, MayHang; }
    hide Step, Reachable;
    Go(d, PAIR, World(PAIR, map[]), BeginDelete(0, 1), World(PAIR, map[0 := Delete(1, None, {})]));
    Go(d, PAIR, World(PAIR, map[0 := Delete(1, None, {})]), Find(0), World(PAIR, map[0 := LISTED]));
  }

  lemma MoveBesideDelete(d: Discipline)
    requires d != SharedScope
    ensures Reachable(d, PAIR, Two(PAIR, LISTED, One(d, 2, 0, 1, Reading, 1)))
  {
    PairIsGood();
    DeleteLists(d);
    MoveBegins(d, PAIR, 2, 0, 1, LISTED);
    assert Place(PAIR, 1, One(d, 2, 0, 1, Reading, 0), LISTED) == Two(PAIR, LISTED, One(d, 2, 0, 1, Reading, 0));
    assert Place(PAIR, 1, One(d, 2, 0, 1, Reading, 1), LISTED) == Two(PAIR, LISTED, One(d, 2, 0, 1, Reading, 1));
    hide Step, Reachable, MayHang, Good, Subtree, One, Two, Place;
    Go(d, PAIR, World(PAIR, map[0 := LISTED]), BeginMove(1, 1, [2]), Two(PAIR, LISTED, One(d, 2, 0, 1, Reading, 0)));
    MovesUpToWrite(d, PAIR, PAIR, 1, 2, 0, 1, LISTED);
  }

  /** A delete lists folder 1, row 2 moves under it, and both commit: row 2 hangs under a deleted row. */
  lemma DanglingRun(d: Discipline)
    requires d != SharedScope
    ensures Good(PAIR) && MayHang(PAIR, 2, 1)
    ensures Reachable(d, PAIR, World(map[2 := 1], map[])) && !Anchored(map[2 := 1])
  {
    PairIsGood();
    MoveBesideDelete(d);
    assert var after: map<Id, Id> := map[2 := 1]; 2 in after && after[2] == 1 && 1 !in after;
    assert PAIR - {1} == map[2 := 0] && map[2 := 0][2 := 1] == map[2 := 1];
    CommitSteps(d, PAIR, 2, 0, 1, LISTED, map[2 := 0]);
    var moved := One(d, 2, 0, 1, Reading, 1);
    hide Step, Reachable, Good, MayHang, Subtree;
    Go(d, PAIR, Two(PAIR, LISTED, moved), Commit(0), World(map[2 := 0], map[1 := moved]));
    Go(d, PAIR, World(map[2 := 0], map[1 := moved]), Commit(1), World(map[2 := 1], map[]));
  }

  // ----- a delete beside a creation -----

  function NameScope(d: Discipline, p: Id): set<Scope> {
    if d == NoScopes then {} else {NamesAt(p)}
  }

  lemma CreationChecks(d: Discipline, other: Tx)
    requires d != SharedScope && other.held == {}
    ensures var held := NameScope(d, 1);
            && Step(d, World(PAIR, map[0 := other]), BeginCreate(1, 3, 1), Two(PAIR, other, Create(3, 1, false, {})))
            && Step(d, Two(PAIR, other, Create(3, 1, false, {})), Lock(1), Two(PAIR, other, Create(3, 1, false, held)))
            && Step(d, Two(PAIR, other, Create(3, 1, false, held)), Check(1),
               Two(PAIR, other, Create(3, 1, true, held)))
  {
    hide Path;
    Replaced(PAIR, other, Create(3, 1, false, {}), Create(3, 1, false, NameScope(d, 1)));
    Replaced(PAIR, other, Create(3, 1, false, NameScope(d, 1)), Create(3, 1, true, NameScope(d, 1)));
  }

  lemma BothEnd(d: Discipline)
    ensures var tx := Create(3, 1, true, NameScope(d, 1));
            && Step(d, Two(PAIR, LISTED, tx), Commit(0), World(map[2 := 0], map[1 := tx]))
            && Step(d, World(map[2 := 0], map[1 := tx]), Commit(1), World(map[2 := 0, 3 := 1], map[]))
  {
    hide Path;
    var tx := Create(3, 1, true, NameScope(d, 1));
    assert PAIR - {1} == map[2 := 0];
    assert Two(PAIR, LISTED, tx).txs - {0} == map[1 := tx];
    assert FreshId(map[2 := 0], 3, 1);
    assert map[1 := tx] - {1} == map[];
  }

  /** A delete lists folder 1, row 3 is created in it, and both commit: row 3 hangs under a deleted row. */
  lemma CreationDangles(d: Discipline)
    requires d != SharedScope
    ensures Good(PAIR) && Reachable(d, PAIR, World(map[2 := 0, 3 := 1], map[])) && !Anchored(map[2 := 0, 3 := 1])
  {
    PairIsGood();
    DeleteLists(d);
    CreationChecks(d, LISTED);
    BothEnd(d);
    assert var after: map<Id, Id> := map[2 := 0, 3 := 1]; 3 in after && after[3] == 1 && 1 !in after;
    var held := NameScope(d, 1);
    var tx := Create(3, 1, true, held);
    hide Step, Reachable, Good, Two, NameScope;
    Go(d, PAIR, World(PAIR, map[0 := LISTED]), BeginCreate(1, 3, 1), Two(PAIR, LISTED, Create(3, 1, false, {})));
    Go(d, PAIR, Two(PAIR, LISTED, Create(3, 1, false, {})), Lock(1), Two(PAIR, LISTED, Create(3, 1, false, held)));
    Go(d, PAIR, Two(PAIR, LISTED, Create(3, 1, false, held)), Check(1), Two(PAIR, LISTED, tx));
    Go(d, PAIR, Two(PAIR, LISTED, tx), Commit(0), World(map[2 := 0], map[1 := tx]));
    Go(d, PAIR, World(map[2 := 0], map[1 := tx]), Commit(1), World(map[2 := 0, 3 := 1], map[]));
  }

  // ----- the walk of ensureMoveTarget -----

  /** Whether the loop of ensureMoveTarget, for a move of `current`, takes another turn at this cursor. */
  predicate Goes(parents: map<Id, Id>, current: Id, cursor: Id) {
    cursor != 0 && cursor != current && cursor in parents && parents[cursor] != 0 && parents[cursor] != cursor
  }

  function CursorAfter(parents: map<Id, Id>, start: Id, turns: nat): Id {
    if turns == 0 then start
    else
      var cursor := CursorAfter(parents, start, turns - 1);
      if cursor in parents then parents[cursor] else 0
  }

  /** The walk towards the root stops some time. */
  ghost predicate WalkEnds(parents: map<Id, Id>, current: Id, target: Id) {
    exists turns: nat :: !Goes(parents, current, CursorAfter(parents, target, turns))
  }

  lemma {:induction false} CursorOfParent(parents: map<Id, Id>, n: Id, turns: nat)
    requires n in parents
    ensures CursorAfter(parents, n, turns + 1) == CursorAfter(parents, parents[n], turns)
  {
    if turns > 0 {
      CursorOfParent(parents, n, turns - 1);
    }
  }

  /** The walk follows the way up, which visits each node once, on any rows. */
  lemma {:induction false} CursorIsOnChain(parents: map<Id, Id>, n: Id, allowed: set<Id>, turns: nat)
    requires turns < |Chain(parents, n, allowed)|
    ensures CursorAfter(parents, n, turns) == Chain(parents, n, allowed)[turns]
    ensures turns + 1 < |Chain(parents, n, allowed)|
            ==> parents[Chain(parents, n, allowed)[turns]] != Chain(parents, n, allowed)[turns]
    decreases allowed
  {
    if turns > 0 {
      CursorOfParent(parents, n, turns - 1);
      CursorIsOnChain(parents, parents[n], allowed - {n}, turns - 1);
    }
  }

  /** Where it ends, the next one up is no node or has been visited. */
  lemma {:induction false} ChainCloses(parents: map<Id, Id>, n: Id, allowed: set<Id>)
    requires n in parents && n in allowed
    ensures var chain := Chain(parents, n, allowed);
            var next := parents[chain[|chain| - 1]];
            next in parents && next in allowed ==> next in chain
    decreases allowed
  {
    var p := parents[n];
    if p in parents && p in allowed - {n} {
      ChainCloses(parents, p, allowed - {n});
    }
  }

  /** Going up from a path that closes stays on it. */
  lemma {:induction false} ClosedPathTraps(parents: map<Id, Id>, target: Id, turns: nat)
    requires target in parents
    requires var path := Path(parents, target); parents[path[|path| - 1]] in path
    ensures CursorAfter(parents, target, turns) in Path(parents, target)
  {
    var path := Path(parents, target);
    if turns > 0 {
      ClosedPathTraps(parents, target, turns - 1);
      var k :| 0 <= k < |path| && path[k] == CursorAfter(parents, target, turns - 1);
      if k + 1 < |path| {
        CursorIsOnChain(parents, target, parents.Keys, k);
        CursorIsOnChain(parents, target, parents.Keys, k + 1);
        CursorStep(parents, target, k);
      }
    } else {
      assert path[0] == target;
    }
  }

  lemma CursorStep(parents: map<Id, Id>, target: Id, turns: nat)
    requires CursorAfter(parents, target, turns) in parents
    ensures CursorAfter(parents, target, turns + 1) == parents[CursorAfter(parents, target, turns)]
  {
  }

  /** The walk never ends exactly when the way up from the target closes to a cycle of several nodes without meeting
      the bookmark that is moved. */
  lemma WalkEndsExactly(parents: map<Id, Id>, current: Id, target: Id)
    requires 0 !in parents
    ensures WalkEnds(parents, current, target) <==>
            var path := Path(parents, target);
            || path == [] || current in path
            || parents[path[|path| - 1]] !in path || parents[path[|path| - 1]] == path[|path| - 1]
  {
    var path := Path(parents, target);
    if target !in parents {
      assert !Goes(parents, current, CursorAfter(parents, target, 0));
    } else if current in path {
      var k :| 0 <= k < |path| && path[k] == current;
      CursorIsOnChain(parents, target, parents.Keys, k);
      assert !Goes(parents, current, CursorAfter(parents, target, k));
    } else {
      var last := |path| - 1;
      CursorIsOnChain(parents, target, parents.Keys, last);
      ChainCloses(parents, target, parents.Keys);
      var next := parents[path[last]];
      if next !in path {
        CursorStep(parents, target, last);
        assert !Goes(parents, current, CursorAfter(parents, target, last + 1));
      } else if next == path[last] {
        assert !Goes(parents, current, CursorAfter(parents, target, last));
      } else {
        forall turns: nat ensures Goes(parents, current, CursorAfter(parents, target, turns)) {
          ClosedPathGoes(parents, current, target, turns);
        }
      }
    }
  }

  lemma ClosedPathGoes(parents: map<Id, Id>, current: Id, target: Id, turns: nat)
    requires 0 !in parents && target in parents
    requires var path := Path(parents, target);
             var next := parents[path[|path| - 1]]; next in path && next != path[|path| - 1] && current !in path
    ensures Goes(parents, current, CursorAfter(parents, target, turns))
  {
    var path := Path(parents, target);
    ClosedPathTraps(parents, target, turns);
    ClosedPathTraps(parents, target, turns + 1);
    CursorStep(parents, target, turns);
    var k :| 0 <= k < |path| && path[k] == CursorAfter(parents, target, turns);
    if k + 1 < |path| {
      CursorIsOnChain(parents, target, parents.Keys, k);
    }
  }

  lemma {:induction false} TopOfPath(parents: map<Id, Id>, n: Id)
    requires IsForest(parents) && n in parents
    ensures parents[Path(parents, n)[|Path(parents, n)| - 1]] !in parents
    decreases |Path(parents, n)|
  {
    PathUnfold(parents, n);
    if parents[n] in parents {
      TopOfPath(parents, parents[n]);
    } else {
      PathUnfold(parents, parents[n]);
    }
  }

  /** On a forest it ends within the way up of the target. */
  lemma WalkEndsOnForest(parents: map<Id, Id>, current: Id, target: Id)
    requires IsForest(parents)
    ensures exists turns: nat ::
            turns <= |Path(parents, target)| && !Goes(parents, current, CursorAfter(parents, target, turns))
    ensures WalkEnds(parents, current, target)
  {
    if target !in parents {
      assert !Goes(parents, current, CursorAfter(parents, target, 0));
    } else {
      var last := |Path(parents, target)| - 1;
      TopOfPath(parents, target);
      CursorIsOnChain(parents, target, parents.Keys, last);
      CursorStep(parents, target, last);
      assert !Goes(parents, current, CursorAfter(parents, target, last + 1));
    }
  }

  /** After CycleRun, moving row 1 under row 4 never ends. */
  lemma {:induction false} CycleTrapsWalk(turns: nat)
    ensures CursorAfter(FIVE[4 := 5][5 := 4], 4, turns) in {4, 5}
    ensures Goes(FIVE[4 := 5][5 := 4], 1, CursorAfter(FIVE[4 := 5][5 := 4], 4, turns))
  {
    if turns > 0 {
      CycleTrapsWalk(turns - 1);
    }
  }
}
