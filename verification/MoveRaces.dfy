/** Moves, deletes and creations in one tree by transactions that interleave: the nodes of a library, or the bookmarks
    of a user. Each statement sees what is committed at its time and what its own transaction wrote. All of them look
    at the tree first and write later; what they hold in between is a matter of the lock scopes they take. */
module MoveRaces {
  import opened Forest
  import opened ManyMoves
  import opened Wrappers

  type TxId = nat

  /** The advisory locks a transaction takes. ParentScopes is what the nodes do: MoveNode locks the old and the new
      parent of each node, a creation locks its parent under a key of another kind, a delete locks nothing.
      Bookmarks lock nothing at all. SharedScope adds one lock for the whole tree, for everybody. */
  datatype Discipline = NoScopes | ParentScopes | SharedScope

  datatype Scope = Whole | At(parent: Id) | NamesAt(parent: Id)

  datatype Stage = Reading | Locking(from: Id) | Checking | Writing

  /** A batch of moves under one parent, of which the first `done` are written; the delete of a subtree, which first
      lists it; the creation of a row, which first looks for its parent. Finished transactions are gone. */
  datatype Tx =
    | Move(parent: Id, items: seq<Id>, done: nat, stage: Stage, held: set<Scope>)
    | Delete(root: Id, found: Option<set<Id>>, held: set<Scope>)
    | Create(node: Id, parent: Id, checked: bool, held: set<Scope>)

  /** The committed live rows, each with its parent, 0 for none; and the transactions under way. */
  datatype World = World(parents: map<Id, Id>, txs: map<TxId, Tx>)

  datatype Action =
    | BeginMove(t: TxId, parent: Id, items: seq<Id>)
    | BeginDelete(t: TxId, root: Id)
    | BeginCreate(t: TxId, node: Id, parent: Id)
    | Read(t: TxId)
    | Lock(t: TxId)
    | Check(t: TxId)
    | Write(t: TxId)
    | Find(t: TxId)
    | Commit(t: TxId)
    | Rollback(t: TxId)

  // ----- the tree -----

  /** A forest without rows under missing ones. */
  ghost predicate Good(parents: map<Id, Id>) {
    0 !in parents && IsForest(parents) && Anchored(parents)
  }

  predicate Anchored(parents: map<Id, Id>) {
    forall n <- parents :: parents[n] == 0 || parents[n] in parents
  }

  function Targets(parents: map<Id, Id>, items: seq<Id>, parent: Id): map<Id, Id> {
    map x | x in parents && x in items :: parent
  }

  function Under(parents: map<Id, Id>, items: seq<Id>, parent: Id): map<Id, Id> {
    Moved(parents, Targets(parents, items, parent))
  }

  /** What the transaction itself sees. */
  function Seen(w: World, tx: Tx): map<Id, Id>
    requires tx.Move? && tx.done <= |tx.items|
  {
    Under(w.parents, tx.items[..tx.done], tx.parent)
  }

  function Subtree(parents: map<Id, Id>, root: Id): set<Id> {
    set n | n in parents && root in Path(parents, n)
  }

  /** The guard of MoveNode and of ensureMoveTarget: the target is there and the node is not above it. */
  predicate MayHang(parents: map<Id, Id>, x: Id, parent: Id) {
    (parent == 0 || parent in parents) && x !in Path(parents, parent)
  }

  // ----- the steps -----

  function Needed(d: Discipline, tx: Tx): set<Scope>
    requires tx.Move? ==> tx.stage.Locking?
  {
    (if d == SharedScope then {Whole} else {}) +
    if d == NoScopes || tx.Delete? then {} else if tx.Move? then {At(tx.stage.from), At(tx.parent)}
        else {NamesAt(tx.parent)}
  }

  predicate IsMove(w: World, t: TxId) {
    t in w.txs && w.txs[t].Move? && w.txs[t].done <= |w.txs[t].items|
  }

  predicate AtItem(w: World, t: TxId) {
    IsMove(w, t) && w.txs[t].done < |w.txs[t].items|
  }

  predicate IsDelete(w: World, t: TxId) {
    t in w.txs && w.txs[t].Delete?
  }

  predicate IsCreate(w: World, t: TxId) {
    t in w.txs && w.txs[t].Create?
  }

  /** A new id comes from a sequence: no row has it, and none hangs under it. */
  predicate FreshId(parents: map<Id, Id>, n: Id, parent: Id) {
    n != 0 && n != parent && n !in parents && forall m <- parents :: parents[m] != n
  }

  /** No other transaction has written the row. */
  predicate RowFree(w: World, t: TxId, x: Id) {
    forall s <- w.txs :: s != t && IsMove(w, s) ==> x !in w.txs[s].items[..w.txs[s].done]
  }

  predicate ScopesFree(w: World, t: TxId, scopes: set<Scope>) {
    forall s <- w.txs :: s != t ==> w.txs[s].held !! scopes
  }

  predicate Enabled(d: Discipline, w: World, a: Action) {
    match a
    case BeginMove(t, _, items) => t !in w.txs && items != []
    case BeginDelete(t, _) => t !in w.txs
    case BeginCreate(t, _, _) => t !in w.txs
    case Read(t) => AtItem(w, t) && w.txs[t].stage.Reading? && w.txs[t].items[w.txs[t].done] in Seen(w, w.txs[t])
    case Lock(t) =>
      if IsDelete(w, t) then w.txs[t].found.None? && ScopesFree(w, t, Needed(d, w.txs[t]))
      else if IsCreate(w, t) then !w.txs[t].checked && ScopesFree(w, t, Needed(d, w.txs[t]))
      else AtItem(w, t) && w.txs[t].stage.Locking? && ScopesFree(w, t, Needed(d, w.txs[t]))
    case Check(t) =>
      if IsCreate(w, t) then
        !w.txs[t].checked && Needed(d, w.txs[t]) <= w.txs[t].held
            && (w.txs[t].parent == 0 || w.txs[t].parent in w.parents)
      else
        AtItem(w, t) && w.txs[t].stage.Checking?
            && MayHang(Seen(w, w.txs[t]), w.txs[t].items[w.txs[t].done], w.txs[t].parent)
    case Write(t) =>
      && AtItem(w, t) && w.txs[t].stage.Writing?
      && w.txs[t].items[w.txs[t].done] in w.parents && RowFree(w, t, w.txs[t].items[w.txs[t].done])
    case Find(t) => IsDelete(w, t) && w.txs[t].found.None? && Needed(d, w.txs[t]) <= w.txs[t].held
    case Commit(t) =>
      if IsDelete(w, t) then w.txs[t].found.Some? && forall x <- w.txs[t].found.value :: RowFree(w, t, x)
      else if IsCreate(w, t) then w.txs[t].checked && FreshId(w.parents, w.txs[t].node, w.txs[t].parent)
      else IsMove(w, t) && w.txs[t].done == |w.txs[t].items| && forall x <- w.txs[t].items :: x in w.parents
    case Rollback(t) => t in w.txs
  }

  function Set(w: World, t: TxId, tx: Tx): World {
    w.(txs := w.txs[t := tx])
  }

  /** The rows a commit leaves. */
  function Committed(parents: map<Id, Id>, tx: Tx): map<Id, Id>
    requires tx.Delete? ==> tx.found.Some?
  {
    match tx
    case Move(parent, items, _, _, _) => Under(parents, items, parent)
    case Delete(_, found, _) => parents - found.value
    case Create(node, parent, _, _) => parents[node := parent]
  }

  function Apply(d: Discipline, w: World, a: Action): World
    requires Enabled(d, w, a)
  {
    match a
    case BeginMove(t, parent, items) => Set(w, t, Move(parent, items, 0, Reading, {}))
    case BeginDelete(t, root) => Set(w, t, Delete(root, None, {}))
    case BeginCreate(t, node, parent) => Set(w, t, Create(node, parent, false, {}))
    case Read(t) => Set(w, t, w.txs[t].(stage := Locking(Seen(w, w.txs[t])[w.txs[t].items[w.txs[t].done]])))
    case Lock(t) =>
      var tx := w.txs[t].(held := w.txs[t].held + Needed(d, w.txs[t]));
      Set(w, t, if tx.Move? then tx.(stage := Checking) else tx)
    case Check(t) => Set(w, t, if IsCreate(w, t) then w.txs[t].(checked := true) else w.txs[t].(stage := Writing))
    case Write(t) => Set(w, t, w.txs[t].(done := w.txs[t].done + 1, stage := Reading))
    case Find(t) => Set(w, t, w.txs[t].(found := Some(Subtree(w.parents, w.txs[t].root))))
    case Commit(t) => World(Committed(w.parents, w.txs[t]), w.txs - {t})
    case Rollback(t) => w.(txs := w.txs - {t})
  }

  // ----- what a commit does -----

  /** What the transaction looked at, looked at again: no moved node is the target or above it, the target is there;
      nothing that stays hangs under a deleted row; the parent of the new row is there. */
  predicate StillFits(parents: map<Id, Id>, tx: Tx)
    requires tx.Delete? ==> tx.found.Some?
  {
    match tx
    case Move(parent, items, _, _, _) => forall x <- items :: MayHang(parents, x, parent)
    case Delete(_, found, _) => forall n <- parents :: parents[n] in found.value ==> n in found.value
    case Create(_, parent, _, _) => parent == 0 || parent in parents
  }

  lemma DeleteKeepsForest(parents: map<Id, Id>, found: set<Id>)
    requires IsForest(parents)
    ensures IsForest(parents - found)
  {
    var rank :| RankedBy(parents, rank);
    assert RankedBy(parents - found, rank);
  }

  lemma MoveCommitDecides(parents: map<Id, Id>, items: seq<Id>, p: Id)
    requires Good(parents) && items != [] && forall x <- items :: x in parents
    ensures Good(Under(parents, items, p)) <==> forall x <- items :: MayHang(parents, x, p)
  {
    var xs := set x | x in items;
    assert Targets(parents, items, p) == Toward(xs, p);
    MovesToOneTarget(parents, xs, p);
    assert (forall x <- xs :: x !in Path(parents, p)) <==> forall x <- items :: x !in Path(parents, p);
    hide Path, IsForest;
    AnchoredAfterMove(parents, items, p);
    assert 0 !in Under(parents, items, p);
    hide Anchored, Under, Targets;
    assert items[0] in items;
  }

  lemma AnchoredAfterMove(parents: map<Id, Id>, items: seq<Id>, p: Id)
    requires Anchored(parents) && items != [] && forall x <- items :: x in parents
    ensures Anchored(Under(parents, items, p)) <==> p == 0 || p in parents
  {
    var after := Under(parents, items, p);
    assert items[0] in items && items[0] in parents;
    assert after.Keys == parents.Keys && after[items[0]] == p;
  }

  lemma DeleteCommitDecides(parents: map<Id, Id>, found: set<Id>)
    requires Good(parents) && 0 !in found
    ensures Good(parents - found) <==> forall n <- parents :: parents[n] in found ==> n in found
  {
    DeleteKeepsForest(parents, found);
    hide IsForest;
    var after := parents - found;
    forall n <- parents | parents[n] in found && n !in found ensures !Anchored(after) {
      assert n in after && after[n] == parents[n];
    }
  }

  lemma CreateCommitDecides(parents: map<Id, Id>, n: Id, p: Id)
    requires Good(parents) && FreshId(parents, n, p)
    ensures Good(parents[n := p]) <==> p == 0 || p in parents
  {
    AddLeafKeepsForest(parents, n, p);
    hide IsForest;
    assert parents[n := p][n] == p;
  }

  // ----- whole runs -----

  predicate IsRun(d: Discipline, ws: seq<World>, actions: seq<Action>) {
    && |ws| == |actions| + 1
    && forall i | 0 <= i < |actions| :: Enabled(d, ws[i], actions[i]) && ws[i + 1] == Apply(d, ws[i], actions[i])
  }

  /** A tree in order and nobody at work. */
  ghost predicate Initial(w: World) {
    Good(w.parents) && w.txs == map[]
  }

  /** Every commit of the run finds what its transaction looked at still true. */
  predicate EveryCommitFits(d: Discipline, ws: seq<World>, actions: seq<Action>)
    requires IsRun(d, ws, actions)
  {
    forall i | 0 <= i < |actions| && actions[i].Commit? :: CommitFits(d, ws[i], actions[i])
  }

  predicate CommitFits(d: Discipline, w: World, a: Action)
    requires Enabled(d, w, a) && a.Commit?
  {
    StillFits(w.parents, w.txs[a.t])
  }

  /** Batches are not empty and listings hold rows only. */
  predicate TxsOk(w: World) {
    forall t <- w.txs :: TxOk(w.txs[t])
  }

  predicate TxOk(tx: Tx) {
    (tx.Move? ==> tx.items != [] && tx.done <= |tx.items|) && (tx.Delete? && tx.found.Some? ==> 0 !in tx.found.value)
  }

  lemma StepKeepsTxs(d: Discipline, w: World, a: Action)
    requires Enabled(d, w, a) && TxsOk(w) && 0 !in w.parents
    ensures TxsOk(Apply(d, w, a))
  {
    hide Path, Needed, ScopesFree, RowFree, MayHang, Seen;
  }

  lemma CommitDecides(d: Discipline, w: World, a: Action)
    requires Enabled(d, w, a) && a.Commit? && TxsOk(w) && Good(w.parents)
    ensures Good(Apply(d, w, a).parents) <==> CommitFits(d, w, a)
  {
    var tx := w.txs[a.t];
    assert TxOk(tx);
    if tx.Move? {
      MoveCommitDecides(w.parents, tx.items, tx.parent);
    } else if tx.Delete? {
      DeleteCommitDecides(w.parents, tx.found.value);
    } else {
      CreateCommitDecides(w.parents, tx.node, tx.parent);
    }
    hide Good, Under, MayHang, RowFree, TxsOk;
  }

  lemma OtherStepsKeepRows(d: Discipline, w: World, a: Action)
    requires Enabled(d, w, a) && !a.Commit?
    ensures Apply(d, w, a).parents == w.parents
  {
    hide Needed, ScopesFree, RowFree, MayHang, Seen;
  }

  lemma {:induction false} TxsStayOk(d: Discipline, ws: seq<World>, actions: seq<Action>, i: nat)
    requires IsRun(d, ws, actions) && Initial(ws[0]) && i < |ws| && forall k | 0 <= k < i :: 0 !in ws[k].parents
    ensures TxsOk(ws[i])
  {
    if i > 0 {
      hide Enabled, Apply, TxsOk, IsForest;
      TxsStayOk(d, ws, actions, i - 1);
      StepKeepsTxs(d, ws[i - 1], actions[i - 1]);
    }
  }

  /** The tree is in order up to a point of the run when every commit before it fits. */
  lemma {:induction false} FitsKeepGood(d: Discipline, ws: seq<World>, actions: seq<Action>, i: nat)
    requires IsRun(d, ws, actions) && Initial(ws[0]) && i < |ws|
    requires forall k | 0 <= k < i && actions[k].Commit? :: CommitFits(d, ws[k], actions[k])
    ensures Good(ws[i].parents) && TxsOk(ws[i])
  {
    hide Enabled, Apply, Good, CommitFits;
    if i > 0 {
      FitsKeepGood(d, ws, actions, i - 1);
      assert 0 !in ws[i - 1].parents by { GoodHasNoZero(ws[i - 1].parents); }
      StepKeepsTxs(d, ws[i - 1], actions[i - 1]);
      hide TxsOk;
      if actions[i - 1].Commit? {
        CommitDecides(d, ws[i - 1], actions[i - 1]);
      } else {
        OtherStepsKeepRows(d, ws[i - 1], actions[i - 1]);
      }
    }
  }

  lemma GoodHasNoZero(parents: map<Id, Id>)
    requires Good(parents)
    ensures 0 !in parents
  {
  }

  /** Over any run of any number of moves, deletes and creations, whatever they lock: the tree is in order all the time
      exactly when every commit finds what its transaction looked at still true. */
  lemma GoodWhileCommitsFit(d: Discipline, ws: seq<World>, actions: seq<Action>)
    requires IsRun(d, ws, actions) && Initial(ws[0])
    ensures (forall i | 0 <= i < |ws| :: Good(ws[i].parents)) <==> EveryCommitFits(d, ws, actions)
  {
    hide Enabled, Apply, Good, CommitFits;
    if EveryCommitFits(d, ws, actions) {
      forall i | 0 <= i < |ws| ensures Good(ws[i].parents) {
        FitsKeepGood(d, ws, actions, i);
      }
    }
    if forall i | 0 <= i < |ws| :: Good(ws[i].parents) {
      forall k | 0 <= k < |ws| ensures 0 !in ws[k].parents { GoodHasNoZero(ws[k].parents); }
      forall i | 0 <= i < |actions| && actions[i].Commit? ensures CommitFits(d, ws[i], actions[i]) {
        TxsStayOk(d, ws, actions, i);
        hide TxsOk;
        assert Good(ws[i].parents) && Good(ws[i + 1].parents);
        CommitDecides(d, ws[i], actions[i]);
      }
    }
  }

  // ----- one transaction at a time that has looked -----

  /** It has looked at the tree and will rely on what it saw. */
  predicate Looking(tx: Tx) {
    match tx
    case Move(_, _, done, stage, _) => done > 0 || stage.Writing?
    case Delete(_, found, _) => found.Some?
    case Create(_, _, checked, _) => checked
  }

  /** What a transaction has seen still holds. */
  predicate Facts(parents: map<Id, Id>, tx: Tx) {
    match tx
    case Move(parent, items, done, stage, held) =>
      && done <= |items|
      && (forall k | 0 <= k < done :: MayHang(parents, items[k], parent))
      && (stage.Writing? ==> done < |items| && MayHang(parents, items[done], parent))
    case Delete(_, found, _) => found.Some? ==> StillFits(parents, tx)
    case Create(_, _, checked, _) => checked ==> StillFits(parents, tx)
  }

  predicate OneLooking(w: World) {
    forall s <- w.txs, t <- w.txs :: Looking(w.txs[s]) && Looking(w.txs[t]) ==> s == t
  }

  predicate FactsOk(w: World) {
    forall t <- w.txs :: Facts(w.parents, w.txs[t])
  }

  ghost predicate Inv(w: World) {
    Good(w.parents) && TxsOk(w) && FactsOk(w)
  }

  lemma SeenPath(parents: map<Id, Id>, items: seq<Id>, p: Id)
    requires IsForest(parents) && forall x <- items :: x !in Path(parents, p)
    ensures Path(Under(parents, items, p), p) == Path(parents, p)
  {
    var xs := set x | x in items && x in parents;
    assert Targets(parents, items, p) == Toward(xs, p);
    MovesToOneTarget(parents, xs, p);
    UnmovedPath(parents, Toward(xs, p), p);
  }

  lemma SubtreeIsClosed(parents: map<Id, Id>, root: Id)
    requires IsForest(parents)
    ensures forall n <- parents :: parents[n] in Subtree(parents, root) ==> n in Subtree(parents, root)
  {
    forall n <- parents | parents[n] in Subtree(parents, root) ensures n in Subtree(parents, root) {
      PathUnfold(parents, n);
    }
  }

  /** A step of transaction t that leaves the rows alone. */
  lemma WorkStep(w: World, t: TxId, tx: Tx)
    requires Inv(w) && TxOk(tx) && Facts(w.parents, tx)
    ensures Inv(Set(w, t, tx))
  {
    hide Good, TxOk, Facts;
  }

  lemma CheckHolds(d: Discipline, w: World, t: TxId)
    requires Inv(w) && Enabled(d, w, Check(t)) && !IsCreate(w, t)
    ensures MayHang(w.parents, w.txs[t].items[w.txs[t].done], w.txs[t].parent)
  {
    var tx := w.txs[t];
    assert Facts(w.parents, tx);
    SeenPath(w.parents, tx.items[..tx.done], tx.parent);
    hide Path, IsForest;
  }

  lemma FactsAt(w: World, t: TxId)
    requires Inv(w) && t in w.txs
    ensures Facts(w.parents, w.txs[t]) && TxOk(w.txs[t])
  {
    hide Good, Facts, TxOk;
  }

  /** The steps of a transaction before its commit. */
  lemma WorkKeepsInv(d: Discipline, w: World, a: Action)
    requires Inv(w) && Enabled(d, w, a) && (a.Read? || a.Lock? || a.Check? || a.Write? || a.Find?)
    ensures Inv(Apply(d, w, a))
  {
    FactsAt(w, a.t);
    if a.Check? && !IsCreate(w, a.t) {
      CheckHolds(d, w, a.t);
    }
    if a.Find? {
      SubtreeIsClosed(w.parents, w.txs[a.t].root);
    }
    assert 0 !in w.parents;
    hide Inv, Seen, MayHang, Path, IsForest, RowFree, ScopesFree, Needed;
    WorkStep(w, a.t, Apply(d, w, a).txs[a.t]);
  }

  lemma BeginKeepsInv(d: Discipline, w: World, a: Action)
    requires Inv(w) && Enabled(d, w, a) && (a.BeginMove? || a.BeginDelete? || a.BeginCreate?)
    ensures Inv(Apply(d, w, a))
  {
    hide Inv;
    WorkStep(w, a.t, Apply(d, w, a).txs[a.t]);
  }

  lemma RollbackKeepsInv(w: World, t: TxId)
    requires Inv(w) && t in w.txs
    ensures Inv(w.(txs := w.txs - {t}))
  {
    hide Good, TxOk, Facts;
  }

  lemma LookerCommits(d: Discipline, w: World, t: TxId)
    requires Inv(w) && Enabled(d, w, Commit(t))
    ensures t in w.txs && Looking(w.txs[t]) && CommitFits(d, w, Commit(t))
  {
    FactsAt(w, t);
    hide Good, MayHang, RowFree;
    if w.txs[t].Move? {
      forall x <- w.txs[t].items ensures MayHang(w.parents, x, w.txs[t].parent) {
        var k :| 0 <= k < |w.txs[t].items| && w.txs[t].items[k] == x;
      }
    }
  }

  /** Who has not looked yet has seen nothing that could have changed. */
  lemma OthersStayOk(w: World, t: TxId, parents': map<Id, Id>)
    requires Inv(w) && OneLooking(w) && t in w.txs && Looking(w.txs[t])
    ensures var w' := World(parents', w.txs - {t}); TxsOk(w') && FactsOk(w')
  {
    hide Good, TxOk;
    var w' := World(parents', w.txs - {t});
    forall s <- w'.txs ensures Facts(w'.parents, w'.txs[s]) {
      FactsAt(w, s);
      assert !Looking(w.txs[s]);
    }
  }

  lemma GoodCommit(d: Discipline, w: World, t: TxId)
    requires Inv(w) && Enabled(d, w, Commit(t))
    ensures t in w.txs && Looking(w.txs[t]) && Good(Apply(d, w, Commit(t)).parents)
  {
    hide Enabled, Apply, Good, FactsOk, TxsOk, CommitFits, Looking;
    LookerCommits(d, w, t);
    CommitDecides(d, w, Commit(t));
  }

  lemma CommitIs(d: Discipline, w: World, t: TxId)
    requires Enabled(d, w, Commit(t))
    ensures t in w.txs && Apply(d, w, Commit(t)) == World(Apply(d, w, Commit(t)).parents, w.txs - {t})
  {
    hide RowFree, Committed;
  }

  lemma CommitKeepsInv(d: Discipline, w: World, t: TxId)
    requires Inv(w) && OneLooking(w) && Enabled(d, w, Commit(t))
    ensures Inv(Apply(d, w, Commit(t)))
  {
    GoodCommit(d, w, t);
    CommitIs(d, w, t);
    OthersStayOk(w, t, Apply(d, w, Commit(t)).parents);
    hide Enabled, Apply, Good, TxsOk, FactsOk;
  }

  lemma StepKeepsInv(d: Discipline, w: World, a: Action)
    requires Inv(w) && OneLooking(w) && Enabled(d, w, a)
    ensures Inv(Apply(d, w, a))
  {
    if a.Commit? {
      CommitKeepsInv(d, w, a.t);
    } else if a.Rollback? {
      RollbackKeepsInv(w, a.t);
    } else if a.BeginMove? || a.BeginDelete? || a.BeginCreate? {
      BeginKeepsInv(d, w, a);
    } else {
      WorkKeepsInv(d, w, a);
    }
  }

  /** Whatever keeps two transactions from having looked at the same time keeps the tree in order. */
  lemma {:induction false} OneLookerKeepsGood(d: Discipline, ws: seq<World>, actions: seq<Action>, i: nat)
    requires IsRun(d, ws, actions) && Initial(ws[0]) && i < |ws|
    requires forall k | 0 <= k < i :: OneLooking(ws[k])
    ensures Inv(ws[i]) && Good(ws[i].parents)
  {
    if i > 0 {
      hide Enabled, Apply, Inv, OneLooking;
      OneLookerKeepsGood(d, ws, actions, i - 1);
      StepKeepsInv(d, ws[i - 1], actions[i - 1]);
    }
    hide Good, TxsOk, FactsOk;
  }

  // ----- what the locks keep apart -----

  /** A transaction past its locks holds them until it ends. */
  predicate HoldsLocks(d: Discipline, tx: Tx) {
    match tx
    case Move(parent, items, done, stage, held) =>
      done > 0 || stage.Checking? || stage.Writing? ==>
        (d == SharedScope ==> Whole in held) && (d != NoScopes ==> At(parent) in held)
    case Delete(_, found, held) => found.Some? && d == SharedScope ==> Whole in held
    case Create(_, parent, checked, held) =>
      checked ==> (d == SharedScope ==> Whole in held) && (d != NoScopes ==> NamesAt(parent) in held)
  }

  predicate HeldApart(w: World) {
    forall s <- w.txs, t <- w.txs :: s != t ==> w.txs[s].held !! w.txs[t].held
  }

  predicate LocksOk(d: Discipline, w: World) {
    HeldApart(w) && forall t <- w.txs :: HoldsLocks(d, w.txs[t])
  }

  lemma LocksAfter(d: Discipline, w: World, t: TxId, tx: Tx)
    requires LocksOk(d, w) && HoldsLocks(d, tx)
    requires ScopesFree(w, t, tx.held)
    ensures LocksOk(d, Set(w, t, tx))
  {
    hide HoldsLocks;
  }

  lemma OwnScopesFree(d: Discipline, w: World, t: TxId)
    requires LocksOk(d, w) && t in w.txs
    ensures ScopesFree(w, t, w.txs[t].held) && HoldsLocks(d, w.txs[t])
  {
    hide HoldsLocks;
  }

  lemma LocksStay(d: Discipline, w: World, a: Action)
    requires LocksOk(d, w) && Enabled(d, w, a)
    ensures LocksOk(d, Apply(d, w, a))
  {
    if a.Commit? || a.Rollback? {
      hide HoldsLocks, Committed, RowFree, FreshId;
    } else if a.BeginMove? || a.BeginDelete? || a.BeginCreate? {
      hide LocksOk;
      LocksAfter(d, w, a.t, Apply(d, w, a).txs[a.t]);
    } else {
      OwnScopesFree(d, w, a.t);
      hide LocksOk, Seen, MayHang, RowFree, Subtree;
      LocksAfter(d, w, a.t, Apply(d, w, a).txs[a.t]);
    }
  }

  lemma {:induction false} LocksAlways(d: Discipline, ws: seq<World>, actions: seq<Action>, i: nat)
    requires IsRun(d, ws, actions) && Initial(ws[0]) && i < |ws|
    ensures LocksOk(d, ws[i])
  {
    hide Good, HoldsLocks;
    if i > 0 {
      hide Enabled, Apply, LocksOk;
      LocksAlways(d, ws, actions, i - 1);
      LocksStay(d, ws[i - 1], actions[i - 1]);
    }
  }

  lemma SharedIsOneLooking(w: World)
    requires LocksOk(SharedScope, w)
    ensures OneLooking(w)
  {
    forall s <- w.txs, t <- w.txs | Looking(w.txs[s]) && Looking(w.txs[t]) ensures s == t {
      assert HoldsLocks(SharedScope, w.txs[s]) && HoldsLocks(SharedScope, w.txs[t]);
      assert Whole in w.txs[s].held && Whole in w.txs[t].held;
    }
  }

  /** With one lock for the whole tree, taken by everybody before they look, every state of every run is a forest
      without rows under missing ones. */
  lemma SharedScopeKeepsGood(ws: seq<World>, actions: seq<Action>, i: nat)
    requires IsRun(SharedScope, ws, actions) && Initial(ws[0]) && i < |ws|
    ensures Inv(ws[i]) && Good(ws[i].parents)
  {
    hide Initial, Inv, Good, OneLooking, LocksOk;
    forall k | 0 <= k < i ensures OneLooking(ws[k]) {
      LocksAlways(SharedScope, ws, actions, k);
      SharedIsOneLooking(ws[k]);
    }
    OneLookerKeepsGood(SharedScope, ws, actions, i);
  }

  // ----- what the locks on the parents keep apart -----

  /** Nothing but moves, all of them under this parent. */
  predicate AllToward(w: World, p: Id) {
    forall t <- w.txs :: w.txs[t].Move? && w.txs[t].parent == p
  }

  lemma OneTargetIsOneLooking(w: World, p: Id)
    requires LocksOk(ParentScopes, w) && AllToward(w, p)
    ensures OneLooking(w)
  {
    forall s <- w.txs, t <- w.txs | Looking(w.txs[s]) && Looking(w.txs[t]) ensures s == t {
      assert HoldsLocks(ParentScopes, w.txs[s]) && HoldsLocks(ParentScopes, w.txs[t]);
      assert At(p) in w.txs[s].held && At(p) in w.txs[t].held;
    }
  }

  /** Batches of any size with one and the same target are kept apart by the locks of the code. */
  lemma OneTargetKeepsGood(ws: seq<World>, actions: seq<Action>, i: nat, p: Id)
    requires IsRun(ParentScopes, ws, actions) && Initial(ws[0]) && i < |ws|
    requires forall k | 0 <= k < |ws| :: AllToward(ws[k], p)
    ensures Good(ws[i].parents)
  {
    hide Initial, Inv, Good, OneLooking, LocksOk, AllToward;
    forall k | 0 <= k < i ensures OneLooking(ws[k]) {
      LocksAlways(ParentScopes, ws, actions, k);
      OneTargetIsOneLooking(ws[k], p);
    }
    OneLookerKeepsGood(ParentScopes, ws, actions, i);
  }

  /** The scopes a move of one node holds or is about to ask for, once it has read where the node hangs. */
  function Wants(tx: Tx): set<Scope>
    requires tx.Move?
  {
    if tx.stage.Locking? then {At(tx.stage.from), At(tx.parent)} else tx.held
  }

  predicate HasRead(tx: Tx) {
    tx.Move? && !(tx.stage.Reading? && tx.done == 0)
  }

  /** Nothing but moves of one node, any two of which, once they have read where their nodes hang, want a scope in
      common. */
  predicate Overlapping(w: World) {
    && (forall t <- w.txs :: w.txs[t].Move?)
    && (forall s <- w.txs, t <- w.txs | s != t && HasRead(w.txs[s]) && HasRead(w.txs[t]) ::
       Wants(w.txs[s]) * Wants(w.txs[t]) != {})
  }

  lemma OverlapIsOneLooking(w: World)
    requires LocksOk(ParentScopes, w) && Overlapping(w) && SingleMoves(w)
    ensures OneLooking(w)
  {
    forall s <- w.txs, t <- w.txs | Looking(w.txs[s]) && Looking(w.txs[t]) ensures s == t {
      assert Single(w.txs[s]) && Single(w.txs[t]);
      assert HasRead(w.txs[s]) && HasRead(w.txs[t]);
      assert Wants(w.txs[s]) == w.txs[s].held && Wants(w.txs[t]) == w.txs[t].held;
    }
  }

  /** A move of one node is done with its locks when it has written. */
  predicate Single(tx: Tx) {
    tx.Move? && |tx.items| == 1 && (tx.done > 0 ==> tx.stage.Reading?)
  }

  predicate SingleMoves(w: World) {
    forall t <- w.txs :: Single(w.txs[t])
  }

  lemma SingleStays(w: World, a: Action)
    requires SingleMoves(w) && TxsOk(w) && Enabled(ParentScopes, w, a)
    requires !a.BeginDelete? && !a.BeginCreate? && (a.BeginMove? ==> |a.items| == 1)
    ensures SingleMoves(Apply(ParentScopes, w, a))
  {
    hide Seen, MayHang, RowFree, ScopesFree, Needed, Committed;
    if !a.BeginMove? {
      assert a.t in w.txs && Single(w.txs[a.t]) && TxOk(w.txs[a.t]);
    }
  }

  predicate OnlySingleMoves(actions: seq<Action>) {
    forall a <- actions :: !a.BeginDelete? && !a.BeginCreate? && (a.BeginMove? ==> |a.items| == 1)
  }

  lemma {:induction false} OverlapKeepsInv(ws: seq<World>, actions: seq<Action>, i: nat)
    requires IsRun(ParentScopes, ws, actions) && Initial(ws[0]) && i < |ws|
    requires OnlySingleMoves(actions) && forall k | 0 <= k < |ws| :: Overlapping(ws[k])
    ensures Inv(ws[i]) && SingleMoves(ws[i])
  {
    hide Initial, Enabled, Apply, Inv, Overlapping, LocksOk, OneLooking, SingleMoves;
    if i == 0 {
      NobodyAtWork(ws[0]);
    } else {
      OverlapKeepsInv(ws, actions, i - 1);
      LocksAlways(ParentScopes, ws, actions, i - 1);
      OverlapIsOneLooking(ws[i - 1]);
      StepKeepsInv(ParentScopes, ws[i - 1], actions[i - 1]);
      InvHasTxs(ws[i - 1]);
      assert actions[i - 1] in actions;
      SingleStays(ws[i - 1], actions[i - 1]);
    }
  }

  lemma NobodyAtWork(w: World)
    requires Initial(w)
    ensures Inv(w) && SingleMoves(w)
  {
  }

  lemma InvHasTxs(w: World)
    requires Inv(w)
    ensures TxsOk(w) && Good(w.parents)
  {
  }

  /** The other half of what locks on the parents do: single moves that want a scope in common never leave a cycle. */
  lemma OverlapKeepsGood(ws: seq<World>, actions: seq<Action>, i: nat)
    requires IsRun(ParentScopes, ws, actions) && Initial(ws[0]) && i < |ws|
    requires OnlySingleMoves(actions) && forall k | 0 <= k < |ws| :: Overlapping(ws[k])
    ensures Good(ws[i].parents)
  {
    hide Initial, Inv, Overlapping, Good;
    OverlapKeepsInv(ws, actions, i);
    InvHasTxs(ws[i]);
  }
}
