/** What moving, creating and deleting bookmarks do to the tree and to the order of a level. */
module BookmarkMove {
  import opened BookmarkTree
  import opened Forest
  import opened ManyMoves
  import opened GoInt
  import opened Sorting
  import opened Wrappers

  // ----- the invariant -----

  /** A parent is NULL or a live folder. */
  predicate UnderFolder(db: map<Id, Row>, parent: Id) {
    parent == 0 || (parent in db && db[parent].kind.Folder?)
  }

  /** The bookmarks are a forest whose inner nodes are folders. */
  ghost predicate Valid(db: map<Id, Row>) {
    && KeyedById(db) && IsForest(Parents(db))
    && forall id <- db :: UnderFolder(db, db[id].parent) && IsInt32(db[id].sortOrder)
  }

  /** A url item has nothing below it, so it is above no folder: the ancestor walk may skip it. */
  lemma {:induction false} UrlIsAboveNothing(db: map<Id, Row>, x: Id, p: Id)
    requires Valid(db) && x in db && db[x].kind.Url? && p != x
    ensures x !in Path(Parents(db), p)
    decreases |Path(Parents(db), p)|
  {
    PathUnfold(Parents(db), p);
    if p in db && db[p].parent != x {
      UrlIsAboveNothing(db, x, db[p].parent);
    }
  }

  lemma AddLeafKeepsValid(db: map<Id, Row>, row: Row)
    requires Valid(db) && row.id !in db && row.id != 0 && (forall id <- db :: db[id].parent != row.id)
    requires row.parent != row.id && UnderFolder(db, row.parent) && IsInt32(row.sortOrder)
    ensures Valid(db[row.id := row])
  {
    var db' := db[row.id := row];
    AddLeafKeepsForest(Parents(db), row.id, row.parent);
    assert Parents(db') == Parents(db)[row.id := row.parent];
    hide IsForest;
    forall id | id in db' ensures UnderFolder(db', db'[id].parent) {
      assert id in db ==> UnderFolder(db, db[id].parent);
    }
  }

  /** Rows keep their kind and one of them gets a new parent that is not below it. */
  lemma RebindKeepsValid(db: map<Id, Row>, db': map<Id, Row>, x: Id, p: Id)
    requires Valid(db) && x in db && UnderFolder(db, p) && x !in Path(Parents(db), p)
    requires db'.Keys == db.Keys
    requires forall id <- db ::
             db'[id] == db[id].(parent := if id == x then p else db[id].parent, sortOrder := db'[id].sortOrder)
    requires forall id <- db :: IsInt32(db'[id].sortOrder)
    ensures Valid(db')
  {
    MoveKeepsForest(Parents(db), x, p);
    assert Parents(db') == Parents(db)[x := p];
    forall id | id in db' ensures UnderFolder(db', db'[id].parent) {
      assert UnderFolder(db, db[id].parent);
    }
  }

  /** Two moves of different bookmarks, each of which could go through alone, and of which neither sees the other:
      both together leave a forest of folders exactly unless each carries the other's target along. */
  lemma TwoMovesDecide(db: map<Id, Row>, db': map<Id, Row>, x: Id, p: Id, y: Id, q: Id)
    requires Valid(db) && x in db && y in db && x != y
    requires UnderFolder(db, p) && x !in Path(Parents(db), p) && UnderFolder(db, q) && y !in Path(Parents(db), q)
    requires db'.Keys == db.Keys
    requires forall id <- db ::
      db'[id] == db[id].(parent := if id == x then p else if id == y then q
          else db[id].parent, sortOrder := db'[id].sortOrder)
    requires forall id <- db :: IsInt32(db'[id].sortOrder)
    ensures Valid(db') <==> !(y in Path(Parents(db), p) && x in Path(Parents(db), q))
  {
    TwoMoves(Parents(db), x, p, y, q);
    assert Parents(db') == Parents(db)[x := p][y := q];
    hide Path, IsForest;
    forall id <- db' ensures UnderFolder(db', db'[id].parent) {
      assert UnderFolder(db, db[id].parent);
    }
  }

  /** Deleting a whole subtree leaves no row under a deleted one. */
  lemma DropSubtreeKeepsValid(db: map<Id, Row>, x: Id)
    requires Valid(db)
    ensures Valid(map id | id in db && x !in Path(Parents(db), id) :: db[id])
  {
    var db' := map id | id in db && x !in Path(Parents(db), id) :: db[id];
    assert IsForest(Parents(db')) by {
      hide Path;
      FewerRowsAreForest(db, db');
    }
    forall id | id in db' ensures UnderFolder(db', db'[id].parent) {
      PathUnfold(Parents(db), id);
      hide IsForest;
      assert UnderFolder(db, db[id].parent);
    }
    hide Path, IsForest, UnderFolder;
  }

  lemma FewerRowsAreForest(db: map<Id, Row>, db': map<Id, Row>)
    requires IsForest(Parents(db)) && db'.Keys <= db.Keys && forall id <- db' :: db'[id] == db[id]
    ensures IsForest(Parents(db'))
  {
    var rank :| RankedBy(Parents(db), rank);
    forall id <- Parents(db') ensures Parents(db')[id] in Parents(db') ==> rank[Parents(db')[id]] < rank[id] {
      assert Parents(db')[id] == Parents(db)[id];
    }
    assert RankedBy(Parents(db'), rank);
  }

  // ----- the order of a level -----

  predicate DistinctIds(ids: seq<Id>) {
    forall i, j | 0 <= i < j < |ids| :: ids[i] != ids[j]
  }

  /** The children of p, by sort order and then id, are exactly these. */
  ghost predicate Shows(db: map<Id, Row>, p: Id, ids: seq<Id>) {
    && (forall id <- ids :: id in db)
    && (forall i, j | 0 <= i < j < |ids| :: Before(db[ids[i]], db[ids[j]]))
    && forall id :: id in ids <==> id in db && db[id].parent == p
  }

  /** The listing of a level is determined by the rows. */
  lemma ShowsOneOrder(db: map<Id, Row>, p: Id, a: seq<Id>, b: seq<Id>)
    requires KeyedById(db) && Shows(db, p, a) && Shows(db, p, b)
    ensures a == b
  {
    var rowsA := seq(|a|, k requires 0 <= k < |a| => db[a[k]]);
    var rowsB := seq(|b|, k requires 0 <= k < |b| => db[b[k]]);
    forall r ensures r in rowsA <==> r in rowsB {
      SameShown(db, p, a, b, rowsA, rowsB, r);
      SameShown(db, p, b, a, rowsB, rowsA, r);
    }
    OrderedRowsAgree(rowsA, rowsB);
    assert |a| == |rowsA| == |rowsB| == |b|;
    forall k | 0 <= k < |a| ensures a[k] == b[k] {
      assert rowsA[k] == rowsB[k] && rowsA[k].id == a[k] && rowsB[k].id == b[k];
    }
  }

  lemma SameShown(db: map<Id, Row>, p: Id, a: seq<Id>, b: seq<Id>, rowsA: seq<Row>, rowsB: seq<Row>, r: Row)
    requires KeyedById(db) && Shows(db, p, a) && Shows(db, p, b)
    requires |rowsA| == |a| && forall k | 0 <= k < |a| :: rowsA[k] == db[a[k]]
    requires |rowsB| == |b| && forall k | 0 <= k < |b| :: rowsB[k] == db[b[k]]
    ensures r in rowsA ==> r in rowsB
  {
    if r in rowsA {
      var k :| 0 <= k < |rowsA| && rowsA[k] == r;
      assert a[k] in a && a[k] in b;
      var j :| 0 <= j < |b| && b[j] == a[k];
      assert rowsB[j] == r;
    }
  }

  /** insertBookmarkIntoSiblingOrder as a function. */
  function Inserted(id: Id, siblings: seq<Id>, before: Option<Id>, after: Option<Id>): Option<seq<Id>> {
    if before.None? && after.None? then Some(siblings + [id])
    else
      var k := if before.Some? then IndexOf(siblings, before.value) else IndexOf(siblings, after.value);
      if k == |siblings| then None
      else
        var cut := if before.Some? then k else k + 1;
        Some(siblings[..cut] + [id] + siblings[cut..])
  }

  /** The first place of x, or the length. */
  function IndexOf(s: seq<Id>, x: Id): (k: nat)
    ensures k <= |s| && (k < |s| ==> s[k] == x) && x !in s[..k]
    ensures k == |s| <==> x !in s
  {
    if s == [] || s[0] == x then 0 else IndexOf(s[1..], x) + 1
  }

  /** The node is at place k between siblings that keep their order, where it was asked to be. */
  predicate StandsAsAsked(ids: seq<Id>, k: nat, id: Id, siblings: seq<Id>, before: Option<Id>, after: Option<Id>) {
    && k < |ids| && ids[k] == id && ids[..k] + ids[k + 1..] == siblings
    && (before.Some? ==> k + 1 < |ids| && ids[k + 1] == before.value)
    && (after.Some? ==> k > 0 && ids[k - 1] == after.value)
    && (before.None? && after.None? ==> k + 1 == |ids|)
  }

  lemma InsertedStands(id: Id, siblings: seq<Id>, before: Option<Id>, after: Option<Id>) returns (k: nat)
    requires (before.None? || after.None?) && Inserted(id, siblings, before, after).Some?
    ensures StandsAsAsked(Inserted(id, siblings, before, after).value, k, id, siblings, before, after)
  {
    var ids := Inserted(id, siblings, before, after).value;
    k := if before.Some? then IndexOf(siblings, before.value)
         else if after.Some? then IndexOf(siblings, after.value) + 1 else |siblings|;
    assert ids == siblings[..k] + [id] + siblings[k..];
    assert siblings == siblings[..k] + siblings[k..];
    assert ids[..k] == siblings[..k] && ids[k + 1..] == siblings[k..];
  }

  lemma InsertKeepsDistinct(left: seq<Id>, id: Id, right: seq<Id>)
    requires DistinctIds(left + right) && id !in left + right
    ensures DistinctIds(left + [id] + right)
    ensures forall x :: x in left + [id] + right <==> x == id || x in left + right
  {
    var (ids, siblings, k) := (left + [id] + right, left + right, |left|);
    forall i, j | 0 <= i < j < |ids| ensures ids[i] != ids[j] {
      assert i != k ==> ids[i] == siblings[if i < k then i else i - 1];
      assert j != k ==> ids[j] == siblings[if j < k then j else j - 1];
    }
  }

  /** The new order holds the node and its siblings, each once. */
  lemma InsertedKeepsSiblings(id: Id, siblings: seq<Id>, before: Option<Id>, after: Option<Id>)
    requires (before.None? || after.None?) && Inserted(id, siblings, before, after).Some?
    requires id !in siblings && DistinctIds(siblings)
    ensures var ids := Inserted(id, siblings, before, after).value;
            DistinctIds(ids) && forall x :: x in ids <==> x == id || x in siblings
  {
    hide Inserted, DistinctIds;
    var ids := Inserted(id, siblings, before, after).value;
    var k := InsertedStands(id, siblings, before, after);
    assert ids == ids[..k] + [id] + ids[k + 1..];
    InsertKeepsDistinct(ids[..k], id, ids[k + 1..]);
  }

  /** buildBookmarkSortOrders, as int32 stores them. */
  function NewOrder(i: nat): int {
    Wrap32((i + 1) * 1000)
  }

  /** Numbering a level 1000, 2000, … shows it in that order exactly when the last number fits an int32. */
  lemma RenumberedShows(db: map<Id, Row>, p: Id, ids: seq<Id>)
    requires DistinctIds(ids) && forall id :: id in ids <==> id in db && db[id].parent == p
    requires forall i | 0 <= i < |ids| :: db[ids[i]].sortOrder == NewOrder(i)
    ensures Shows(db, p, ids) <==> |ids| * 1000 <= MAX_INT32
  {
    if |ids| * 1000 <= MAX_INT32 {
      forall i | 0 <= i < |ids| ensures NewOrder(i) == (i + 1) * 1000 {
      }
      forall i, j | 0 <= i < j < |ids| ensures Before(db[ids[i]], db[ids[j]]) {
      }
    } else {
      var k := MAX_INT32 / 1000;
      assert NewOrder(k) < 0 < NewOrder(k - 1);
      assert ids[k - 1] in ids && ids[k] in ids;
      assert !Before(db[ids[k - 1]], db[ids[k]]);
    }
  }
}
