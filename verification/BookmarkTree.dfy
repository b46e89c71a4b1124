/** Browser bookmarks of one owner: rows with a parent and a sort order, and the tree shown for them. */
module BookmarkTree {
  import opened Forest
  import opened Sorting

  datatype Kind = Url | Folder

  /** A live row; parent 0 stands for NULL. */
  datatype Row = Row(id: Id, parent: Id, kind: Kind, title: string, url: string, icon: string, sortOrder: int)

  datatype Tree = Tree(row: Row, children: seq<Tree>)

  // ----- what a tree says about the rows -----

  predicate Before(a: Row, b: Row) {
    a.sortOrder < b.sortOrder || (a.sortOrder == b.sortOrder && a.id < b.id)
  }

  predicate InOrder(level: seq<Tree>) {
    forall i, j | 0 <= i < j < |level| :: Before(level[i].row, level[j].row)
  }

  /** Every level is in sort order. */
  predicate Ordered(level: seq<Tree>) {
    InOrder(level) && forall i | 0 <= i < |level| :: Ordered(level[i].children)
  }

  predicate DistinctRoots(level: seq<Tree>) {
    forall i, j | 0 <= i < j < |level| :: level[i].row.id != level[j].row.id
  }

  predicate IsRootOf(level: seq<Tree>, id: Id) {
    exists t <- level :: t.row.id == id
  }

  /** The level holds exactly the children of p, each with its own children below it. */
  ghost predicate Lists(db: map<Id, Row>, p: Id, level: seq<Tree>)
    decreases level
  {
    && ListsHere(db, p, level)
    && forall i | 0 <= i < |level| :: Lists(db, level[i].row.id, level[i].children)
  }

  ghost predicate ListsHere(db: map<Id, Row>, p: Id, level: seq<Tree>) {
    && DistinctRoots(level)
    && (forall t <- level :: t.row.id in db && db[t.row.id] == t.row && t.row.parent == p)
    && (forall id <- db | db[id].parent == p :: IsRootOf(level, id))
  }

  /** The level is what the bookmark list shows under p. */
  ghost predicate IsTree(db: map<Id, Row>, p: Id, level: seq<Tree>) {
    Lists(db, p, level) && Ordered(level)
  }

  predicate KeyedById(db: map<Id, Row>) {
    0 !in db && forall id <- db :: db[id].id == id
  }

  // ----- the tree is determined by the rows -----

  function Rows(level: seq<Tree>): (rows: seq<Row>)
    ensures |rows| == |level| && forall k | 0 <= k < |rows| :: rows[k] == level[k].row
  {
    seq(|level|, k requires 0 <= k < |level| => level[k].row)
  }

  predicate RowsInOrder(rows: seq<Row>) {
    forall i, j | 0 <= i < j < |rows| :: Before(rows[i], rows[j])
  }

  lemma TailRows(rows: seq<Row>, r: Row)
    requires RowsInOrder(rows) && rows != []
    ensures r in rows[1..] <==> r in rows && r != rows[0]
  {
    if r in rows && r != rows[0] {
      var k :| 0 <= k < |rows| && rows[k] == r;
      assert rows[1..][k - 1] == r;
    }
  }

  /** Two ordered listings of the same rows are the same. */
  lemma {:induction false} OrderedRowsAgree(a: seq<Row>, b: seq<Row>)
    requires RowsInOrder(a) && RowsInOrder(b) && forall r :: r in a <==> r in b
    ensures a == b
    decreases |a|
  {
    assert b == [] || b[0] in a;
    if a != [] {
      assert a[0] in b && b[0] in a;
      assert a[0] == b[0];
      forall r ensures r in a[1..] <==> r in b[1..] {
        TailRows(a, r);
        TailRows(b, r);
      }
      OrderedRowsAgree(a[1..], b[1..]);
      assert a == [a[0]] + a[1..] && b == [b[0]] + b[1..];
    }
  }

  lemma SameLevelRows(db: map<Id, Row>, p: Id, a: seq<Tree>, b: seq<Tree>, r: Row)
    requires ListsHere(db, p, a) && ListsHere(db, p, b) && r in Rows(a)
    ensures r in Rows(b)
  {
    var i :| 0 <= i < |a| && a[i].row == r;
    assert a[i] in a && IsRootOf(b, r.id);
    var t :| t in b && t.row.id == r.id;
    var j :| 0 <= j < |b| && b[j] == t;
    assert Rows(b)[j] == r;
  }

  /** The rows alone decide the tree, so the order in which they are read does not matter. */
  lemma {:induction false} TreeIsUnique(db: map<Id, Row>, p: Id, a: seq<Tree>, b: seq<Tree>)
    requires IsTree(db, p, a) && IsTree(db, p, b)
    ensures a == b
    decreases a
  {
    forall r ensures r in Rows(a) <==> r in Rows(b) {
      if r in Rows(a) {
        SameLevelRows(db, p, a, b, r);
      } else if r in Rows(b) {
        SameLevelRows(db, p, b, a, r);
      }
    }
    OrderedRowsAgree(Rows(a), Rows(b));
    assert |Rows(a)| == |Rows(b)|;
    forall i | 0 <= i < |a| ensures a[i] == b[i] {
      assert Rows(a)[i] == Rows(b)[i];
      TreeIsUnique(db, a[i].row.id, a[i].children, b[i].children);
    }
  }

  // ----- building it -----

  function Parents(db: map<Id, Row>): map<Id, Id> {
    map id | id in db :: db[id].parent
  }

  predicate DistinctRows(rows: seq<Row>) {
    forall i, j | 0 <= i < j < |rows| :: rows[i].id != rows[j].id
  }

  /** The rows under p, in any order. */
  ghost predicate RowsUnder(db: map<Id, Row>, p: Id, rows: seq<Row>) {
    && DistinctRows(rows)
    && forall row :: row in rows <==> row.id in db && db[row.id] == row && row.parent == p
  }

  /** The rows of the table, in any order. */
  ghost predicate IsListing(db: map<Id, Row>, rows: seq<Row>) {
    && KeyedById(db) && DistinctRows(rows)
    && forall row :: row in rows <==> row.id in db && db[row.id] == row
  }

  function Lookup(byParentId: map<Id, seq<Row>>, id: Id): seq<Row> {
    if id in byParentId then byParentId[id] else []
  }

  /** The less-or-equal of the sort. */
  predicate NotAfter(a: Row, b: Row) {
    a.sortOrder < b.sortOrder || (a.sortOrder == b.sortOrder && a.id <= b.id)
  }

  lemma SortedRows(rows: seq<Row>)
    requires DistinctRows(rows)
    ensures var sorted := Sort(NotAfter, rows);
            RowsInOrder(sorted) && DistinctRows(sorted) && forall row :: row in sorted <==> row in rows
  {
    var sorted := Sort(NotAfter, rows);
    SortSorts(NotAfter, rows);
    var key := (row: Row) => row.id as int;
    DistinctStaysDistinct(key, rows, sorted);
    forall i, j | 0 <= i < j < |sorted| ensures sorted[i].id != sorted[j].id && Before(sorted[i], sorted[j]) {
      assert key(sorted[i]) != key(sorted[j]) && NotAfter(sorted[i], sorted[j]);
    }
    assert forall row :: row in sorted <==> row in multiset(sorted);
    assert forall row :: row in rows <==> row in multiset(rows);
  }

  /** The rows of a table read so far that hang under p. */
  function Under(rows: seq<Row>, p: Id): (under: seq<Row>)
    ensures forall row :: row in under <==> row in rows && row.parent == p
  {
    if rows == [] then []
    else
      var (earlier, last) := (Under(rows[..|rows| - 1], p), rows[|rows| - 1]);
      assert forall row :: row in rows <==> row in rows[..|rows| - 1] || row == last;
      if last.parent == p then earlier + [last] else earlier
  }

  lemma {:induction false} UnderDistinct(rows: seq<Row>, p: Id)
    requires DistinctRows(rows)
    ensures DistinctRows(Under(rows, p))
  {
    if rows != [] {
      var init := rows[..|rows| - 1];
      UnderDistinct(init, p);
      forall row | row in Under(init, p) ensures row.id != rows[|rows| - 1].id {
        var k :| 0 <= k < |init| && init[k] == row;
      }
    }
  }

  lemma UnderIsUnder(db: map<Id, Row>, rows: seq<Row>, p: Id)
    requires IsListing(db, rows)
    ensures RowsUnder(db, p, Under(rows, p))
  {
    UnderDistinct(rows, p);
  }

  ghost predicate Grouped(db: map<Id, Row>, byParentId: map<Id, seq<Row>>) {
    forall p | p != 0 :: RowsUnder(db, p, Lookup(byParentId, p))
  }

  /** buildBrowserBookmarkTree: whatever order the rows come in, the result is the tree of the table. */
  method BuildBrowserBookmarkTree(rows: seq<Row>, ghost db: map<Id, Row>) returns (roots: seq<Tree>)
    requires IsListing(db, rows) && IsForest(Parents(db))
    ensures IsTree(db, 0, roots)
  {
    var byParentId: map<Id, seq<Row>> := map[];
    var top: seq<Row> := [];
    for n := 0 to |rows|
      invariant top == Under(rows[..n], 0)
      invariant forall p | p != 0 :: Lookup(byParentId, p) == Under(rows[..n], p)
    {
      assert rows[..n + 1][..n] == rows[..n];
      if rows[n].parent == 0 {
        top := top + [rows[n]];
        continue;
      }
      byParentId := byParentId[rows[n].parent := Lookup(byParentId, rows[n].parent) + [rows[n]]];
    }
    assert rows[..|rows|] == rows;
    forall p ensures RowsUnder(db, p, Under(rows, p)) {
      UnderIsUnder(db, rows, p);
    }
    assert Grouped(db, byParentId);
    roots := AttachBrowserBookmarkChildren(top, byParentId, db, 0);
  }

  /** attachBrowserBookmarkChildren on the rows under p. */
  method AttachBrowserBookmarkChildren(items: seq<Row>, byParentId: map<Id, seq<Row>>, ghost db: map<Id, Row>,
        ghost p: Id)
    returns (level: seq<Tree>)
    requires KeyedById(db) && IsForest(Parents(db)) && RowsUnder(db, p, items) && Grouped(db, byParentId)
    requires p == 0 || p in db
    ensures IsTree(db, p, level)
    decreases |db| - |Path(Parents(db), p)|, 1
  {
    hide IsTree, KeyedById, IsForest, Grouped, Path, Parents, RowsInOrder;
    var sorted := Sort(NotAfter, items);
    SortedRows(items);
    level := [];
    for n := 0 to |sorted|
      invariant Rows(level) == sorted[..n]
      invariant forall k | 0 <= k < n :: IsTree(db, sorted[k].id, level[k].children)
    {
      assert sorted[n] in items;
      var below := AttachBelow(sorted[n], byParentId, db, p);
      assert Rows(level + [Tree(sorted[n], below)]) == sorted[..n + 1];
      level := level + [Tree(sorted[n], below)];
    }
    assert Rows(level) == sorted;
    LevelIsTree(db, p, items, sorted, level);
  }

  /** One turn of the loop: the children of a row, when it has any. */
  method AttachBelow(row: Row, byParentId: map<Id, seq<Row>>, ghost db: map<Id, Row>, ghost p: Id)
        returns (below: seq<Tree>)
    requires KeyedById(db) && IsForest(Parents(db)) && Grouped(db, byParentId)
    requires row.id in db && db[row.id] == row && row.parent == p
    ensures IsTree(db, row.id, below)
    decreases |db| - |Path(Parents(db), p)|, 0
  {
    hide IsForest, Grouped, IsTree, Path;
    var children := Lookup(byParentId, row.id);
    GroupedHere(db, byParentId, row.id);
    DeeperPath(db, p, row.id);
    if |children| == 0 {
      NoChildren(db, row.id, children);
      return [];
    }
    below := AttachBrowserBookmarkChildren(children, byParentId, db, row.id);
  }

  lemma GroupedHere(db: map<Id, Row>, byParentId: map<Id, seq<Row>>, p: Id)
    requires Grouped(db, byParentId) && p != 0
    ensures RowsUnder(db, p, Lookup(byParentId, p))
  {
  }

  lemma DeeperPath(db: map<Id, Row>, p: Id, id: Id)
    requires IsForest(Parents(db)) && id in db && db[id].parent == p
    ensures |Path(Parents(db), p)| < |Path(Parents(db), id)| <= |db|
  {
    PathUnfold(Parents(db), id);
    ChainLength(Parents(db), id, Parents(db).Keys);
    assert Parents(db).Keys == db.Keys;
    assert |db| == |db.Keys|;
  }

  lemma NoChildren(db: map<Id, Row>, p: Id, rows: seq<Row>)
    requires KeyedById(db) && RowsUnder(db, p, rows) && rows == []
    ensures IsTree(db, p, [])
  {
    assert forall id <- db :: db[id].parent == p ==> db[id] in rows;
  }

  lemma LevelIsTree(db: map<Id, Row>, p: Id, items: seq<Row>, sorted: seq<Row>, level: seq<Tree>)
    requires KeyedById(db) && RowsUnder(db, p, items) && Rows(level) == sorted
    requires RowsInOrder(sorted) && DistinctRows(sorted) && forall row :: row in sorted <==> row in items
    requires forall k | 0 <= k < |level| :: IsTree(db, sorted[k].id, level[k].children)
    ensures IsTree(db, p, level)
  {
    forall t | t in level ensures t.row in items {
      var k :| 0 <= k < |level| && level[k] == t;
      assert sorted[k] in sorted;
    }
    forall id | id in db && db[id].parent == p ensures IsRootOf(level, id) {
      assert db[id] in items;
      var k :| 0 <= k < |sorted| && sorted[k] == db[id];
      assert level[k] in level;
    }
    assert forall i | 0 <= i < |level| :: level[i].row == sorted[i];
  }
}
