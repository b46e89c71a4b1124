/** Importing a forest of bookmarks: which rows it creates and what the tree shows afterwards. */
module BookmarkImport {
  import opened BookmarkTree
  import opened Forest
  import opened GoInt

  /** A normalized item of an import. */
  datatype Item = Item(kind: Kind, title: string, url: string, icon: string, children: seq<Item>)

  const SORT_ORDER_STEP := 1000

  // ----- shapes and sizes -----

  /** What a tree looks like without ids and sort orders. */
  function Shape(t: Tree): Item
    decreases t
  {
    Item(t.row.kind, t.row.title, t.row.url, t.row.icon, Shapes(t.children))
  }

  function Shapes(level: seq<Tree>): (items: seq<Item>)
    ensures |items| == |level| && forall i | 0 <= i < |level| :: items[i] == Shape(level[i])
    decreases level
  {
    if level == [] then [] else Shapes(level[..|level| - 1]) + [Shape(level[|level| - 1])]
  }

  /** The number of items at all depths. */
  function Count(items: seq<Item>): nat
    decreases items
  {
    if items == [] then 0 else Count(items[..|items| - 1]) + 1 + Count(items[|items| - 1].children)
  }

  ghost function TreeIds(level: seq<Tree>): set<Id>
    decreases level
  {
    if level == [] then {}
    else
      var last := level[|level| - 1];
      TreeIds(level[..|level| - 1]) + {last.row.id} + TreeIds(last.children)
  }

  lemma {:induction false} TreeIdsOfPart(level: seq<Tree>, i: nat)
    requires i < |level|
    ensures level[i].row.id in TreeIds(level) && TreeIds(level[i].children) <= TreeIds(level)
    decreases |level|
  {
    if i < |level| - 1 {
      TreeIdsOfPart(level[..|level| - 1], i);
    }
  }

  // ----- the rows an import adds -----

  /** NextSortOrder: 1000 for an empty level, else 1000 past its largest sort order. */
  ghost predicate IsNextOrder(db: map<Id, Row>, p: Id, next: int) {
    && (forall id <- db | db[id].parent == p :: db[id].sortOrder + SORT_ORDER_STEP <= next)
    && if exists id <- db :: db[id].parent == p
       then exists id <- db :: db[id].parent == p && db[id].sortOrder + SORT_ORDER_STEP == next
       else next == SORT_ORDER_STEP
  }

  /** The tables differ by rows with new ids that hang under p or under each other. */
  ghost predicate Grows(db: map<Id, Row>, db': map<Id, Row>, p: Id, added: set<Id>) {
    && KeyedById(db') && db'.Keys == db.Keys + added && db.Keys !! added
    && (forall id <- db :: db'[id] == db[id])
    && (forall id <- added :: db'[id].parent == p || db'[id].parent in added)
    && (forall id <- db :: db[id].parent !in added)
    && p !in added
  }

  /** A new level of a folder whose sort orders start at `next`. */
  ghost predicate NewLevel(db: map<Id, Row>, db': map<Id, Row>, p: Id, next: int, items: seq<Item>, news: seq<Tree>) {
    && Shapes(news) == items && DistinctRoots(news)
    && (forall i | 0 <= i < |news| :: IsNew(db, db', p, next, items, news, i))
    && (forall id <- db' | id !in db && db'[id].parent == p :: IsRootOf(news, id))
  }

  ghost predicate IsNew(db: map<Id, Row>, db': map<Id, Row>, p: Id, next: int, items: seq<Item>, news: seq<Tree>,
        i: nat)
    requires i < |news| == |items|
  {
    var t := news[i];
    && t.row.id in db' && t.row.id !in db && db'[t.row.id] == t.row && t.row.parent == p
    && t.row.sortOrder == Wrap32(next + SORT_ORDER_STEP * i)
    && Lists(db', t.row.id, t.children)
    && (Ordered(t.children) <==> FitsBelow(items[i].children))
  }

  ghost predicate Imported(db: map<Id, Row>, db': map<Id, Row>, p: Id, next: int, items: seq<Item>, news: seq<Tree>) {
    Grows(db, db', p, TreeIds(news)) && NewLevel(db, db', p, next, items, news)
  }

  /** Sort orders of the level stay within int32. */
  predicate LevelFits(next: int, n: nat) {
    n == 0 || next + SORT_ORDER_STEP * (n - 1) <= MAX_INT32
  }

  /** No level of an imported folder runs out of sort orders. */
  predicate FitsBelow(items: seq<Item>)
    decreases items
  {
    LevelFits(SORT_ORDER_STEP, |items|) && forall i | 0 <= i < |items| :: FitsBelow(items[i].children)
  }

  /** What a caller could check before an import into the top level. */
  predicate Fits(next: int, items: seq<Item>) {
    LevelFits(next, |items|) && forall i | 0 <= i < |items| :: FitsBelow(items[i].children)
  }

  // ----- rows added elsewhere -----

  /** A subtree that none of the new rows hangs under is listed as before. */
  lemma {:induction false} ListsStays(db: map<Id, Row>, db': map<Id, Row>, q: Id, level: seq<Tree>)
    requires Lists(db, q, level) && db.Keys <= db'.Keys && forall id <- db :: db'[id] == db[id]
    requires forall id <- db' | id !in db :: db'[id].parent != q && db'[id].parent !in TreeIds(level)
    ensures Lists(db', q, level)
    decreases level
  {
    forall i | 0 <= i < |level| ensures Lists(db', level[i].row.id, level[i].children) {
      TreeIdsOfPart(level, i);
      ListsStays(db, db', level[i].row.id, level[i].children);
    }
  }

  /** The ids of a listed tree are rows. */
  lemma {:induction false} TreeIdsAreRows(db: map<Id, Row>, p: Id, level: seq<Tree>)
    requires forall i | 0 <= i < |level| :: level[i].row.id in db && Lists(db, level[i].row.id, level[i].children)
    ensures TreeIds(level) <= db.Keys
    decreases level
  {
    if level != [] {
      var last := level[|level| - 1];
      TreeIdsAreRows(db, p, level[..|level| - 1]);
      assert forall t <- last.children :: t.row.id in db;
      TreeIdsAreRows(db, last.row.id, last.children);
    }
  }

  // ----- when the sort orders work -----

  /** The last sort order of a level that starts at next; what the next new row is placed after. */
  predicate StartsAfter(existing: seq<Tree>, next: int) {
    && (forall i | 0 <= i < |existing| :: IsInt32(existing[i].row.sortOrder))
    && if existing == [] then next == SORT_ORDER_STEP
       else existing[|existing| - 1].row.sortOrder + SORT_ORDER_STEP == next
  }

  predicate HasOrders(news: seq<Tree>, next: int) {
    forall i | 0 <= i < |news| :: news[i].row.sortOrder == Wrap32(next + SORT_ORDER_STEP * i)
  }

  lemma FittingLevelIsOrdered(existing: seq<Tree>, news: seq<Tree>, next: int)
    requires InOrder(existing) && StartsAfter(existing, next) && HasOrders(news, next) && LevelFits(next, |news|)
    ensures InOrder(existing + news)
  {
    forall i | 0 <= i < |news| ensures news[i].row.sortOrder == next + SORT_ORDER_STEP * i {
    }
    var all := existing + news;
    forall i, j | 0 <= i < j < |all| ensures Before(all[i].row, all[j].row) {
      if i < |existing| <= j {
        var last := existing[|existing| - 1].row;
        assert i < |existing| - 1 ==> Before(existing[i].row, last);
      }
    }
  }

  /** The first sort order past int32 wraps to a negative one, before its predecessor. */
  lemma OverflowingLevelIsNot(existing: seq<Tree>, news: seq<Tree>, next: int, k: nat)
    requires StartsAfter(existing, next) && HasOrders(news, next) && k < |news|
    requires next + SORT_ORDER_STEP * k > MAX_INT32 && (k > 0 ==> next + SORT_ORDER_STEP * (k - 1) <= MAX_INT32)
    ensures !InOrder(existing + news)
  {
    var all := existing + news;
    var j := |existing| + k;
    assert all[j] == news[k] && news[k].row.sortOrder < 0;
    assert all[j - 1] == if k > 0 then news[k - 1] else existing[|existing| - 1];
    assert !Before(all[j - 1].row, all[j].row);
  }

  lemma {:induction false} FirstOverflow(next: int, n: nat) returns (k: nat)
    requires !LevelFits(next, n)
    ensures k < n && next + SORT_ORDER_STEP * k > MAX_INT32 && (k > 0 ==> next + SORT_ORDER_STEP * (k - 1) <= MAX_INT32)
    decreases n
  {
    if n == 1 || LevelFits(next, n - 1) {
      k := n - 1;
    } else {
      k := FirstOverflow(next, n - 1);
    }
  }

  /** New rows at the end of a level show in the order of their creation exactly when their sort orders fit. */
  lemma LevelOrder(existing: seq<Tree>, news: seq<Tree>, next: int)
    requires InOrder(existing) && StartsAfter(existing, next) && HasOrders(news, next)
    ensures InOrder(existing + news) <==> LevelFits(next, |news|)
  {
    if LevelFits(next, |news|) {
      FittingLevelIsOrdered(existing, news, next);
    } else {
      var k := FirstOverflow(next, |news|);
      OverflowingLevelIsNot(existing, news, next, k);
    }
  }

  // ----- one more item -----

  lemma GrowsStep(db: map<Id, Row>, dbk: map<Id, Row>, db': map<Id, Row>, p: Id, earlier: set<Id>, row: Row,
        below: set<Id>)
    requires Grows(db, dbk, p, earlier) && row.parent == p
    requires row.id !in dbk && row.id != 0 && row.id != p && forall id <- dbk :: dbk[id].parent != row.id
    requires Grows(dbk[row.id := row], db', row.id, below)
    ensures Grows(db, db', p, earlier + {row.id} + below)
  {
    var db1 := dbk[row.id := row];
    assert db1[row.id].parent !in below;
    forall id | id in db ensures db'[id] == db[id] && db[id].parent !in earlier + {row.id} + below {
      assert db1[id] == dbk[id] == db[id];
    }
    forall id | id in earlier ensures db'[id].parent == p || db'[id].parent in earlier {
      assert db1[id] == dbk[id];
    }
  }

  /** The rows of the next item hang under p, under its first row or under each other. */
  lemma NewRowsElsewhere(db: map<Id, Row>, dbk: map<Id, Row>, db': map<Id, Row>, p: Id, earlier: set<Id>, row: Row,
        below: set<Id>, id: Id)
    requires Grows(db, dbk, p, earlier) && row.parent == p && row.id !in dbk && row.id != p
    requires Grows(dbk[row.id := row], db', row.id, below) && id in db' && id !in dbk
    ensures db'[id].parent !in earlier
  {
    var db1 := dbk[row.id := row];
    assert id == row.id ==> db'[id] == db1[id];
  }

  lemma OldRowsStay(dbk: map<Id, Row>, db': map<Id, Row>, row: Row, below: set<Id>)
    requires row.id !in dbk && Grows(dbk[row.id := row], db', row.id, below)
    ensures dbk.Keys <= db'.Keys && forall id <- dbk :: db'[id] == dbk[id]
  {
    forall id | id in dbk ensures id in db' && db'[id] == dbk[id] {
      assert dbk[row.id := row][id] == dbk[id];
    }
  }

  /** The subtree of an earlier item does not notice the next one. */
  lemma EarlierStays(db: map<Id, Row>, dbk: map<Id, Row>, db': map<Id, Row>, p: Id, next: int, items: seq<Item>,
        news: seq<Tree>,
                     row: Row, below: set<Id>, i: nat)
    requires Grows(db, dbk, p, TreeIds(news)) && i < |news| == |items| && IsNew(db, dbk, p, next, items, news, i)
    requires row.parent == p && row.id !in dbk && row.id != p
    requires Grows(dbk[row.id := row], db', row.id, below)
    ensures IsNew(db, db', p, next, items, news, i)
  {
    hide IsTree, FitsBelow, Lists, Ordered, TreeIds;
    var t := news[i];
    TreeIdsOfPart(news, i);
    forall id | id in db' && id !in dbk ensures db'[id].parent !in TreeIds(news) {
      NewRowsElsewhere(db, dbk, db', p, TreeIds(news), row, below, id);
    }
    OldRowsStay(dbk, db', row, below);
    hide Grows;
    ListsStays(dbk, db', t.row.id, t.children);
  }

  lemma NewRow(db: map<Id, Row>, db': map<Id, Row>, p: Id, next: int, items: seq<Item>, news: seq<Tree>, i: nat)
    requires i < |news| == |items| && IsNew(db, db', p, next, items, news, i)
    ensures news[i].row.id in db' && db'[news[i].row.id] == news[i].row && news[i].row.parent == p
    ensures news[i].row.sortOrder == Wrap32(next + SORT_ORDER_STEP * i)
    ensures Lists(db', news[i].row.id, news[i].children)
            && (Ordered(news[i].children) <==> FitsBelow(items[i].children))
  {
  }

  lemma NewLevelHere(db1: map<Id, Row>, db': map<Id, Row>, id: Id, next: int, items: seq<Item>, below: seq<Tree>)
    requires Imported(db1, db', id, next, items, below) && forall r <- db1 :: db1[r].parent != id
    ensures ListsHere(db', id, below)
  {
    hide Grows, IsNew, Lists, Ordered, FitsBelow;
    forall t | t in below ensures t.row.id in db' && db'[t.row.id] == t.row && t.row.parent == id {
      var i :| 0 <= i < |below| && below[i] == t;
      NewRow(db1, db', id, next, items, below, i);
    }
    forall r | r in db' && db'[r].parent == id ensures IsRootOf(below, r) {
      GrowsKeeps(db1, db', id, TreeIds(below), r);
    }
  }

  lemma NewLevelOrdered(items: seq<Item>, below: seq<Tree>)
    requires |below| == |items| && HasOrders(below, SORT_ORDER_STEP)
    requires forall i | 0 <= i < |below| :: Ordered(below[i].children) <==> FitsBelow(items[i].children)
    ensures Ordered(below) <==> FitsBelow(items)
  {
    NothingInOrder();
    LevelOrder([], below, SORT_ORDER_STEP);
    assert [] + below == below;
    hide HasOrders, InOrder;
  }

  /** A new folder and its imported children. */
  lemma NewSubtree(db1: map<Id, Row>, db': map<Id, Row>, id: Id, items: seq<Item>, below: seq<Tree>)
    requires Imported(db1, db', id, SORT_ORDER_STEP, items, below) && forall r <- db1 :: db1[r].parent != id
    ensures Lists(db', id, below) && (Ordered(below) <==> FitsBelow(items))
  {
    NewLevelHere(db1, db', id, SORT_ORDER_STEP, items, below);
    assert |below| == |items| && forall i | 0 <= i < |below| :: IsNew(db1, db', id, SORT_ORDER_STEP, items, below, i);
    hide Imported, IsNew, ListsHere, Ordered, FitsBelow;
    forall i | 0 <= i < |below|
      ensures Lists(db', below[i].row.id, below[i].children)
              && (Ordered(below[i].children) <==> FitsBelow(items[i].children))
      ensures below[i].row.sortOrder == Wrap32(SORT_ORDER_STEP + SORT_ORDER_STEP * i)
    {
      NewRow(db1, db', id, SORT_ORDER_STEP, items, below, i);
    }
    NewLevelOrdered(items, below);
  }

  lemma NothingInOrder()
    ensures InOrder([])
  {
  }

  lemma GrowsKeeps(db: map<Id, Row>, db': map<Id, Row>, p: Id, added: set<Id>, r: Id)
    requires Grows(db, db', p, added)
    ensures r in db ==> r in db' && db'[r] == db[r]
  {
  }

  /** The item just imported joins the level. */
  lemma LastIsNew(db: map<Id, Row>, dbk: map<Id, Row>, db': map<Id, Row>, p: Id, next: int, items: seq<Item>,
        news: seq<Tree>,
                  row: Row, item: Item, below: seq<Tree>)
    requires |news| == |items| && db.Keys <= dbk.Keys && row.id !in dbk && row.parent == p
    requires forall id <- dbk :: dbk[id].parent != row.id
    requires row.parent != row.id && row.sortOrder == Wrap32(next + SORT_ORDER_STEP * |items|)
    requires Imported(dbk[row.id := row], db', row.id, SORT_ORDER_STEP, item.children, below)
    ensures IsNew(db, db', p, next, items + [item], news + [Tree(row, below)], |news|)
  {
    var db1 := dbk[row.id := row];
    assert row.id in db1 && db1[row.id] == row;
    GrowsKeeps(db1, db', row.id, TreeIds(below), row.id);
    forall r | r in db1 ensures db1[r].parent != row.id {
    }
    hide Imported, IsTree, FitsBelow, Lists, Ordered;
    NewSubtree(db1, db', row.id, item.children, below);
  }

  lemma LevelRoots(db: map<Id, Row>, dbk: map<Id, Row>, db': map<Id, Row>, p: Id, news: seq<Tree>, row: Row,
        below: seq<Tree>, id: Id)
    requires row.id !in dbk && row.id != p && row.parent == p
    requires forall r <- dbk | r !in db && dbk[r].parent == p :: IsRootOf(news, r)
    requires Grows(dbk[row.id := row], db', row.id, TreeIds(below)) && id in db' && id !in db && db'[id].parent == p
    ensures IsRootOf(news + [Tree(row, below)], id)
  {
    var db1 := dbk[row.id := row];
    assert db1[row.id].parent == p;
    var all := news + [Tree(row, below)];
    if id == row.id {
      assert all[|news|] in all;
    } else if id in dbk {
      assert db1[id] == dbk[id];
      var t :| t in news && t.row.id == id;
      assert t in all;
    }
  }

  lemma LongerShapes(news: seq<Tree>, t: Tree)
    ensures Shapes(news + [t]) == Shapes(news) + [Shape(t)]
    ensures TreeIds(news + [t]) == TreeIds(news) + {t.row.id} + TreeIds(t.children)
  {
    assert (news + [t])[..|news|] == news;
  }

  lemma LongerIsDistinct(db: map<Id, Row>, dbk: map<Id, Row>, p: Id, next: int, items: seq<Item>, news: seq<Tree>,
        t: Tree)
    requires NewLevel(db, dbk, p, next, items, news) && t.row.id !in dbk
    ensures DistinctRoots(news + [t])
  {
    hide Lists, Ordered, FitsBelow;
    forall i | 0 <= i < |news| ensures news[i].row.id in dbk {
      assert IsNew(db, dbk, p, next, items, news, i);
    }
  }

  lemma AllAreNew(db: map<Id, Row>, dbk: map<Id, Row>, db': map<Id, Row>, p: Id, next: int, items: seq<Item>,
        news: seq<Tree>,
                  row: Row, item: Item, below: seq<Tree>, i: nat)
    requires Imported(db, dbk, p, next, items, news) && i < |news|
    requires row.parent == p && row.id !in dbk && row.id != p
    requires Grows(dbk[row.id := row], db', row.id, TreeIds(below))
    ensures |news| == |items| && IsNew(db, db', p, next, items + [item], news + [Tree(row, below)], i)
  {
    hide Grows, Lists, Ordered, FitsBelow;
    assert IsNew(db, dbk, p, next, items, news, i);
    EarlierStays(db, dbk, db', p, next, items, news, row, TreeIds(below), i);
    IsNewInLonger(db, db', p, next, items, news, item, Tree(row, below), i);
  }

  /** Importing one more item of a level. */
  lemma ImportStep(db: map<Id, Row>, dbk: map<Id, Row>, db': map<Id, Row>, p: Id, next: int, items: seq<Item>,
        news: seq<Tree>,
                   row: Row, item: Item, below: seq<Tree>)
    requires Imported(db, dbk, p, next, items, news)
    requires row.id !in dbk && row.id != 0 && row.id != p && forall id <- dbk :: dbk[id].parent != row.id
    requires row == Row(row.id, p, item.kind, item.title, item.url, item.icon, Wrap32(next + SORT_ORDER_STEP * |items|))
    requires Imported(dbk[row.id := row], db', row.id, SORT_ORDER_STEP, item.children, below)
    ensures Imported(db, db', p, next, items + [item], news + [Tree(row, below)])
  {
    hide Grows, IsNew, Lists, Ordered, FitsBelow, TreeIds, DistinctRoots, IsRootOf;
    var (all, allItems) := (news + [Tree(row, below)], items + [item]);
    LongerShapes(news, Tree(row, below));
    LongerIsDistinct(db, dbk, p, next, items, news, Tree(row, below));
    GrowsStep(db, dbk, db', p, TreeIds(news), row, TreeIds(below));
    assert db.Keys <= dbk.Keys by {
      GrowsKeys(db, dbk, p, TreeIds(news));
    }
    LastIsNew(db, dbk, db', p, next, items, news, row, item, below);
    forall i | 0 <= i < |all| ensures IsNew(db, db', p, next, allItems, all, i) {
      if i < |news| {
        AllAreNew(db, dbk, db', p, next, items, news, row, item, below, i);
      }
    }
    forall id | id in db' && id !in db && db'[id].parent == p ensures IsRootOf(all, id) {
      LevelRoots(db, dbk, db', p, news, row, below, id);
    }
  }

  lemma GrowsKeys(db: map<Id, Row>, db': map<Id, Row>, p: Id, added: set<Id>)
    requires Grows(db, db', p, added)
    ensures db.Keys <= db'.Keys
  {
  }

  lemma IsNewInLonger(db: map<Id, Row>, db': map<Id, Row>, p: Id, next: int, items: seq<Item>, news: seq<Tree>,
        item: Item, t: Tree, i: nat)
    requires i < |news| == |items| && IsNew(db, db', p, next, items, news, i)
    ensures IsNew(db, db', p, next, items + [item], news + [t], i)
  {
    assert (news + [t])[i] == news[i] && (items + [item])[i] == items[i];
  }

  lemma NothingImported(db: map<Id, Row>, p: Id, next: int)
    requires KeyedById(db)
    ensures Imported(db, db, p, next, [], [])
  {
  }

  // ----- the tree after an import -----

  lemma ExistingEndsLevel(db: map<Id, Row>, p: Id, existing: seq<Tree>, next: int)
    requires IsTree(db, p, existing) && IsNextOrder(db, p, next) && forall id <- db :: IsInt32(db[id].sortOrder)
    ensures StartsAfter(existing, next)
  {
    assert forall i | 0 <= i < |existing| :: existing[i] in existing;
    if existing != [] {
      var last := existing[|existing| - 1];
      assert last.row.id in db && db[last.row.id].parent == p;
      var id :| id in db && db[id].parent == p && db[id].sortOrder + SORT_ORDER_STEP == next;
      assert IsRootOf(existing, id);
      var t :| t in existing && t.row.id == id;
      var i :| 0 <= i < |existing| && existing[i] == t;
      assert i < |existing| - 1 ==> Before(existing[i].row, last.row);
    } else {
      assert forall id <- db :: db[id].parent == p ==> IsRootOf(existing, id);
    }
  }

  /** After an import into the top level the rows list the old tree followed by the imported one. */
  lemma ImportedLists(db: map<Id, Row>, db': map<Id, Row>, next: int, items: seq<Item>, existing: seq<Tree>,
        news: seq<Tree>)
    requires KeyedById(db) && Lists(db, 0, existing) && Imported(db, db', 0, next, items, news)
    ensures Lists(db', 0, existing + news)
  {
    var all := existing + news;
    ExistingStays(db, db', existing, TreeIds(news));
    forall i | 0 <= i < |all|
      ensures Lists(db', all[i].row.id, all[i].children)
      ensures all[i].row.id in db' && db'[all[i].row.id] == all[i].row && all[i].row.parent == 0
    {
      if i < |existing| {
        assert existing[i] in existing;
      } else {
        assert IsNew(db, db', 0, next, items, news, i - |existing|);
      }
    }
    hide Lists, IsTree, Grows, IsNew, Ordered, FitsBelow;
    ImportedHere(db, db', next, items, existing, news);
  }

  lemma ExistingStays(db: map<Id, Row>, db': map<Id, Row>, existing: seq<Tree>, added: set<Id>)
    requires KeyedById(db) && Lists(db, 0, existing) && Grows(db, db', 0, added)
    ensures forall i | 0 <= i < |existing| :: Lists(db', existing[i].row.id, existing[i].children)
    ensures ListsHere(db, 0, existing) && forall t <- existing :: t.row.id in db' && db'[t.row.id] == t.row
  {
    forall i | 0 <= i < |existing| ensures Lists(db', existing[i].row.id, existing[i].children) {
      var t := existing[i];
      assert t in existing;
      TreeIdsAreRows(db, 0, existing);
      TreeIdsOfPart(existing, i);
      ListsStays(db, db', t.row.id, t.children);
    }
  }

  lemma ImportedHere(db: map<Id, Row>, db': map<Id, Row>, next: int, items: seq<Item>, existing: seq<Tree>,
        news: seq<Tree>)
    requires ListsHere(db, 0, existing) && Imported(db, db', 0, next, items, news)
    ensures ListsHere(db', 0, existing + news)
  {
    hide Lists, Ordered, FitsBelow;
    var all := existing + news;
    forall i | 0 <= i < |news| ensures news[i].row.id in db' && news[i].row.id !in db
        && db'[news[i].row.id] == news[i].row && news[i].row.parent == 0 {
      assert IsNew(db, db', 0, next, items, news, i);
    }
    forall id | id in db' && db'[id].parent == 0 ensures IsRootOf(all, id) {
      if id in db {
        assert IsRootOf(existing, id);
        var t :| t in existing && t.row.id == id;
        assert t in all;
      } else {
        var t :| t in news && t.row.id == id;
        assert t in all;
      }
    }
    forall t | t in all ensures t.row.id in db' && db'[t.row.id] == t.row && t.row.parent == 0 {
      var i :| 0 <= i < |all| && all[i] == t;
      if i < |existing| {
        assert existing[i] in existing;
      } else {
        assert news[i - |existing|] == t;
      }
    }
    assert forall i | 0 <= i < |existing| :: existing[i] in existing;
  }

  /** Importing a forest and rebuilding the tree gives the old tree with exactly that forest appended, in
      its order, if and only if no level runs out of sort orders. */
  lemma ImportAppends(db: map<Id, Row>, db': map<Id, Row>, next: int, items: seq<Item>, existing: seq<Tree>,
        news: seq<Tree>)
    requires KeyedById(db) && (forall id <- db :: IsInt32(db[id].sortOrder))
    requires IsTree(db, 0, existing) && IsNextOrder(db, 0, next) && Imported(db, db', 0, next, items, news)
    ensures Shapes(news) == items && Lists(db', 0, existing + news)
    ensures IsTree(db', 0, existing + news) <==> Fits(next, items)
  {
    ImportedLists(db, db', next, items, existing, news);
    ExistingEndsLevel(db, 0, existing, next);
    hide Lists, Grows, FitsBelow;
    forall i | 0 <= i < |news|
      ensures news[i].row.sortOrder == Wrap32(next + SORT_ORDER_STEP * i)
              && (Ordered(news[i].children) <==> FitsBelow(items[i].children))
    {
      assert IsNew(db, db', 0, next, items, news, i);
    }
    LevelOrder(existing, news, next);
    AllOrdered(existing, news);
  }

  lemma AllOrdered(existing: seq<Tree>, news: seq<Tree>)
    requires Ordered(existing)
    ensures Ordered(existing + news) <==> InOrder(existing + news) && forall i | 0 <= i < |news| ::
            Ordered(news[i].children)
  {
    var all := existing + news;
    assert forall i | 0 <= i < |news| :: all[|existing| + i] == news[i];
    assert forall i | 0 <= i < |existing| :: all[i] == existing[i];
  }
}
