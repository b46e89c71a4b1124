/** Creating, importing, moving and deleting the bookmarks of one owner, as the code does it on its rows.
    A request runs in one transaction; a failed or dry run leaves the rows as they were. */
module BookmarkService {
  import opened BookmarkImport
  import opened BookmarkMove
  import opened BookmarkNormalize
  import opened BookmarkTree
  import opened Forest
  import opened Fresh
  import opened GoInt
  import opened GoText
  import opened Sorting
  import opened Wrappers

  datatype Error = InvalidArgument | NotFound | Conflict | TooLong

  /** toPGInt64Ptr: a nil and a zero parent are both stored as NULL. */
  function StoredParent(parent: Option<Id>): Id {
    if parent.None? then 0 else parent.value
  }

  /** The rows a query for the children of `parent` finds; asking for parent 0 finds none. */
  predicate Asked(parent: Option<Id>, row: Row) {
    if parent.None? then row.parent == 0 else parent.value != 0 && row.parent == parent.value
  }

  /** The sort order behind the siblings that a query for `parent` finds. */
  ghost predicate IsNextFor(db: map<Id, Row>, parent: Option<Id>, next: int) {
    if parent == Some(0) then next == SORT_ORDER_STEP else IsNextOrder(db, StoredParent(parent), next)
  }

  lemma FreshRowId(db: map<Id, Row>)
    ensures exists id: Id :: id != 0 && id !in db && forall r <- db :: db[r].parent != id
  {
    var taken := db.Keys + (set r | r in db :: db[r].parent);
    FreshId(taken);
    var id: Id :| id != 0 && id !in taken;
    assert forall r <- db :: db[r].parent in taken;
  }

  /** The answer of ensureMoveTarget, for every bookmark and target. */
  predicate MayMoveUnder(db: map<Id, Row>, id: Id, parent: Id) {
    UnderFolder(db, parent) && id !in Path(Parents(db), parent)
  }

  class BrowserBookmarkUseCase {
    /** The live rows. */
    var db: map<Id, Row>

    constructor ()
      ensures db == map[] && Valid(db)
    {
      db := map[];
      new;
      assert RankedBy(Parents(db), map[]);
    }

    /** NextSortOrder */
    method NextSortOrder(parent: Option<Id>) returns (next: int)
      ensures IsNextFor(db, parent, next)
    {
      var rest := set id | id in db && Asked(parent, db[id]);
      assert forall id <- db | Asked(parent, db[id]) :: id in rest;
      if rest == {} {
        return SORT_ORDER_STEP;
      }
      var first :| first in rest;
      var most := db[first].sortOrder;
      ghost var top := first;
      rest := rest - {first};
      while rest != {}
        invariant top in db && Asked(parent, db[top]) && db[top].sortOrder == most
        invariant forall id <- db | Asked(parent, db[id]) && id !in rest :: db[id].sortOrder <= most
        invariant forall id <- rest :: id in db && Asked(parent, db[id])
        decreases rest
      {
        var id :| id in rest;
        if db[id].sortOrder > most {
          most, top := db[id].sortOrder, id;
        }
        rest := rest - {id};
      }
      next := most + SORT_ORDER_STEP;
    }

    /** Create of the repository; it may fail. */
    method CreateRow(parent: Id, kind: Kind, title: string, url: string, icon: string, sortOrder: int)
          returns (r: Result<Id, Error>)
      requires Valid(db) && UnderFolder(db, parent)
      modifies this
      ensures Valid(db) && (r.Err? ==> db == old(db))
      ensures r.Ok? ==>
              && r.value != 0 && r.value !in old(db) && r.value != parent
                 && (forall id <- old(db) :: old(db)[id].parent != r.value)
              && db == old(db)[r.value := Row(r.value, parent, kind, title, url, icon, Wrap32(sortOrder))]
    {
      var works: bool := *;
      if !works {
        return Err(Conflict);
      }
      FreshRowId(db);
      var id: Id :| id != 0 && id !in db && forall r <- db :: db[r].parent != id;
      assert parent != id;
      var row := Row(id, parent, kind, title, url, icon, Wrap32(sortOrder));
      AddLeafKeepsValid(db, row);
      hide Valid;
      db := db[id := row];
      r := Ok(id);
    }

    /** ensureParentFolder */
    method EnsureParentFolder(parent: Option<Id>) returns (r: Result<(), Error>)
      ensures r.Ok? <==> UnderFolder(db, StoredParent(parent))
    {
      if parent.None? || parent.value == 0 {
        return Ok(());
      }
      if parent.value !in db {
        return Err(NotFound);
      }
      r := if db[parent.value].kind.Folder? then Ok(()) else Err(InvalidArgument);
    }

    /** Create: the new bookmark hangs under the folder it was created in. */
    method Create(parent: Option<Id>, kind: Kind, title: string, url: string, icon: string, dryRun: bool)
      returns (r: Result<Id, Error>, ghost next: int)
      requires Valid(db)
      modifies this
      ensures Valid(db) && (r.Err? || dryRun ==> db == old(db))
      ensures r.Ok? ==> UnderFolder(old(db), StoredParent(parent)) && r.value !in old(db)
      ensures r.Ok? && !dryRun ==>
              && r.value in db && db == old(db)[r.value := db[r.value]]
              && db[r.value] == Row(r.value, StoredParent(parent), kind, title, url, icon, Wrap32(next))
      ensures r.Ok? ==> IsNextFor(old(db), parent, next)
    {
      hide Valid, IsNextFor;
      var start := db;
      next := 0;
      var folder := EnsureParentFolder(parent);
      if folder.Err? {
        return Err(folder.error), next;
      }
      var sortOrder := NextSortOrder(parent);
      next := sortOrder;
      r := CreateRow(StoredParent(parent), kind, title, url, icon, sortOrder);
      if dryRun {
        db := start;
      }
    }

    /** importBrowserBookmarkChildren */
    method ImportChildren(parent: Id, items: seq<Item>)
          returns (r: Result<int, Error>, ghost next: int, ghost news: seq<Tree>)
      requires Valid(db) && UnderFolder(db, parent) && ValidItems(items)
      modifies this
      ensures Valid(db)
      ensures r.Ok? ==> r.value == Count(items) && Imported(old(db), db, parent, next, StoredItems(items), news)
      ensures r.Ok? ==> AllFitColumns(items)
      ensures items != [] ==> IsNextOrder(old(db), parent, next)
      decreases items
    {
      hide Valid, Imported, ValidItem, UnderFolder, IsNextOrder, Count, StoredItem, StoredItems, FitsColumns;
      next, news := SORT_ORDER_STEP, [];
      ValidIsKeyed(db);
      NothingStored();
      NothingImported(db, parent, next);
      NothingCounted();
      if |items| == 0 {
        return Ok(0), next, news;
      }
      var sortOrder := NextSortOrder(if parent == 0 then None else Some(parent));
      next := sortOrder;
      var importedCount, nextSortOrder := 0, sortOrder;
      ghost var start := db;
      NothingImported(db, parent, next);
      for n := 0 to |items|
        invariant Valid(db) && UnderFolder(db, parent) && importedCount == Count(items[..n])
        invariant Imported(start, db, parent, next, StoredItems(items[..n]), news) && AllFitColumns(items[..n])
        invariant nextSortOrder == sortOrder + SORT_ORDER_STEP * n
      {
        assert items[..n + 1] == items[..n] + [items[n]];
        CountNext(items[..n], items[n]);
        StoredAppend(items[..n], items[n]);
        var count: Result<int, Error>;
        count, news := ImportNext(start, parent, next, StoredItems(items[..n]), news, items[n], nextSortOrder);
        if count.Err? {
          return Err(count.error), next, news;
        }
        importedCount := importedCount + count.value;
        nextSortOrder := nextSortOrder + SORT_ORDER_STEP;
      }
      assert items[..|items|] == items;
      r := Ok(importedCount);
    }

    /** One more item after what is stored as `done`. */
    method ImportNext(ghost start: map<Id, Row>, parent: Id, ghost next: int, ghost done: seq<Item>,
          ghost news: seq<Tree>,
                      item: Item, sortOrder: int)
      returns (r: Result<int, Error>, ghost news': seq<Tree>)
      requires Valid(db) && UnderFolder(db, parent) && ValidItem(item)
      requires Imported(start, db, parent, next, done, news) && sortOrder == next + SORT_ORDER_STEP * |done|
      modifies this
      ensures Valid(db)
      ensures r.Ok? ==>
              && UnderFolder(db, parent) && r.value == 1 + Count(item.children) && FitsColumns(item)
              && Imported(start, db, parent, next, done + [StoredItem(item)], news')
      decreases item, 1
    {
      hide Valid, Imported, ValidItem, UnderFolder, Count, FitsColumns, StoredItems;
      ghost var before := db;
      ghost var row: Row;
      ghost var below: seq<Tree>;
      r, row, below := ImportItem(parent, item, sortOrder);
      news' := news;
      if r.Ok? {
        ImportStep(start, before, db, parent, next, done, news, row, StoredItem(item), below);
        news' := news + [Tree(row, below)];
      }
    }

    /** One turn of the import loop: a row for the item, then its children. */
    method ImportItem(parent: Id, item: Item, sortOrder: int)
          returns (r: Result<int, Error>, ghost row: Row, ghost below: seq<Tree>)
      requires Valid(db) && UnderFolder(db, parent) && ValidItem(item)
      modifies this
      ensures Valid(db)
      ensures r.Ok? ==>
              && UnderFolder(db, parent) && r.value == 1 + Count(item.children)
              && row.id !in old(db) && row.id != 0 && row.id != parent
                 && (forall id <- old(db) :: old(db)[id].parent != row.id)
              && row == Row(row.id, parent, item.kind, item.title, TrimSpace(item.url), TrimSpace(item.icon),
                 Wrap32(sortOrder))
              && Imported(old(db)[row.id := row], db, row.id, SORT_ORDER_STEP, StoredItems(item.children), below)
                 && FitsColumns(item)
      decreases item, 0
    {
      hide Valid, Imported, IsNextOrder, Count, TrimSpace, StoredItems, AllFitColumns;
      below := [];
      var url, icon := TrimSpace(item.url), TrimSpace(item.icon);
      row := Row(0, parent, item.kind, item.title, url, icon, Wrap32(sortOrder));
      if |url| > MAX_URL_LENGTH || |icon| > MAX_URL_LENGTH {
        return Err(TooLong), row, below;
      }
      var created := CreateRow(parent, item.kind, item.title, url, icon, sortOrder);
      if created.Err? {
        return Err(created.error), row, below;
      }
      row := db[created.value];
      ghost var withRow := db;
      ValidIsKeyed(db);
      if |item.children| == 0 {
        NothingImported(db, row.id, SORT_ORDER_STEP);
        NothingCounted();
        NothingStored();
        return Ok(1), row, below;
      }
      var count: Result<int, Error>;
      ghost var next: int;
      count, next, below := ImportChildren(created.value, item.children);
      if count.Err? {
        return Err(count.error), row, below;
      }
      FirstOrder(withRow, row.id, next);
      ImportedKeepsFolder(withRow, db, parent, row.id, next, StoredItems(item.children), below);
      r := Ok(1 + count.value);
    }

    /** Import: the normalized forest, as it is stored, under new top-level rows, all of it or nothing; nothing when
        a printed text has outgrown its column. */
    method Import(raws: seq<RawItem>, parse: Parsers, dryRun: bool)
      returns (r: Result<int, Error>, ghost next: int, ghost news: seq<Tree>)
      requires Valid(db)
      modifies this
      ensures Valid(db) && (r.Err? || dryRun ==> db == old(db))
      ensures r.Ok? ==> NormalItems(raws, parse).Some? && raws != [] && r.value == Count(NormalItems(raws, parse).value)
      ensures r.Ok? ==> AllFitColumns(NormalItems(raws, parse).value)
      ensures r.Ok? && !dryRun ==>
                IsNextOrder(old(db), 0, next)
                    && Imported(old(db), db, 0, next, StoredItems(NormalItems(raws, parse).value), news)
    {
      hide Valid, Imported, IsNextOrder, Count, NormalItems, ValidItems, AllFitColumns, StoredItems;
      next, news := SORT_ORDER_STEP, [];
      var items := NormalizeImportBrowserBookmarkItems(raws, parse);
      if items.None? {
        return Err(InvalidArgument), next, news;
      }
      NormalSize(raws, parse);
      if |items.value| == 0 {
        return Err(InvalidArgument), next, news;
      }
      NormalsAreValid(raws, parse);
      var start := db;
      TopIsFolder(db);
      r, next, news := ImportChildren(0, items.value);
      if r.Err? || dryRun {
        db := start;
      }
    }

    /** ensureMoveTarget. Skipping the walk for a url item changes nothing, because nothing is below it. */
    method EnsureMoveTarget(current: Row, parent: Option<Id>) returns (r: Result<(), Error>)
      requires Valid(db) && current.id in db && db[current.id] == current
      ensures r.Ok? <==> MayMoveUnder(db, current.id, StoredParent(parent))
    {
      if parent.None? || parent.value == 0 {
        return Ok(());
      }
      if parent.value == current.id {
        return Err(InvalidArgument);
      }
      var folder := EnsureParentFolder(parent);
      if folder.Err? {
        return Err(folder.error);
      }
      if !current.kind.Folder? {
        UrlIsAboveNothing(db, current.id, parent.value);
        return Ok(());
      }
      var parentById := map id | id in db && db[id].parent != 0 :: db[id].parent;
      var cursor := parent.value;
      while cursor != 0
        invariant cursor in Path(Parents(db), parent.value) || cursor == 0
        invariant current.id in Path(Parents(db), parent.value) <==> current.id in Path(Parents(db), cursor)
        decreases |Path(Parents(db), cursor)|
      {
        PathUnfold(Parents(db), cursor);
        if cursor == current.id {
          return Err(InvalidArgument);
        }
        if cursor !in parentById || parentById[cursor] == cursor {
          NoCycle(Parents(db), cursor);
          PathUnfold(Parents(db), 0);
          return Ok(());
        }
        PathTransitiveStep(db, parent.value, cursor);
        cursor := parentById[cursor];
      }
      PathUnfold(Parents(db), 0);
      r := Ok(());
    }

    /** ListSiblings */
    method ListSiblings(parent: Option<Id>, exclude: Id) returns (siblings: seq<Id>)
      requires KeyedById(db)
      ensures AreSiblings(db, parent, exclude, siblings)
    {
      var rest := set id | id in db && Asked(parent, db[id]) && id != exclude;
      var rows: seq<Row> := [];
      ghost var all := rest;
      while rest != {}
        invariant rest <= all && DistinctRows(rows)
        invariant forall row :: row in rows <==> row.id in all - rest && db[row.id] == row
        decreases rest
      {
        var id :| id in rest;
        assert forall row <- rows :: row.id != id;
        rest := rest - {id};
        rows := rows + [db[id]];
      }
      SortedRows(rows);
      var sorted := Sort(NotAfter, rows);
      siblings := seq(|sorted|, k requires 0 <= k < |sorted| => sorted[k].id);
      SortedAreSiblings(db, parent, exclude, rows, sorted, siblings);
    }

    /** insertBookmarkIntoSiblingOrder */
    method InsertBookmarkIntoSiblingOrder(id: Id, siblings: seq<Id>, before: Option<Id>, after: Option<Id>)
          returns (r: Option<seq<Id>>)
      requires (before.None? || after.None?) && DistinctIds(siblings)
      ensures r == Inserted(id, siblings, before, after)
    {
      var orderedIds: seq<Id> := [];
      if before.None? && after.None? {
        return Some(siblings + [id]);
      }
      var inserted := false;
      ghost var at := if before.Some? then IndexOf(siblings, before.value) else IndexOf(siblings, after.value);
      ghost var cut := if before.Some? then at else at + 1;
      for n := 0 to |siblings|
        invariant inserted <==> at < n
        invariant orderedIds == if inserted then siblings[..cut] + [id] + siblings[cut..n] else siblings[..n]
      {
        assert siblings[n] in siblings[..at] || at <= n;
        if before.Some? && siblings[n] == before.value {
          orderedIds := orderedIds + [id];
          inserted := true;
        }
        orderedIds := orderedIds + [siblings[n]];
        if after.Some? && siblings[n] == after.value {
          orderedIds := orderedIds + [id];
          inserted := true;
        }
      }
      assert siblings[..|siblings|] == siblings;
      r := if inserted then Some(orderedIds) else None;
    }

    /** UpdateSortOrders with the numbers of buildBookmarkSortOrders. */
    method UpdateSortOrders(ids: seq<Id>)
      requires forall id <- ids :: id in db
      requires DistinctIds(ids)
      modifies this
      ensures Renumbered(old(db), db, ids)
    {
      ghost var start := db;
      for n := 0 to |ids|
        invariant Renumbered(start, db, ids[..n])
      {
        RenumberNext(start, db, ids, n);
        db := db[ids[n] := db[ids[n]].(sortOrder := NewOrder(n))];
      }
      assert ids[..|ids|] == ids;
    }

    /** Move. It goes through exactly when the target may take the bookmark and the sibling it is placed by
        is found; then the level is renumbered in the requested order. */
    method Move(id: Id, parent: Option<Id>, before: Option<Id>, after: Option<Id>, dryRun: bool)
      returns (r: Result<(), Error>, ghost siblings: seq<Id>)
      requires Valid(db)
      modifies this
      ensures Valid(db) && (r.Err? || dryRun ==> db == old(db))
      ensures AreSiblings(old(db), parent, id, siblings)
      ensures r.Ok? <==> MoveAccepted(old(db), id, parent, before, after, siblings)
      ensures r.Ok? && !dryRun ==>
                && id in old(db)
                && Renumbered(old(db)[id := old(db)[id].(parent := StoredParent(parent))], db,
                   Inserted(id, siblings, before, after).value)
    {
      hide Valid, AreSiblings, Inserted, MayMoveUnder, Renumbered;
      ValidIsKeyed(db);
      var start := db;
      var found: seq<Id> := ListSiblings(parent, id);
      siblings := found;
      if id == 0 || before == Some(id) || after == Some(id) || (before.Some? && after.Some?) {
        return Err(InvalidArgument), siblings;
      }
      if id !in db {
        return Err(NotFound), siblings;
      }
      KeyedRow(db, id);
      var target := EnsureMoveTarget(db[id], parent);
      if target.Err? {
        return Err(target.error), siblings;
      }
      SiblingsFacts(db, parent, id, siblings);
      var ordered := InsertBookmarkIntoSiblingOrder(id, found, before, after);
      if ordered.None? {
        return Err(InvalidArgument), siblings;
      }
      InsertedKeepsSiblings(id, found, before, after);
      db := db[id := db[id].(parent := StoredParent(parent))];
      ghost var moved := db;
      UpdateSortOrders(ordered.value);
      MoveKeepsValid(start, moved, db, id, StoredParent(parent), ordered.value);
      if dryRun {
        db := start;
      }
      r := Ok(());
    }

    /** Delete: the bookmark and everything below it, or NotFound. */
    method Delete(id: Id, dryRun: bool) returns (r: Result<(), Error>)
      requires Valid(db)
      modifies this
      ensures Valid(db) && (r.Err? || dryRun ==> db == old(db))
      ensures r.Ok? <==> id != 0 && id in old(db)
      ensures r.Ok? && !dryRun ==>
                forall x :: x in db <==> x in old(db) && id !in Path(Parents(old(db)), x)
      ensures forall x <- db :: x in old(db) && db[x] == old(db)[x]
    {
      if id == 0 {
        return Err(InvalidArgument);
      }
      if id !in db {
        return Err(NotFound);
      }
      DropSubtreeKeepsValid(db, id);
      hide Valid;
      if !dryRun {
        db := map x | x in db && id !in Path(Parents(db), x) :: db[x];
      }
      r := Ok(());
    }
  }

  /** The numbers 1000, 2000, … along ids, and nothing else changed. */
  ghost predicate Renumbered(db: map<Id, Row>, db': map<Id, Row>, ids: seq<Id>) {
    && db'.Keys == db.Keys
    && (forall id <- db | id !in ids :: db'[id] == db[id])
    && forall i | 0 <= i < |ids| :: ids[i] in db && db'[ids[i]] == db[ids[i]].(sortOrder := NewOrder(i))
  }

  lemma RenumberOne(db: map<Id, Row>, dbn: map<Id, Row>, done: seq<Id>, id: Id)
    requires id !in done && id in db && Renumbered(db, dbn, done)
    ensures Renumbered(db, dbn[id := dbn[id].(sortOrder := NewOrder(|done|))], done + [id])
  {
    hide NewOrder;
    var (db', more) := (dbn[id := dbn[id].(sortOrder := NewOrder(|done|))], done + [id]);
    assert dbn[id] == db[id];
    forall x | x in db && x !in more ensures db'[x] == db[x] {
      assert more[|done|] == id;
      assert forall i | 0 <= i < |done| :: more[i] == done[i];
    }
  }

  lemma RenumberNext(db: map<Id, Row>, dbn: map<Id, Row>, ids: seq<Id>, n: nat)
    requires n < |ids| && DistinctIds(ids) && ids[n] in db && Renumbered(db, dbn, ids[..n])
    ensures Renumbered(db, dbn[ids[n] := dbn[ids[n]].(sortOrder := NewOrder(n))], ids[..n + 1])
  {
    assert ids[..n + 1] == ids[..n] + [ids[n]] && ids[n] !in ids[..n];
    hide Renumbered, DistinctIds, NewOrder;
    RenumberOne(db, dbn, ids[..n], ids[n]);
  }

  /** When a move is accepted: the arguments make sense, the target takes it, the neighbour is a sibling. */
  predicate MoveAccepted(db: map<Id, Row>, id: Id, parent: Option<Id>, before: Option<Id>, after: Option<Id>,
        siblings: seq<Id>) {
    && id != 0 && before != Some(id) && after != Some(id) && (before.None? || after.None?)
    && id in db && MayMoveUnder(db, id, StoredParent(parent))
    && Inserted(id, siblings, before, after).Some?
  }

  lemma KeyedRow(db: map<Id, Row>, id: Id)
    requires KeyedById(db) && id in db
    ensures db[id].id == id
  {
  }

  lemma SiblingsFacts(db: map<Id, Row>, parent: Option<Id>, id: Id, siblings: seq<Id>)
    requires AreSiblings(db, parent, id, siblings)
    ensures id !in siblings && DistinctIds(siblings) && forall x <- siblings :: x in db
  {
  }

  lemma MoveKeepsValid(db: map<Id, Row>, moved: map<Id, Row>, db': map<Id, Row>, id: Id, p: Id, ids: seq<Id>)
    requires Valid(db) && id in db && MayMoveUnder(db, id, p)
    requires moved == db[id := db[id].(parent := p)] && Renumbered(moved, db', ids)
    ensures Valid(db')
  {
    forall x | x in db
      ensures x in db' && db'[x] == db[x].(parent := if x == id then p else db[x].parent, sortOrder := db'[x].sortOrder)
      ensures IsInt32(db'[x].sortOrder)
    {
      if x in ids {
        var i :| 0 <= i < |ids| && ids[i] == x;
        assert db'[x] == moved[x].(sortOrder := NewOrder(i));
      }
    }
    hide Renumbered;
    RebindKeepsValid(db, db', id, p);
  }

  /** After a move into a level the level shows exactly the requested order, the other siblings in the
      order they had, if and only if the new numbers fit an int32. */
  lemma MoveShowsRequestedOrder(db: map<Id, Row>, db': map<Id, Row>, id: Id, parent: Option<Id>, before: Option<Id>,
        after: Option<Id>,
                                siblings: seq<Id>)
    requires Valid(db) && AreSiblings(db, parent, id, siblings) && MoveAccepted(db, id, parent, before, after, siblings)
    requires parent != Some(0)
    requires Renumbered(db[id := db[id].(parent := StoredParent(parent))], db',
             Inserted(id, siblings, before, after).value)
    ensures var ids := Inserted(id, siblings, before, after).value;
            && (exists k :: StandsAsAsked(ids, k, id, siblings, before, after))
            && (Shows(db', StoredParent(parent), ids) <==> |ids| * 1000 <= MAX_INT32)
  {
    var ids := Inserted(id, siblings, before, after).value;
    SiblingsFacts(db, parent, id, siblings);
    InsertedKeepsSiblings(id, siblings, before, after);
    var k := InsertedStands(id, siblings, before, after);
    hide Inserted, Valid, MayMoveUnder;
    var (moved, p) := (db[id := db[id].(parent := StoredParent(parent))], StoredParent(parent));
    forall x ensures x in ids <==> x in db' && db'[x].parent == p {
      if x in db && x in ids {
        var i :| 0 <= i < |ids| && ids[i] == x;
        assert db'[x] == moved[x].(sortOrder := NewOrder(i));
      }
    }
    RenumberedShows(db', p, ids);
  }

  /** A created bookmark shows behind its siblings exactly when the order it is given fits the column. */
  lemma CreatedShowsLast(db: map<Id, Row>, parent: Option<Id>, next: int, row: Row)
    requires Valid(db) && parent != Some(0) && IsNextFor(db, parent, next) && row.sortOrder == Wrap32(next)
    ensures (forall id <- db | db[id].parent == StoredParent(parent) :: Before(db[id], row)) <==> IsInt32(next)
  {
    var p := StoredParent(parent);
    if id :| id in db && db[id].parent == p {
      var top :| top in db && db[top].parent == p && db[top].sortOrder + SORT_ORDER_STEP == next;
      assert IsInt32(db[top].sortOrder);
    }
  }

  /** A zero parent: the siblings are looked up under parent 0, where nobody is, but the bookmark lands at
      the top level with sort order 1000. It is last there, as a move without a neighbour asks for, exactly
      when the last bookmark of the top level sorts before that. */
  lemma ZeroParentOrder(db: map<Id, Row>, db': map<Id, Row>, id: Id, before: Option<Id>, after: Option<Id>,
        siblings: seq<Id>, top: seq<Id>)
    requires Valid(db) && AreSiblings(db, Some(0), id, siblings)
             && MoveAccepted(db, id, Some(0), before, after, siblings)
    requires Renumbered(db[id := db[id].(parent := 0)], db', Inserted(id, siblings, before, after).value)
    requires AreSiblings(db, None, id, top)
    ensures before.None? && after.None?
    ensures Shows(db', 0, top + [id]) <==>
            (top == [] || Before(db[top[|top| - 1]], db[id].(sortOrder := 1000)))
  {
    SomeMember(siblings);
    assert siblings == [];
    assert Inserted(id, siblings, before, after).value == [id];
    assert [id][0] == id && NewOrder(0) == 1000;
    assert db'[id] == db[id].(parent := 0, sortOrder := 1000);
    SiblingsFacts(db, None, id, top);
    ZeroParentShows(db, db', id, top);
  }

  lemma SomeMember(s: seq<Id>)
    ensures s != [] ==> exists x :: x in s
  {
    if s != [] {
      assert s[0] in s;
    }
  }

  lemma ZeroParentShows(db: map<Id, Row>, db': map<Id, Row>, id: Id, top: seq<Id>)
    requires AreSiblings(db, None, id, top) && id !in top && id in db && KeyedById(db)
    requires db'.Keys == db.Keys && db'[id] == db[id].(parent := 0, sortOrder := 1000)
    requires forall x <- db | x != id :: db'[x] == db[x]
    ensures Shows(db', 0, top + [id]) <==>
            (top == [] || Before(db[top[|top| - 1]], db[id].(sortOrder := 1000)))
  {
    var ids := top + [id];
    assert forall i | 0 <= i < |top| :: ids[i] == top[i] && top[i] in top;
    assert ids[|top|] == id;
    if top != [] && Before(db[top[|top| - 1]], db[id].(sortOrder := 1000)) {
      var last := top[|top| - 1];
      forall i | 0 <= i < |top| ensures Before(db'[top[i]], db'[id]) {
        assert i < |top| - 1 ==> Before(db[top[i]], db[last]);
      }
    }
    if Shows(db', 0, ids) && top != [] {
      assert Before(db'[ids[|top| - 1]], db'[ids[|top|]]);
    }
  }

  lemma NothingStored()
    ensures StoredItems([]) == [] && AllFitColumns([])
  {
  }

  lemma NormalSize(raws: seq<RawItem>, parse: Parsers)
    requires NormalItems(raws, parse).Some?
    ensures |NormalItems(raws, parse).value| == |raws|
  {
  }

  lemma TopIsFolder(db: map<Id, Row>)
    ensures UnderFolder(db, 0)
  {
  }

  lemma PathTransitiveStep(db: map<Id, Row>, p: Id, cursor: Id)
    requires IsForest(Parents(db)) && cursor in Path(Parents(db), p)
    ensures db[cursor].parent in db ==> db[cursor].parent in Path(Parents(db), p)
  {
    PathUnfold(Parents(db), cursor);
    if db[cursor].parent in db {
      PathTransitive(Parents(db), p, cursor, db[cursor].parent);
    }
  }

  /** The rows a query finds without the excluded one, by sort order and then id. */
  ghost predicate AreSiblings(db: map<Id, Row>, parent: Option<Id>, exclude: Id, siblings: seq<Id>) {
    && (forall id :: id in siblings <==> id in db && Asked(parent, db[id]) && id != exclude)
    && (forall i, j | 0 <= i < j < |siblings| ::
         siblings[i] in db && siblings[j] in db && Before(db[siblings[i]], db[siblings[j]]))
  }

  lemma SortedAreSiblings(db: map<Id, Row>, parent: Option<Id>, exclude: Id, rows: seq<Row>, sorted: seq<Row>,
        siblings: seq<Id>)
    requires KeyedById(db)
    requires forall row :: row in rows <==> row.id in db && db[row.id] == row && Asked(parent, row) && row.id != exclude
    requires RowsInOrder(sorted) && forall row :: row in sorted <==> row in rows
    requires |siblings| == |sorted| && forall k | 0 <= k < |sorted| :: siblings[k] == sorted[k].id
    ensures AreSiblings(db, parent, exclude, siblings)
  {
    forall k | 0 <= k < |sorted| ensures siblings[k] in db && db[siblings[k]] == sorted[k] {
      assert sorted[k] in rows;
    }
    forall id | id in db && Asked(parent, db[id]) && id != exclude ensures id in siblings {
      assert db[id] in sorted;
      var k :| 0 <= k < |sorted| && sorted[k] == db[id];
      assert siblings[k] == id;
    }
    forall id | id in siblings ensures id in db && Asked(parent, db[id]) && id != exclude {
      var k :| 0 <= k < |siblings| && siblings[k] == id;
      assert sorted[k] in rows;
    }
  }

  lemma NothingCounted()
    ensures Count([]) == 0
  {
  }

  lemma CountNext(items: seq<Item>, item: Item)
    ensures Count(items + [item]) == Count(items) + 1 + Count(item.children)
  {
    assert (items + [item])[..|items|] == items;
  }

  lemma ValidIsKeyed(db: map<Id, Row>)
    requires Valid(db)
    ensures KeyedById(db)
  {
  }

  /** A folder nobody hangs under starts at 1000. */
  lemma FirstOrder(db: map<Id, Row>, p: Id, next: int)
    requires IsNextOrder(db, p, next) && forall id <- db :: db[id].parent != p
    ensures next == SORT_ORDER_STEP
  {
  }

  lemma ImportedKeepsFolder(db: map<Id, Row>, db': map<Id, Row>, parent: Id, p: Id, next: int, items: seq<Item>,
        news: seq<Tree>)
    requires Imported(db, db', p, next, items, news) && UnderFolder(db, parent)
    ensures UnderFolder(db', parent)
  {
    hide NewLevel;
  }
}
