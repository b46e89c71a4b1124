/** Copying a subtree: the plan, one new row per node in one transaction, one new object per file,
    and the clean-up when the transaction does not commit. */
module NodeCopy {
  import AutoRename
  import opened CopyPlan
  import opened Forest
  import opened Fresh
  import opened GoText
  import opened NodeNames
  import opened Wrappers

  datatype CopyError = Refused(error: Error) | NameExists | CreateFailed | UploadFailed | CommitUnknown

  /** How the transaction ends once its callback is done. */
  datatype TxEnd = Commits | ErrorRolledBack | ErrorCommitted

  /** The extension as the create path stores it. */
  function CreatedExt(kind: Kind, ext: string): string {
    if kind.File? then StoredExt(ext) else ""
  }

  /** The row of the copy of one item. */
  function CopyOf(item: Item, parent: Id, name: string): Row {
    Row(parent, item.row.kind, name, CreatedExt(item.row.kind, item.row.ext), item.row.fileSize,
        Loc(item.row.loc.provider, item.key), item.row.bucket)
  }

  /** rows' is rows plus a copy of the subtree of root under parentId; image says which node is whose copy. */
  ghost predicate IsCopy(rows: map<Id, Row>, rows': map<Id, Row>, root: Id, parentId: Id, image: map<Id, Id>) {
    && image.Keys == Subtree(rows, root)
    && IsExtension(rows, rows', image)
    && forall n <- image :: IsCopyOf(rows, rows', root, parentId, image, n)
  }

  /** The new rows are the images, and nothing old changed or pointed at them. */
  ghost predicate IsExtension(rows: map<Id, Row>, rows': map<Id, Row>, image: map<Id, Id>) {
    && rows'.Keys == rows.Keys + image.Values
    && (forall n <- rows :: rows'[n] == rows[n])
    && (forall n <- image :: image[n] !in rows && image[n] != 0)
    && (forall n <- rows :: rows[n].parent !in image.Values)
    && (forall m <- image, n <- image :: image[m] == image[n] ==> m == n)
  }

  /** Same kind and size, same name below the root, under the copy of its parent. */
  ghost predicate IsCopyOf(rows: map<Id, Row>, rows': map<Id, Row>, root: Id, parentId: Id, image: map<Id, Id>, n: Id)
    requires n in image
  {
    && n in rows && image[n] in rows'
    && var (from, to) := (rows[n], rows'[image[n]]);
    && to.kind == from.kind && to.fileSize == from.fileSize
    && (n != root ==> to.name == from.name && to.ext == CreatedExt(from.kind, from.ext))
    && if n == root then to.parent == parentId else from.parent in image && to.parent == image[from.parent]
  }

  /** Every file row with a key has its object, of the recorded size. */
  predicate Backed(rows: map<Id, Row>, objects: map<Loc, int>) {
    forall n <- rows | rows[n].kind.File? && rows[n].loc.key != "" ::
      rows[n].loc in objects && objects[rows[n].loc] == rows[n].fileSize
  }

  // ----- names among siblings -----

  /** The expression of the unique index on a row. */
  function IndexName(row: Row): string {
    StoredName(row.name, row.ext, row.kind.File?)
  }

  /** What the unique index guarantees at any time. */
  predicate UniqueRows(rows: map<Id, Row>) {
    forall a <- rows, b <- rows | a != b && rows[a].parent == rows[b].parent :: IndexName(rows[a]) != IndexName(rows[b])
  }

  /** No sibling has the name the creation looks for, nor the one the index then sees. */
  predicate NameFree(rows: map<Id, Row>, row: Row) {
    forall c <- rows | rows[c].parent == row.parent ::
      IndexName(rows[c]) != VisibleName(row.name, row.ext, row.kind.File?) && IndexName(rows[c]) != IndexName(row)
  }

  lemma FreeKeepsUnique(rows: map<Id, Row>, id: Id, row: Row)
    requires UniqueRows(rows) && id !in rows && NameFree(rows, row)
    ensures UniqueRows(rows[id := row])
  {
    hide IndexName, VisibleName;
  }

  function CopiedName(row: Row): string {
    StoredName(row.name, CreatedExt(row.kind, row.ext), row.kind.File?)
  }

  /** No two siblings below the root will be stored under one name. */
  predicate CopiesApart(rows: map<Id, Row>, root: Id) {
    forall a <- Subtree(rows, root), b <- Subtree(rows, root) |
      a in rows && b in rows && a != b && a != root && b != root && rows[a].parent == rows[b].parent ::
      CopiedName(rows[a]) != CopiedName(rows[b])
  }

  /** A copy under the index is only possible when its rows are apart. */
  lemma UniqueCopiesApart(rows: map<Id, Row>, rows': map<Id, Row>, root: Id, parentId: Id, image: map<Id, Id>)
    requires IsCopy(rows, rows', root, parentId, image) && UniqueRows(rows')
    ensures CopiesApart(rows, root)
  {
    hide Subtree, CreatedExt, StoredName;
    forall a, b | a in Subtree(rows, root) && b in Subtree(rows, root) && a in rows && b in rows && a != b && a != root
        && b != root &&
                  rows[a].parent == rows[b].parent
      ensures CopiedName(rows[a]) != CopiedName(rows[b])
    {
      assert IsCopyOf(rows, rows', root, parentId, image, a) && IsCopyOf(rows, rows', root, parentId, image, b);
      assert image[a] in rows' && image[b] in rows' && image[a] != image[b];
      assert IndexName(rows'[image[a]]) != IndexName(rows'[image[b]]);
    }
  }

  lemma CanonicalIsStored(ext: string)
    requires CanonicalExt(ext)
    ensures StoredExt(ext) == ext
  {
    assert |TrimSpace(ext)| <= |ext|;
    assert |TrimDot(TrimSpace(ext))| <= |TrimSpace(ext)|;
    assert TrimSpace(ext) == ext;
  }

  /** Files with canonical extensions are stored under the names they have, so they never get in each other's way. */
  lemma CanonicalCopiesApart(rows: map<Id, Row>, root: Id)
    requires UniqueRows(rows) && forall n <- Subtree(rows, root) | n in rows && rows[n].kind.File? ::
             CanonicalExt(rows[n].ext)
    ensures CopiesApart(rows, root)
  {
    forall n | n in Subtree(rows, root) && n in rows ensures CopiedName(rows[n]) == IndexName(rows[n]) {
      if rows[n].kind.File? {
        CanonicalIsStored(rows[n].ext);
      }
    }
    hide Subtree, CopiedName, IndexName, CanonicalExt;
  }

  /** Folder 2 with files a of extension x and of extension .x: apart for the index, and one name when copied. */
  const DOTTED: map<Id, Row> :=
    map[1 := Row(0, Directory, "r", "", 0, Loc("", ""), ""), 2 := Row(1, Directory, "d", "", 0, Loc("", ""), ""),
        3 := Row(2, File, "a", "x", 0, Loc("", ""), ""), 4 := Row(2, File, "a", ".x", 0, Loc("", ""), "")]

  lemma DottedExtensions()
    ensures StoredExt("x") == "x" && StoredExt(".x") == "x"
  {
    assert Trimmed("x") && Trimmed(".x");
    assert TrimSpace("x") == "x" && TrimSpace(".x") == ".x";
    hide TrimSpace, Trimmed;
  }

  lemma DottedSubtree()
    ensures IsForest(Parents(DOTTED)) && 3 in Subtree(DOTTED, 2) && 4 in Subtree(DOTTED, 2)
  {
    assert Parents(DOTTED) == map[1 := 0, 2 := 1, 3 := 2, 4 := 2];
    assert RankedBy(Parents(DOTTED), map n | n in Parents(DOTTED) :: n);
    PathUnfold(Parents(DOTTED), 2);
    PathUnfold(Parents(DOTTED), 3);
    PathUnfold(Parents(DOTTED), 4);
    hide Path, IsForest;
  }

  lemma DottedCollide()
    ensures UniqueRows(DOTTED) && !CopiesApart(DOTTED, 2)
  {
    DottedExtensions();
    DottedSubtree();
    hide Subtree, StoredExt, Parents, IsForest;
    assert "a" + "." + "x" != "a" + "." + ".x";
    assert CopiedName(DOTTED[3]) == CopiedName(DOTTED[4]);
    assert IndexName(DOTTED[3]) == "a" + "." + "x" && IndexName(DOTTED[4]) == "a" + "." + ".x";
  }

  // ----- the name of the new root -----

  /** A live child of p is shown under this name. */
  ghost predicate Shown(rows: map<Id, Row>, p: Id, text: string) {
    exists c <- rows :: rows[c].parent == p && VisibleName(rows[c].name, rows[c].ext, rows[c].kind.File?) == text
  }

  /** The asked name, or with auto-rename on a name already shown, the first numbered one that is not. */
  ghost predicate Resolves(rows: map<Id, Row>, p: Id, asked: string, ext: string, file: bool, autoRename: bool,
        name: string) {
    if !autoRename || !Shown(rows, p, VisibleName(asked, ext, file)) then name == asked
    else
      !Shown(rows, p, VisibleName(name, ext, file)) &&
      exists i | 1 <= i <= AutoRename.MAX_ATTEMPTS :: name == AutoRename.Candidate(asked, i) &&
        forall j | 1 <= j < i :: Shown(rows, p, VisibleName(AutoRename.Candidate(asked, j), ext, file))
  }

  /** The name and extension that the request asks for. */
  function Asked(row: Row, name: string): (string, string) {
    if name == "" || CopyNodeName(name, row.kind).Err? then (row.name, row.ext) else CopyNodeName(name, row.kind).value
  }

  ghost predicate RootIsNamed(rows: map<Id, Row>, parentId: Id, asked: (string, string), kind: Kind, autoRename: bool,
        to: Row) {
    && to.ext == CreatedExt(kind, asked.1)
    && Resolves(rows, parentId, asked.0, NormalizeExt(asked.1), kind.File?, autoRename, to.name)
  }

  /** ListDirectChildren, as the names are compared. */
  method SiblingsOf(rows: map<Id, Row>, p: Id) returns (siblings: seq<AutoRename.Sibling>)
    ensures forall text :: text in AutoRename.ShownNames(siblings) <==> Shown(rows, p, text)
  {
    siblings := [];
    var rest := rows.Keys;
    while rest != {}
      invariant rest <= rows.Keys
      invariant forall s <- siblings :: exists c <- rows :: rows[c].parent == p && s == SiblingOf(rows[c])
      invariant forall c <- rows | c !in rest && rows[c].parent == p :: SiblingOf(rows[c]) in siblings
      decreases rest
    {
      var c :| c in rest;
      rest := rest - {c};
      if rows[c].parent == p {
        siblings := siblings + [SiblingOf(rows[c])];
      }
    }
    ShownAre(rows, p, siblings);
  }

  function SiblingOf(row: Row): AutoRename.Sibling {
    AutoRename.Sibling(row.name, row.ext, row.kind.File?)
  }

  lemma ShownAre(rows: map<Id, Row>, p: Id, siblings: seq<AutoRename.Sibling>)
    requires forall s <- siblings :: exists c <- rows :: rows[c].parent == p && s == SiblingOf(rows[c])
    requires forall c <- rows | rows[c].parent == p :: SiblingOf(rows[c]) in siblings
    ensures forall text :: text in AutoRename.ShownNames(siblings) <==> Shown(rows, p, text)
  {
    hide VisibleName;
    forall text | Shown(rows, p, text) ensures text in AutoRename.ShownNames(siblings) {
      var c :| c in rows && rows[c].parent == p && VisibleName(rows[c].name, rows[c].ext, rows[c].kind.File?) == text;
      assert SiblingOf(rows[c]) in siblings;
    }
  }

  /** resolveCreateNodeName for the root of the copy. */
  method RootName(rows: map<Id, Row>, p: Id, asked: string, ext: string, file: bool, autoRename: bool)
        returns (name: Option<string>)
    ensures name.Some? ==> Resolves(rows, p, asked, ext, file, autoRename, name.value)
  {
    hide VisibleName, AutoRename.Candidate, Shown, AutoRename.ShownNames;
    if !autoRename {
      return Some(asked);
    }
    var siblings := SiblingsOf(rows, p);
    name := AutoRename.ResolveAutoRenamedNodeName(asked, ext, file, siblings);
  }

  // ----- the shape of the result -----

  /** The ways up from old nodes do not see the copy. */
  lemma {:induction false} OldPathsStay(rows: map<Id, Row>, rows': map<Id, Row>, image: map<Id, Id>, n: Id)
    requires IsExtension(rows, rows', image) && IsForest(Parents(rows)) && IsForest(Parents(rows'))
    requires n in rows || n !in rows'
    ensures Path(Parents(rows'), n) == Path(Parents(rows), n)
    decreases |Path(Parents(rows), n)|
  {
    PathUnfold(Parents(rows), n);
    PathUnfold(Parents(rows'), n);
    if n in rows {
      OldPathsStay(rows, rows', image, rows[n].parent);
    }
  }

  /** The copy of the root is on the way up from every copied node. */
  lemma {:induction false} CopiesAreBelow(rows: map<Id, Row>, rows': map<Id, Row>, root: Id, parentId: Id,
        image: map<Id, Id>, n: Id)
    requires Valid(rows) && IsCopy(rows, rows', root, parentId, image) && IsForest(Parents(rows'))
    requires root in image && n in image
    ensures image[root] in Path(Parents(rows'), image[n])
    decreases |Path(Parents(rows), n)|
  {
    hide IsExtension;
    PathUnfold(Parents(rows'), image[n]);
    assert IsCopyOf(rows, rows', root, parentId, image, n);
    if n != root {
      PathUnfold(Parents(rows), n);
      CopiesAreBelow(rows, rows', root, parentId, image, rows[n].parent);
    }
  }

  /** The way up from a copied node leaves the copy at the new parent, so it does not meet the source root. */
  lemma {:induction false} CopiesAreApart(rows: map<Id, Row>, rows': map<Id, Row>, root: Id, parentId: Id,
        image: map<Id, Id>, n: Id)
    requires Valid(rows) && IsCopy(rows, rows', root, parentId, image) && IsForest(Parents(rows'))
    requires n in image && root in rows && parentId in rows && root !in Path(Parents(rows), parentId)
    ensures root !in Path(Parents(rows'), image[n])
    decreases |Path(Parents(rows), n)|
  {
    PathUnfold(Parents(rows'), image[n]);
    assert IsCopyOf(rows, rows', root, parentId, image, n);
    OldPathsStay(rows, rows', image, parentId);
    hide Subtree;
    if n != root {
      PathUnfold(Parents(rows), n);
      CopiesAreApart(rows, rows', root, parentId, image, rows[n].parent);
    }
  }

  lemma CopyIsSubtree(rows: map<Id, Row>, rows': map<Id, Row>, root: Id, parentId: Id, image: map<Id, Id>)
    requires Valid(rows) && IsCopy(rows, rows', root, parentId, image) && IsForest(Parents(rows')) && root in image
    ensures Subtree(rows', image[root]) == image.Values
  {
    hide IsCopyOf, IsForest;
    forall x | x in image.Values ensures x in Subtree(rows', image[root]) {
      var n :| n in image && image[n] == x;
      CopiesAreBelow(rows, rows', root, parentId, image, n);
    }
    forall x | x in Subtree(rows', image[root]) ensures x in image.Values {
      if x in rows {
        OldPathsStay(rows, rows', image, x);
      }
    }
  }

  lemma SourceStays(rows: map<Id, Row>, rows': map<Id, Row>, root: Id, parentId: Id, image: map<Id, Id>)
    requires Valid(rows) && IsCopy(rows, rows', root, parentId, image) && IsForest(Parents(rows'))
    requires root in rows && parentId in rows && root !in Path(Parents(rows), parentId)
    ensures Subtree(rows', root) == Subtree(rows, root)
  {
    forall x | x in rows' ensures x in Subtree(rows', root) <==> x in Subtree(rows, root) {
      if x in rows {
        OldPathsStay(rows, rows', image, x);
      } else {
        var n :| n in image && image[n] == x;
        CopiesAreApart(rows, rows', root, parentId, image, n);
      }
    }
  }

  /** The subtree of the copied root is exactly the copied nodes, and the source subtree is as before. */
  lemma CopyHasTheShape(rows: map<Id, Row>, rows': map<Id, Row>, root: Id, parentId: Id, image: map<Id, Id>)
    requires Valid(rows) && IsCopy(rows, rows', root, parentId, image) && IsForest(Parents(rows')) && root in rows
    requires parentId in rows && root !in Path(Parents(rows), parentId)
    ensures root in image && Subtree(rows', image[root]) == image.Values
    ensures Subtree(rows', root) == Subtree(rows, root)
  {
    PathUnfold(Parents(rows), root);
    CopyIsSubtree(rows, rows', root, parentId, image);
    SourceStays(rows, rows', root, parentId, image);
  }

  // ----- creating the rows -----

  /** The first k items have been created. */
  ghost predicate Created(start: map<Id, Row>, rows: map<Id, Row>, root: Id, parentId: Id, items: seq<Item>, k: nat,
        image: map<Id, Id>) {
    && k <= |items|
    && image.Keys == SetOf(ItemIds(items)[..k])
    && IsExtension(start, rows, image)
    && forall j | 0 <= j < k :: items[j].id in image && IsCreated(rows, root, parentId, items[j], image)
  }

  ghost predicate IsCreated(rows: map<Id, Row>, root: Id, parentId: Id, item: Item, image: map<Id, Id>)
    requires item.id in image
  {
    && image[item.id] in rows
    && var to := rows[image[item.id]];
    && (item.id == root || item.row.parent in image)
    && to == CopyOf(item, if item.id == root then parentId else image[item.row.parent], to.name)
    && (item.id != root ==> to.name == item.row.name)
  }

  /** The parent of the next item has its copy. */
  lemma ParentIsMapped(rows: map<Id, Row>, root: Id, usedKeys: set<string>, items: seq<Item>, k: nat, image: map<Id,
        Id>)
    requires IsPlan(rows, root, usedKeys, items) && 0 < k < |items| && image.Keys == SetOf(ItemIds(items)[..k])
    ensures items[k].row.parent in image && items[k].id != root && items[k].id !in image
  {
    var ids := ItemIds(items);
    assert items[k].row == rows[ids[k]];
    var j :| 0 <= j < k && ids[j] == rows[ids[k]].parent;
    assert ids[..k][j] in SetOf(ids[..k]);
    hide Subtree;
  }

  lemma ExtendOne(start: map<Id, Row>, rows: map<Id, Row>, image: map<Id, Id>, n: Id, id: Id, row: Row)
    requires IsExtension(start, rows, image) && n !in image
    requires id !in rows && id != 0 && forall m <- rows :: rows[m].parent != id
    ensures IsExtension(start, rows[id := row], image[n := id])
  {
    var image' := image[n := id];
    assert image'[n] == id;
    forall x | x in image.Values ensures x in image'.Values {
      var m :| m in image && image[m] == x;
      assert image'[m] == x;
    }
    assert image'.Values == image.Values + {id};
  }

  lemma StaysCreated(rows: map<Id, Row>, root: Id, parentId: Id, item: Item, image: map<Id, Id>, n: Id, id: Id,
        row: Row)
    requires item.id in image && IsCreated(rows, root, parentId, item, image) && n !in image && id !in rows
    ensures item.id in image[n := id] && IsCreated(rows[id := row], root, parentId, item, image[n := id])
  {
    hide CopyOf;
  }

  function AskedOf(item: Item): (string, string) {
    (item.row.name, item.row.ext)
  }

  ghost predicate NamedRoot(start: map<Id, Row>, rows: map<Id, Row>, root: Id, parentId: Id, items: seq<Item>,
        autoRename: bool, image: map<Id, Id>)
    requires items != [] && root in image
  {
    image[root] in rows && RootIsNamed(start, parentId, AskedOf(items[0]), items[0].row.kind, autoRename,
        rows[image[root]])
  }

  lemma FirstIsNamed(start: map<Id, Row>, root: Id, parentId: Id, items: seq<Item>, autoRename: bool, id: Id,
        name: string)
    requires items != [] && items[0].id == root
    requires var row := items[0].row;
             Resolves(start, parentId, row.name, NormalizeExt(row.ext), row.kind.File?, autoRename, name)
    ensures NamedRoot(start, start[id := CopyOf(items[0], parentId, name)], root, parentId, items, autoRename,
            map[root := id])
  {
    hide Resolves, CreatedExt, NormalizeExt;
  }

  lemma NamedStays(start: map<Id, Row>, rows: map<Id, Row>, root: Id, parentId: Id, items: seq<Item>, autoRename: bool,
        image: map<Id, Id>,
                   n: Id, id: Id, row: Row)
    requires items != [] && root in image && NamedRoot(start, rows, root, parentId, items, autoRename, image)
    requires n != root && id !in rows
    ensures NamedRoot(start, rows[id := row], root, parentId, items, autoRename, image[n := id])
  {
    hide RootIsNamed;
  }

  lemma NothingCreated(start: map<Id, Row>, root: Id, parentId: Id, items: seq<Item>)
    ensures Created(start, start, root, parentId, items, 0, map[])
  {
  }

  lemma PlanHasRoot(rows: map<Id, Row>, root: Id, usedKeys: set<string>, items: seq<Item>)
    requires IsPlan(rows, root, usedKeys, items)
    ensures items != [] && items[0].id == root && root in rows && items[0].row.kind == rows[root].kind
  {
    assert ItemIds(items)[0] == items[0].id;
  }

  lemma CopyOfNames(item: Item, parent: Id, name: string)
    ensures CopyOf(item, parent, name).name == name && CopyOf(item, parent, name).parent == parent
  {
  }

  lemma NextIsCreated(rows: map<Id, Row>, root: Id, parentId: Id, item: Item, image: map<Id, Id>, id: Id, row: Row)
    requires item.id !in image && (item.id == root || item.row.parent in image)
    requires row == CopyOf(item, if item.id == root then parentId else image[item.row.parent], row.name)
    requires item.id != root ==> row.name == item.row.name
    ensures IsCreated(rows[id := row], root, parentId, item, image[item.id := id])
  {
  }

  lemma NextKeys(items: seq<Item>, k: nat, image: map<Id, Id>, id: Id)
    requires k < |items| && image.Keys == SetOf(ItemIds(items)[..k])
    ensures image[items[k].id := id].Keys == SetOf(ItemIds(items)[..k + 1])
  {
    assert ItemIds(items)[..k + 1] == ItemIds(items)[..k] + [items[k].id];
  }

  lemma CreateNext(start: map<Id, Row>, rows: map<Id, Row>, root: Id, parentId: Id, items: seq<Item>, k: nat,
        image: map<Id, Id>,
                   id: Id, row: Row)
    requires Created(start, rows, root, parentId, items, k, image) && k < |items|
    requires id !in rows && id != 0 && (forall n <- rows :: rows[n].parent != id) && items[k].id !in image
    requires items[k].id == root || items[k].row.parent in image
    requires row == CopyOf(items[k], if items[k].id == root then parentId else image[items[k].row.parent], row.name)
    requires items[k].id != root ==> row.name == items[k].row.name
    ensures Created(start, rows[id := row], root, parentId, items, k + 1, image[items[k].id := id])
  {
    hide IsExtension, SetOf, CopyOf, IsCreated;
    var (rows', image') := (rows[id := row], image[items[k].id := id]);
    ExtendOne(start, rows, image, items[k].id, id, row);
    NextKeys(items, k, image, id);
    forall j | 0 <= j < k + 1 ensures items[j].id in image' && IsCreated(rows', root, parentId, items[j], image') {
      if j < k {
        StaysCreated(rows, root, parentId, items[j], image, items[k].id, id, row);
      } else {
        NextIsCreated(rows, root, parentId, items[k], image, id, row);
      }
    }
  }

  /** What the loop knows when it reaches item k: where the new row goes, and that it is a directory. */
  lemma PlanStep(start: map<Id, Row>, rows: map<Id, Row>, root: Id, parentId: Id, usedKeys: set<string>,
        items: seq<Item>,
                 k: nat, image: map<Id, Id>)
    requires Valid(start) && IsPlan(start, root, usedKeys, items) && k < |items|
    requires Created(start, rows, root, parentId, items, k, image)
    requires parentId in start && start[parentId].kind.Directory?
    ensures items[k].id !in image && (k == 0 <==> items[k].id == root) && (k > 0 ==> items[k].row.parent in image)
    ensures var parent := if k == 0 then parentId else image[items[k].row.parent];
            parent in rows && rows[parent].kind.Directory?
  {
    var ids := ItemIds(items);
    if k > 0 {
      ParentIsMapped(start, root, usedKeys, items, k, image);
      var p := items[k].row.parent;
      var j :| 0 <= j < k && ids[j] == p;
      assert IsCreated(rows, root, parentId, items[j], image);
      assert items[k].row == start[ids[k]] && start[p].kind.Directory?;
    }
  }

  /** All items created: a copy. */
  lemma AllCreated(start: map<Id, Row>, rows: map<Id, Row>, root: Id, parentId: Id, usedKeys: set<string>,
        items: seq<Item>, image: map<Id, Id>)
    requires IsPlan(start, root, usedKeys, items) && Created(start, rows, root, parentId, items, |items|, image)
    ensures IsCopy(start, rows, root, parentId, image)
  {
    var ids := ItemIds(items);
    assert ids[..|ids|] == ids;
    hide IsExtension, Subtree;
    forall n | n in image ensures IsCopyOf(start, rows, root, parentId, image, n) {
      var k :| 0 <= k < |ids| && ids[k] == n;
      assert IsCreated(rows, root, parentId, items[k], image);
      assert items[k].row == start[n] || k == 0;
    }
  }

  /** Nodes never hang under their own copies, so the tree stays a forest of directories. */
  lemma CopyKeepsValid(rows: map<Id, Row>, id: Id, row: Row)
    requires Valid(rows) && id !in rows && id != 0 && (forall n <- rows :: rows[n].parent != id)
    requires row.parent in rows && rows[row.parent].kind.Directory?
    ensures Valid(rows[id := row])
  {
    AddLeafKeepsForest(Parents(rows), id, row.parent);
    assert Parents(rows[id := row]) == Parents(rows)[id := row.parent];
  }

  lemma FreshRowId(rows: map<Id, Row>)
    ensures exists id: Id :: id != 0 && id !in rows && forall n <- rows :: rows[n].parent != id
  {
    var taken := rows.Keys + (set n | n in rows :: rows[n].parent);
    FreshId(taken);
    var id: Id :| id != 0 && id !in taken;
    assert forall n <- rows :: rows[n].parent in taken;
  }

  /** Objects under used keys are still there. */
  predicate KeepsUsed(before: map<Loc, int>, after: map<Loc, int>, usedKeys: set<string>) {
    forall l <- before | l.key in usedKeys :: l in after && after[l] == before[l]
  }

  predicate StoreKeysUsed(objects: map<Loc, int>, usedKeys: set<string>) {
    forall l <- objects :: l.key in usedKeys
  }

  predicate HoldsCopies(objects: map<Loc, int>, items: seq<Item>) {
    forall item <- items | item.key != "" ::
      var l := Loc(item.row.loc.provider, item.key);
      l in objects && objects[l] == item.row.fileSize
  }

  lemma UsedTwice(a: map<Loc, int>, b: map<Loc, int>, c: map<Loc, int>, usedKeys: set<string>)
    requires KeepsUsed(a, b, usedKeys) && KeepsUsed(b, c, usedKeys)
    ensures KeepsUsed(a, c, usedKeys)
  {
  }

  lemma StillBacked(rows: map<Id, Row>, before: map<Loc, int>, after: map<Loc, int>, usedKeys: set<string>)
    requires Backed(rows, before) && KeepsUsed(before, after, usedKeys) && StoreKeysUsed(before, usedKeys)
    ensures Backed(rows, after)
  {
  }

  /** With the new objects in place the new rows are backed too. */
  lemma CopyIsBacked(start: map<Id, Row>, rows: map<Id, Row>, root: Id, parentId: Id, items: seq<Item>, image: map<Id,
        Id>, objects: map<Loc, int>)
    requires Created(start, rows, root, parentId, items, |items|, image)
    requires Backed(start, objects) && HoldsCopies(objects, items)
    ensures Backed(rows, objects)
  {
    var ids := ItemIds(items);
    assert ids[..|ids|] == ids;
    forall x | x in rows && rows[x].kind.File? && rows[x].loc.key != ""
      ensures rows[x].loc in objects && objects[rows[x].loc] == rows[x].fileSize
    {
      if x !in start {
        var n :| n in image && image[n] == x;
        var k :| 0 <= k < |ids| && ids[k] == n;
        hide IsExtension, Backed;
        assert IsCreated(rows, root, parentId, items[k], image);
        assert items[k] in items;
      }
    }
  }

  lemma SameObjects(objects: map<Loc, int>, usedKeys: set<string>)
    ensures KeepsUsed(objects, objects, usedKeys)
  {
  }

  lemma PlanFacts(rows: map<Id, Row>, nodeId: Id, parentId: Id, recursive: bool, usedKeys: set<string>,
        items: seq<Item>)
    requires IsPlan(rows, nodeId, usedKeys, items) && MayCopy(rows, nodeId, parentId, recursive)
    ensures KeysFit(items, |items|, usedKeys) && nodeId in rows && parentId in rows && rows[parentId].kind.Directory?
  {
  }

  lemma CopyHasRoot(rows: map<Id, Row>, rows': map<Id, Row>, root: Id, parentId: Id, image: map<Id, Id>)
    requires Valid(rows) && IsCopy(rows, rows', root, parentId, image) && root in rows
    ensures root in image
  {
    PathUnfold(Parents(rows), root);
  }

  class NodeUseCase {
    /** The live rows of the library, the object stores, and every key ever handed out. */
    var rows: map<Id, Row>
    var store: Storage
    var usedKeys: set<string>

    ghost predicate Consistent()
      reads this
    {
      Valid(rows) && UniqueRows(rows) && Backed(rows, store.objects) && StoreKeysUsed(store.objects, usedKeys)
    }

    constructor (rows: map<Id, Row>, store: Storage, usedKeys: set<string>)
      requires Valid(rows) && UniqueRows(rows) && Backed(rows, store.objects) && StoreKeysUsed(store.objects, usedKeys)
      ensures Consistent() && this.rows == rows && this.store == store
    {
      this.rows, this.store, this.usedKeys := rows, store, usedKeys;
    }

    /** createInExistingTransaction for one item; `resolved` is the name it ends up with. Besides any other failure it
        is refused for a name that is not free. */
    method CreateRow(item: Item, parentId: Id, resolved: string) returns (r: Result<Id, CopyError>)
      requires Valid(rows) && UniqueRows(rows) && parentId in rows && rows[parentId].kind.Directory?
      modifies this`rows
      ensures Valid(rows) && UniqueRows(rows)
      ensures r.Err? ==> rows == old(rows) && r.error in {NameExists, CreateFailed}
      ensures r == Err(NameExists) ==> !NameFree(old(rows), CopyOf(item, parentId, resolved))
      ensures r.Ok? ==>
              && NameFree(old(rows), CopyOf(item, parentId, resolved))
              && r.value != 0 && r.value !in old(rows) && (forall n <- old(rows) :: old(rows)[n].parent != r.value)
              && rows == old(rows)[r.value := CopyOf(item, parentId, resolved)]
    {
      hide UniqueRows, NameFree, CreatedExt;
      var works: bool := *;
      if !works {
        return Err(CreateFailed);
      }
      var row := CopyOf(item, parentId, resolved);
      if !NameFree(rows, row) {
        return Err(NameExists);
      }
      FreshRowId(rows);
      var id: Id :| id != 0 && id !in rows && forall n <- rows :: rows[n].parent != id;
      CopyKeepsValid(rows, id, row);
      FreeKeepsUnique(rows, id, row);
      hide Valid;
      rows := rows[id := row];
      r := Ok(id);
    }

    /** The row of item k, under the new row of its parent. */
    method CreateItem(ghost start: map<Id, Row>, items: seq<Item>, k: nat, root: Id, parentId: Id, autoRename: bool,
          image: map<Id, Id>)
      returns (ok: bool, image': map<Id, Id>, why: CopyError)
      requires Valid(start) && IsPlan(start, root, usedKeys, items) && k < |items|
      requires parentId in start && start[parentId].kind.Directory?
      requires Valid(rows) && UniqueRows(rows) && Created(start, rows, root, parentId, items, k, image)
      requires if k == 0 then rows == start && image == map[]
               else root in image && NamedRoot(start, rows, root, parentId, items, autoRename, image)
      modifies this`rows
      ensures ok ==> Valid(rows) && UniqueRows(rows) && Created(start, rows, root, parentId, items, k + 1, image')
      ensures why in {NameExists, CreateFailed}
      ensures ok ==> root in image' && NamedRoot(start, rows, root, parentId, items, autoRename, image')
    {
      hide Valid, UniqueRows, NameFree, IsPlan, Created, Resolves, NamedRoot;
      why := CreateFailed;
      PlanStep(start, rows, root, parentId, usedKeys, items, k, image);
      var parent := if k == 0 then parentId else image[items[k].row.parent];
      var name := items[k].row.name;
      if k == 0 {
        var resolved := RootName(rows, parentId, name, NormalizeExt(items[k].row.ext), items[k].row.kind.File?,
            autoRename);
        if resolved.None? {
          return false, image, NameExists;
        }
        name := resolved.value;
      }
      ghost var before := rows;
      var created := CreateRow(items[k], parent, name);
      if created.Err? {
        return false, image, created.error;
      }
      CopyOfNames(items[k], parent, name);
      CreateNext(start, before, root, parentId, items, k, image, created.value, CopyOf(items[k], parent, name));
      ok, image' := true, image[items[k].id := created.value];
      if k == 0 {
        FirstIsNamed(start, root, parentId, items, autoRename, created.value, name);
      } else {
        NamedStays(start, before, root, parentId, items, autoRename, image, items[k].id, created.value,
            rows[created.value]);
      }
    }

    /** The first loop of the transaction: a new row for every item. */
    method CreateRows(items: seq<Item>, root: Id, parentId: Id, autoRename: bool)
      returns (ok: bool, image: map<Id, Id>, why: CopyError)
      requires Valid(rows) && UniqueRows(rows) && IsPlan(rows, root, usedKeys, items)
      requires items != [] && parentId in rows && rows[parentId].kind.Directory?
      modifies this`rows
      ensures ok ==> Valid(rows) && UniqueRows(rows) && IsCopy(old(rows), rows, root, parentId, image) &&
                     Created(old(rows), rows, root, parentId, items, |items|, image)
      ensures why in {NameExists, CreateFailed}
      ensures ok ==> root in image && NamedRoot(old(rows), rows, root, parentId, items, autoRename, image)
    {
      hide Valid, UniqueRows, IsPlan, Created, IsCopy, NamedRoot;
      image, why := map[], CreateFailed;
      ghost var start := rows;
      NothingCreated(start, root, parentId, items);
      PlanHasRoot(rows, root, usedKeys, items);
      for k := 0 to |items|
        invariant Valid(rows) && UniqueRows(rows) && Created(start, rows, root, parentId, items, k, image)
        invariant why in {NameExists, CreateFailed}
        invariant k == 0 ==> rows == start && image == map[]
        invariant k > 0 ==> root in image && NamedRoot(start, rows, root, parentId, items, autoRename, image)
      {
        ok, image, why := CreateItem(start, items, k, root, parentId, autoRename, image);
        if !ok {
          return;
        }
      }
      AllCreated(start, rows, root, parentId, usedKeys, items, image);
      ok := true;
    }

    /** copyNodeObject for every file. `uploaded` lists the items whose object may exist, for the clean-up. */
    method CopyObjects(items: seq<Item>) returns (ok: bool, uploaded: seq<Item>)
      requires KeysFit(items, |items|, usedKeys)
      modifies this`store
      ensures store.buckets == old(store).buckets
      ensures forall item <- uploaded :: item in items && item.key != ""
      ensures forall l <- store.objects :: l in old(store).objects || exists item <- items ::
              item.key != "" && item.key == l.key
      ensures KeepsUsed(old(store).objects, store.objects, usedKeys)
      ensures ok ==> HoldsCopies(store.objects, items)
    {
      uploaded := [];
      ghost var start := store;
      for k := 0 to |items|
        invariant store.buckets == start.buckets
        invariant forall item <- uploaded :: item in items && item.key != ""
        invariant forall l <- store.objects :: l in start.objects || exists item <- items ::
                  item.key != "" && item.key == l.key
        invariant KeepsUsed(start.objects, store.objects, usedKeys)
        invariant forall j | 0 <= j < k && items[j].key != "" ::
          var l := Loc(items[j].row.loc.provider, items[j].key);
          l in store.objects && store.objects[l] == items[j].row.fileSize
      {
        if items[k].key != "" {
          uploaded := uploaded + [items[k]];
          var at := Loc(items[k].row.loc.provider, items[k].key);
          var works: bool, partial: Option<int> := *, *;
          if !works {
            if partial.Some? {
              store := store.(objects := store.objects[at := partial.value]);
            }
            return false, uploaded;
          }
          store := store.(objects := store.objects[at := items[k].row.fileSize]);
        }
      }
      ok := true;
    }

    /** cleanupNodeCopies: best effort, on the new keys only. */
    method CleanupNodeCopies(uploaded: seq<Item>)
      requires forall item <- uploaded :: item.key !in usedKeys
      modifies this`store
      ensures store.buckets == old(store).buckets && store.objects.Keys <= old(store).objects.Keys
      ensures KeepsUsed(old(store).objects, store.objects, usedKeys)
    {
      ghost var start := store;
      for k := 0 to |uploaded|
        invariant store.buckets == start.buckets && store.objects.Keys <= start.objects.Keys
        invariant KeepsUsed(start.objects, store.objects, usedKeys)
      {
        var works: bool := *;
        if works {
          store := store.(objects := store.objects - {Loc(uploaded[k].row.loc.provider, uploaded[k].key)});
        }
      }
    }

    /** The objects of the copy; when one fails, the clean-up. */
    method UploadOrCleanUp(items: seq<Item>) returns (ok: bool)
      requires KeysFit(items, |items|, usedKeys) && StoreKeysUsed(store.objects, usedKeys)
      modifies this`store, this`usedKeys
      ensures KeepsUsed(old(store).objects, store.objects, old(usedKeys)) && StoreKeysUsed(store.objects, usedKeys)
      ensures ok ==> HoldsCopies(store.objects, items)
    {
      assert forall item <- items :: item.key == "" || item.key !in usedKeys;
      var uploaded: seq<Item>;
      ok, uploaded := CopyObjects(items);
      hide KeysFit, HoldsCopies;
      if !ok {
        ghost var during := store.objects;
        CleanupNodeCopies(uploaded);
        UsedTwice(old(store).objects, during, store.objects, usedKeys);
      }
      hide KeepsUsed;
      usedKeys := usedKeys + set item | item in items :: item.key;
    }

    /** The second half of the transaction, and its end. */
    method UploadAndCommit(start: map<Id, Row>, items: seq<Item>, root: Id, parentId: Id, image: map<Id, Id>)
          returns (r: Result<Id, CopyError>)
      requires Valid(start) && UniqueRows(start) && Backed(start, store.objects)
      requires Valid(rows) && UniqueRows(rows) && StoreKeysUsed(store.objects, usedKeys)
      requires KeysFit(items, |items|, usedKeys) && root in image
      requires Created(start, rows, root, parentId, items, |items|, image)
      modifies this
      ensures Consistent() && rows in {start, old(rows)}
      ensures KeepsUsed(old(store).objects, store.objects, old(usedKeys))
      ensures r.Ok? ==> rows == old(rows) && r.value == image[root]
      ensures r.Err? && r.error != CommitUnknown ==> rows == start
    {
      hide Valid, UniqueRows, Created, KeysFit, Backed, KeepsUsed, HoldsCopies, StoreKeysUsed;
      ghost var (before, used) := (store.objects, usedKeys);
      var ok := UploadOrCleanUp(items);
      StillBacked(start, before, store.objects, used);
      if !ok {
        rows := start;
        return Err(UploadFailed);
      }
      CopyIsBacked(start, rows, root, parentId, items, image, store.objects);
      var end: TxEnd := *;
      if end.ErrorRolledBack? {
        rows := start;
      }
      r := if end.Commits? then Ok(image[root]) else Err(CommitUnknown);
    }

    /** Copy. Success means the subtree has been doubled under the new parent; a plain failure and a dry
        run change no row; an unknown commit did one or the other. Existing objects are never touched. */
    method Copy(nodeId: Id, parentId: Id, name: string, recursive: bool, autoRename: bool, dryRun: bool)
      returns (r: Result<Id, CopyError>, ghost image: map<Id, Id>)
      requires Consistent()
      modifies this
      ensures Consistent()
      ensures KeepsUsed(old(store).objects, store.objects, old(usedKeys))
      ensures r.Ok? ==> MayCopy(old(rows), nodeId, parentId, recursive) && Fits(old(rows), old(store), nodeId)
      ensures r.Ok? ==> CopiesApart(old(rows), nodeId)
      ensures r.Ok? && name != "" ==> nodeId in old(rows) && CopyNodeName(name, old(rows)[nodeId].kind).Ok?
      ensures r.Ok? && !dryRun ==>
                && IsCopy(old(rows), rows, nodeId, parentId, image) && nodeId in image && r.value == image[nodeId]
                && nodeId in old(rows) && r.value in rows
                && RootIsNamed(old(rows), parentId, Asked(old(rows)[nodeId], name), old(rows)[nodeId].kind, autoRename,
                   rows[r.value])
      ensures r.Err? && r.error == CommitUnknown
              ==> rows == old(rows) || IsCopy(old(rows), rows, nodeId, parentId, image)
      ensures dryRun || (r.Err? && r.error != CommitUnknown) ==> rows == old(rows)
      ensures dryRun ==> store == old(store)
    {
      hide Valid, UniqueRows, CopiesApart, Created, KeysFit, Backed, StoreKeysUsed, MayCopy, Fits, IsPlan, IsCopy,
           RootIsNamed;
      SameObjects(store.objects, usedKeys);
      image := map[];
      if nodeId == 0 || parentId == 0 {
        return Err(Refused(InvalidArgument)), image;
      }
      var start := rows;
      var planned := PlanNodeCopy(rows, store, nodeId, parentId, name, recursive, usedKeys);
      if planned.Err? {
        return Err(Refused(planned.error)), image;
      }
      var items := planned.value;
      PlanFacts(rows, nodeId, parentId, recursive, usedKeys, items);
      PlanHasRoot(rows, nodeId, usedKeys, items);
      hide KeepsUsed;
      var ok: bool, copies: map<Id, Id>, why: CopyError;
      ok, copies, why := CreateRows(items, nodeId, parentId, autoRename);
      image := copies;
      if ok {
        UniqueCopiesApart(start, rows, nodeId, parentId, copies);
      }
      if !ok || dryRun {
        rows := start;
        r := if ok then Ok(0) else Err(why);
        return;
      }
      CopyHasRoot(start, rows, nodeId, parentId, copies);
      r := UploadAndCommit(start, items, nodeId, parentId, copies);
    }
  }
}
