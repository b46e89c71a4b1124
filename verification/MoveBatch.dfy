/** Moving a selection of nodes under a new parent. Nodes below another selected node move with it;
    the rest are rebound one by one in one transaction. */
module MoveBatch {
  import opened Wrappers
  import opened GoText
  import opened Forest
  import opened ManyMoves
  import opened NodeNames
  import opened Sorting

  /** A live row of the nodes table; parent 0 stands for NULL, and what is not a directory is a file. */
  datatype Node = Node(library: nat, parent: Id, directory: bool, name: string, ext: string)

  datatype Item = Item(id: Id, name: string)

  datatype Error = InvalidArgument | NotFound | NameExists | IndexViolated

  datatype Report = Report(ids: seq<Id>, affected: seq<Id>)

  // ----- the tree of one library -----

  function LibraryParents(nodes: map<Id, Node>, library: nat): map<Id, Id> {
    map n | n in nodes && nodes[n].library == library :: nodes[n].parent
  }

  /** Every library is a forest and no row has id 0. */
  ghost predicate Valid(nodes: map<Id, Node>) {
    0 !in nodes && forall library :: IsForest(LibraryParents(nodes, library))
  }

  predicate Within(nodes: map<Id, Node>, library: nat, id: Id) {
    id in nodes && nodes[id].library == library
  }

  /** The rows after `ids` have been put under `parent`. */
  function Rebound(nodes: map<Id, Node>, ids: seq<Id>, parent: Id): map<Id, Node> {
    map n | n in nodes :: if n in ids then nodes[n].(parent := parent) else nodes[n]
  }

  // ----- names -----

  function IndexName(n: Node): string {
    StoredName(n.name, n.ext, !n.directory)
  }

  /** What the unique index guarantees at any time. */
  predicate UniqueNames(nodes: map<Id, Node>) {
    forall a <- nodes, b <- nodes | a != b && nodes[a].library == nodes[b].library
        && nodes[a].parent == nodes[b].parent ::
      IndexName(nodes[a]) != IndexName(nodes[b])
  }

  /** Another row under p in the library of id has this name in the index. */
  predicate Taken(nodes: map<Id, Node>, id: Id, p: Id, name: string)
    requires id in nodes
  {
    exists other <- nodes :: other != id && nodes[other].library == nodes[id].library && nodes[other].parent == p
        && IndexName(nodes[other]) == name
  }

  /** The name MoveNode looks for: the one asked for, or else the stored one, as it would be shown. */
  function CheckedName(n: Node, asked: string): string {
    VisibleName(if TrimSpace(asked) == "" then n.name else asked, n.ext, !n.directory)
  }

  /** MoveNode's look for a sibling of that name finds none, and neither does the index, which sees the stored name. */
  predicate NameFits(nodes: map<Id, Node>, id: Id, p: Id, asked: string) {
    id in nodes && !Taken(nodes, id, p, CheckedName(nodes[id], asked)) && !Taken(nodes, id, p, IndexName(nodes[id]))
  }

  /** A row whose name and extension are stored the way they are shown. */
  predicate PlainlyStored(n: Node) {
    Trimmed(n.name) && (!n.directory ==> CanonicalExt(n.ext))
  }

  lemma SameWithExt(a: string, b: string, ext: string)
    ensures a + "." + ext == b + "." + ext <==> a == b
  {
    if a + "." + ext == b + "." + ext {
      assert (a + "." + ext)[..|a|] == a && (b + "." + ext)[..|b|] == b;
    }
  }

  /** For a plainly stored row the check looks for the name the index will see exactly when no other name is asked
      for. */
  lemma PlainCheck(n: Node, asked: string)
    requires PlainlyStored(n)
    ensures CheckedName(n, asked) == IndexName(n) <==> TrimSpace(asked) == "" || TrimSpace(asked) == n.name
  {
    var name := if TrimSpace(asked) == "" then n.name else asked;
    assert TrimSpace(n.name) == n.name;
    ShownIsStored(name, n.name, n.ext, !n.directory);
    hide TrimSpace, NormalizeExt, VisibleName, StoredName;
  }

  lemma ShownIsStored(name: string, stored: string, ext: string, file: bool)
    requires file ==> CanonicalExt(ext)
    ensures VisibleName(name, ext, file) == StoredName(stored, ext, file) <==> TrimSpace(name) == stored
  {
    hide TrimSpace, NormalizeExt;
    SameWithExt(TrimSpace(name), stored, ext);
  }

  /** When the check looks for the stored name it finds what the index would. */
  lemma CheckCoversIndex(nodes: map<Id, Node>, id: Id, p: Id, asked: string)
    requires id in nodes && CheckedName(nodes[id], asked) == IndexName(nodes[id])
    ensures NameFits(nodes, id, p, asked) <==> !Taken(nodes, id, p, CheckedName(nodes[id], asked))
  {
  }

  /** The row as row 3 of a library, beside the folder 2 it moves to, where row 4 has its stored name. */
  function Occupied(n: Node): map<Id, Node> {
    map[1 := Node(n.library, 0, true, "r", ""),
        2 := Node(n.library, 1, true, if IndexName(n) == "a" then "b" else "a", ""),
        3 := n.(parent := 1),
        4 := Node(n.library, 2, true, IndexName(n), "")]
  }

  lemma OccupiedIsUnique(n: Node)
    ensures UniqueNames(Occupied(n)) && IndexName(Occupied(n)[4]) == IndexName(n) == IndexName(Occupied(n)[3])
  {
    hide StoredName;
    assert IndexName(Node(n.library, 2, true, IndexName(n), "")) == IndexName(n)
        by { DirectoryName(n.library, 2, IndexName(n)); }
    DirectoryName(n.library, 1, if IndexName(n) == "a" then "b" else "a");
  }

  lemma DirectoryName(library: nat, parent: Id, name: string)
    ensures IndexName(Node(library, parent, true, name, "")) == name
  {
  }

  /** Asked for under any other name, some library lets the row past the check and not past the index. */
  lemma OtherNamesHitIndex(n: Node, asked: string)
    requires CheckedName(n, asked) != IndexName(n)
    ensures var nodes := Occupied(n);
            && UniqueNames(nodes) && nodes[3] == n.(parent := 1)
            && !Taken(nodes, 3, 2, CheckedName(nodes[3], asked)) && Taken(nodes, 3, 2, IndexName(nodes[3]))
  {
    OccupiedIsUnique(n);
    hide IndexName, CheckedName, UniqueNames;
    assert CheckedName(n.(parent := 1), asked) == CheckedName(n, asked) by { SameChecked(n, asked); }
  }

  lemma SameChecked(n: Node, asked: string)
    ensures CheckedName(n.(parent := 1), asked) == CheckedName(n, asked)
  {
  }

  predicate SameNamed(a: Node, b: Node) {
    a.name == b.name && a.ext == b.ext && a.directory == b.directory
  }

  /** In every library the check keeps a row from the index, exactly when it looks for the stored name. */
  ghost predicate CheckSuffices(n: Node, asked: string) {
    forall nodes: map<Id, Node>, id: Id, p: Id | id in nodes && SameNamed(nodes[id], n) ::
      Taken(nodes, id, p, IndexName(nodes[id])) ==> Taken(nodes, id, p, CheckedName(nodes[id], asked))
  }

  lemma CheckSufficesExactly(n: Node, asked: string)
    ensures CheckSuffices(n, asked) <==> CheckedName(n, asked) == IndexName(n)
  {
    if CheckedName(n, asked) != IndexName(n) {
      OtherNamesHitIndex(n, asked);
      hide IndexName, CheckedName, Taken, UniqueNames;
      assert SameNamed(Occupied(n)[3], n);
      assert !CheckSuffices(n, asked);
    } else {
      hide Taken;
    }
  }

  /** File "a" asked for as "b", moved into a folder that shows "a" and not "b": the check passes, the index refuses. */
  lemma RenamedMoveHitsIndex()
    ensures var nodes := Occupied(Node(1, 0, false, "a", ""));
            && UniqueNames(nodes) && MayMove(nodes, 1, 3, 2, 0)
            && !Taken(nodes, 3, 2, CheckedName(nodes[3], "b")) && Taken(nodes, 3, 2, IndexName(nodes[3]))
  {
    var n := Node(1, 0, false, "a", "");
    assert Trimmed("a") && Trimmed("b") && Trimmed("");
    assert PlainlyStored(n);
    PlainCheck(n, "b");
    OtherNamesHitIndex(n, "b");
    OccupiedTarget(n);
    hide Occupied, Path, UniqueNames, Taken;
  }

  const OCCUPIED: map<Id, Id> := map[1 := 0, 2 := 1, 3 := 1, 4 := 2]

  lemma OccupiedIsForest()
    ensures IsForest(OCCUPIED) && OCCUPIED[1] == 0 && OCCUPIED[2] == 1 && 0 !in OCCUPIED
  {
    assert RankedBy(OCCUPIED, map n | n in OCCUPIED :: n);
  }

  lemma OccupiedPath()
    ensures 3 !in Path(OCCUPIED, 2)
  {
    OccupiedIsForest();
    hide Path, IsForest;
    PathUnfold(OCCUPIED, 1);
    PathUnfold(OCCUPIED, 0);
    assert Path(OCCUPIED, 1) == [1];
    PathUnfold(OCCUPIED, 2);
    assert Path(OCCUPIED, 2) == [2, 1];
  }

  lemma OccupiedTarget(n: Node)
    ensures MayMove(Occupied(n), n.library, 3, 2, 0)
  {
    OccupiedPath();
    assert LibraryParents(Occupied(n), n.library) == OCCUPIED by { hide IndexName; }
    hide Path, LibraryParents, IndexName;
  }

  /** A move that the index lets through keeps the names of siblings unique. */
  lemma MoveKeepsUnique(nodes: map<Id, Node>, id: Id, p: Id, asked: string)
    requires UniqueNames(nodes) && NameFits(nodes, id, p, asked)
    ensures UniqueNames(nodes[id := nodes[id].(parent := p)])
  {
    var moved := nodes[id].(parent := p);
    assert IndexName(moved) == IndexName(nodes[id]);
    hide IndexName;
  }

  // ----- which items move -----

  function Ids(items: seq<Item>): (ids: seq<Id>)
    ensures |ids| == |items| && forall k | 0 <= k < |ids| :: ids[k] == items[k].id
  {
    seq(|items|, k requires 0 <= k < |items| => items[k].id)
  }

  lemma IdsAppend(items: seq<Item>, item: Item)
    ensures Ids(items + [item]) == Ids(items) + [item.id]
  {
  }

  lemma IdsLast(items: seq<Item>)
    requires items != []
    ensures Ids(items) == Ids(items[..|items| - 1]) + [items[|items| - 1].id]
            && Ids(items)[..|items| - 1] == Ids(items[..|items| - 1])
  {
  }

  /** The first item of each id but 0, in order, with its name trimmed. */
  function FirstOfEach(items: seq<Item>): seq<Item> {
    if items == [] then []
    else
      var earlier := FirstOfEach(items[..|items| - 1]);
      var item := items[|items| - 1];
      if item.id == 0 || item.id in Ids(earlier) then earlier else earlier + [Item(item.id, TrimSpace(item.name))]
  }

  lemma {:induction false} FirstOfEachIds(items: seq<Item>)
    ensures forall id :: id in Ids(FirstOfEach(items)) <==> id != 0 && id in Ids(items)
    ensures forall i, j | 0 <= i < j < |FirstOfEach(items)| :: FirstOfEach(items)[i].id != FirstOfEach(items)[j].id
  {
    if items != [] {
      var (init, item) := (items[..|items| - 1], items[|items| - 1]);
      FirstOfEachIds(init);
      var earlier := FirstOfEach(init);
      FirstOfEachLast(items);
      assert forall k | 0 <= k < |earlier| :: earlier[k].id == Ids(earlier)[k];
      IdsLast(items);
      IdsAppend(earlier, Item(item.id, TrimSpace(item.name)));
      hide FirstOfEach, Ids, TrimSpace;
    }
  }

  lemma FirstOfEachLast(items: seq<Item>)
    requires items != []
    ensures var (earlier, item) := (FirstOfEach(items[..|items| - 1]), items[|items| - 1]);
            FirstOfEach(items) == if item.id == 0 || item.id in Ids(earlier) then earlier
                                  else earlier + [Item(item.id, TrimSpace(item.name))]
  {
  }

  /** Some other selected node lies above id. */
  predicate UnderSelected(parents: map<Id, Id>, selected: set<Id>, id: Id) {
    exists a <- Path(parents, id) :: a != id && a in selected
  }

  predicate Movable(parents: map<Id, Id>, selected: set<Id>, id: Id) {
    id in selected && !UnderSelected(parents, selected, id)
  }

  function Topmost(parents: map<Id, Id>, selected: set<Id>, ids: seq<Id>): (top: seq<Id>)
    ensures forall id :: id in top <==> id in ids && !UnderSelected(parents, selected, id)
    ensures (forall i, j | 0 <= i < j < |ids| :: ids[i] != ids[j]) ==> forall i, j | 0 <= i < j < |top| ::
            top[i] != top[j]
  {
    if ids == [] then []
    else
      var earlier := Topmost(parents, selected, ids[..|ids| - 1]);
      var id := ids[|ids| - 1];
      if UnderSelected(parents, selected, id) then earlier else earlier + [id]
  }

  /** The items of the topmost nodes. */
  function TopmostItems(parents: map<Id, Id>, selected: set<Id>, items: seq<Item>): (top: seq<Item>)
    ensures Ids(top) == Topmost(parents, selected, Ids(items))
  {
    if items == [] then []
    else
      var earlier := TopmostItems(parents, selected, items[..|items| - 1]);
      var item := items[|items| - 1];
      IdsLast(items);
      IdsAppend(earlier, item);
      if UnderSelected(parents, selected, item.id) then earlier else earlier + [item]
  }

  /** Above each selected node, or at it, is one that moves. */
  lemma {:induction false} SomeAncestorMoves(parents: map<Id, Id>, selected: set<Id>, id: Id)
    requires IsForest(parents) && id in selected && id in parents
    ensures exists top <- Path(parents, id) :: Movable(parents, selected, top)
    decreases |Path(parents, id)|
  {
    if !UnderSelected(parents, selected, id) {
      assert id in Path(parents, id) && Movable(parents, selected, id);
    } else {
      var a :| a in Path(parents, id) && a != id && a in selected;
      PathOfAncestor(parents, id, a);
      SomeAncestorMoves(parents, selected, a);
      var top :| top in Path(parents, a) && Movable(parents, selected, top);
      PathTransitive(parents, id, a, top);
    }
  }

  lemma SomethingMoves(parents: map<Id, Id>, selected: set<Id>, ids: seq<Id>)
    requires IsForest(parents) && ids != [] && forall id :: id in selected <==> id in ids
    requires forall id <- ids :: id in parents
    ensures Topmost(parents, selected, ids) != []
  {
    SomeAncestorMoves(parents, selected, ids[0]);
  }

  // ----- what a move does to the tree -----

  /** Everything at or below a moved node ends up below the new parent. */
  lemma {:induction false} LandsBelow(parents: map<Id, Id>, parents': map<Id, Id>, moved: seq<Id>, p: Id, n: Id,
        top: Id)
    requires IsForest(parents) && IsForest(parents') && p in parents
    requires parents'.Keys == parents.Keys
    requires forall m <- parents :: parents'[m] == if m in moved then p else parents[m]
    requires top in moved && top in Path(parents, n)
    ensures p in Path(parents', n)
    decreases |Path(parents, n)|
  {
    PathUnfold(parents, n);
    PathUnfold(parents', n);
    if n !in moved {
      assert n != top;
      LandsBelow(parents, parents', moved, p, parents[n], top);
    } else {
      PathUnfold(parents', p);
    }
  }

  lemma ReboundParents(nodes: map<Id, Node>, library: nat, ids: seq<Id>, p: Id, id: Id)
    requires Within(nodes, library, id) && id !in ids
    ensures var now := Rebound(nodes, ids, p);
            && Rebound(nodes, ids + [id], p) == now[id := now[id].(parent := p)]
            && LibraryParents(Rebound(nodes, ids + [id], p), library) == LibraryParents(now, library)[id := p]
  {
    var now := Rebound(nodes, ids, p);
    assert Rebound(nodes, ids + [id], p) == now[id := now[id].(parent := p)];
    assert LibraryParents(now[id := now[id].(parent := p)], library) == LibraryParents(now, library)[id := p];
  }

  /** Other libraries do not notice. */
  lemma ReboundElsewhere(nodes: map<Id, Node>, library: nat, ids: seq<Id>, p: Id, other: nat)
    requires forall id <- ids :: Within(nodes, library, id)
    requires other != library
    ensures LibraryParents(Rebound(nodes, ids, p), other) == LibraryParents(nodes, other)
  {
  }

  // ----- the code -----

  /** normalizeMoveBatchItems */
  method NormalizeMoveBatchItems(items: seq<Item>) returns (normalized: seq<Item>)
    ensures normalized == FirstOfEach(items)
  {
    var seen: set<Id> := {};
    normalized := [];
    for n := 0 to |items|
      invariant normalized == FirstOfEach(items[..n])
      invariant forall id :: id in seen <==> id in Ids(normalized)
    {
      assert items[..n + 1][..n] == items[..n];
      var id := items[n].id;
      if id == 0 || id in seen {
        continue;
      }
      seen := seen + {id};
      assert Ids(normalized + [Item(id, TrimSpace(items[n].name))]) == Ids(normalized) + [id];
      normalized := normalized + [Item(id, TrimSpace(items[n].name))];
    }
    assert items[..|items|] == items;
  }

  /** The inner loop of the filter: is some other selected node among the ancestors? */
  method HasSelectedAncestor(parents: map<Id, Id>, selected: set<Id>, id: Id) returns (found: bool)
    ensures found <==> UnderSelected(parents, selected, id)
  {
    var ancestors := Path(parents, id);
    for k := 0 to |ancestors|
      invariant forall j | 0 <= j < k :: ancestors[j] == id || ancestors[j] !in selected
    {
      if ancestors[k] == id {
        continue;
      }
      if ancestors[k] in selected {
        return true;
      }
    }
    found := false;
  }

  lemma TopmostItemsNext(parents: map<Id, Id>, selected: set<Id>, items: seq<Item>, n: nat)
    requires n < |items|
    ensures TopmostItems(parents, selected, items[..n + 1]) ==
      if UnderSelected(parents, selected, items[n].id) then TopmostItems(parents, selected, items[..n])
      else TopmostItems(parents, selected, items[..n]) + [items[n]]
  {
    assert items[..n + 1][..n] == items[..n];
    hide UnderSelected;
  }

  /** The items without a selected node above them. */
  method FilterMovable(parents: map<Id, Id>, items: seq<Item>, selected: set<Id>) returns (movable: seq<Item>)
    ensures movable == TopmostItems(parents, selected, items)
  {
    assert TopmostItems(parents, selected, items[..0]) == [];
    hide UnderSelected, TopmostItems;
    movable := [];
    for n := 0 to |items|
      invariant movable == TopmostItems(parents, selected, items[..n])
    {
      TopmostItemsNext(parents, selected, items, n);
      var hasSelectedAncestor := HasSelectedAncestor(parents, selected, items[n].id);
      if !hasSelectedAncestor {
        movable := movable + [items[n]];
      }
    }
    assert items[..|items|] == items;
  }

  /** MoveNode's own checks, on the rows as they are when the node's turn comes. */
  predicate MayMove(nodes: map<Id, Node>, library: nat, id: Id, newParent: Id, before: Id) {
    && Within(nodes, library, id) && id != newParent
    && (newParent != 0 ==>
          && Within(nodes, library, newParent) && nodes[newParent].directory
          && id !in Path(LibraryParents(nodes, library), newParent))
    && (before != 0 ==> Within(nodes, library, before) && nodes[before].parent == newParent)
  }

  /** The items of a batch that are rebound, in order. */
  function ToMove(nodes: map<Id, Node>, library: nat, items: seq<Item>): seq<Id> {
    var ids := Ids(FirstOfEach(items));
    Topmost(LibraryParents(nodes, library), (set id | id in ids), ids)
  }

  function MovableItems(nodes: map<Id, Node>, library: nat, items: seq<Item>): (movable: seq<Item>)
    ensures Ids(movable) == ToMove(nodes, library, items)
  {
    var ids := Ids(FirstOfEach(items));
    TopmostItems(LibraryParents(nodes, library), (set id | id in ids), FirstOfEach(items))
  }

  predicate SelectionOk(nodes: map<Id, Node>, library: nat, ids: seq<Id>) {
    ids != [] && forall id <- ids :: Within(nodes, library, id)
  }

  /** Each name fits when its node's turn comes, beside the nodes moved before it. */
  predicate NamesFit(nodes: map<Id, Node>, newParent: Id, movable: seq<Item>) {
    forall k | 0 <= k < |movable| ::
      NameFits(Rebound(nodes, Ids(movable)[..k], newParent), movable[k].id, newParent, movable[k].name)
  }

  predicate TargetOk(nodes: map<Id, Node>, library: nat, newParent: Id, before: Id, movable: seq<Item>) {
    var moved := Ids(movable);
    && Within(nodes, library, newParent) && nodes[newParent].directory
    && (forall id <- moved :: id !in Path(LibraryParents(nodes, library), newParent))
    && NamesFit(nodes, newParent, movable)
    && (before == 0 || before in moved || (Within(nodes, library, before) && nodes[before].parent == newParent))
  }

  /** When a batch that runs alone goes through. */
  predicate Accepts(nodes: map<Id, Node>, library: nat, newParent: Id, before: Id, items: seq<Item>) {
    && library != 0 && newParent != 0
    && SelectionOk(nodes, library, Ids(FirstOfEach(items)))
    && TargetOk(nodes, library, newParent, before, MovableItems(nodes, library, items))
  }

  /** What a batch reports: the moved nodes in order, and every parent that lost or gained a child. */
  ghost predicate Reports(nodes: map<Id, Node>, newParent: Id, moved: seq<Id>, report: Report) {
    && report.ids == moved
    && (forall p :: p in report.affected <==> p == newParent || exists id <- moved ::
       id in nodes && nodes[id].parent == p)
    && (forall i, j | 0 <= i < j < |report.affected| :: report.affected[i] < report.affected[j])
  }

  /** Every prefix of the moves leaves a forest and the new parent's own way up. */
  lemma {:induction false} PrefixKeepsForest(nodes: map<Id, Node>, library: nat, newParent: Id, moved: seq<Id>, n: nat)
    requires Valid(nodes) && n <= |moved| && Within(nodes, library, newParent)
    requires forall id <- moved :: Within(nodes, library, id) && id !in Path(LibraryParents(nodes, library), newParent)
    requires forall i, j | 0 <= i < j < |moved| :: moved[i] != moved[j]
    ensures var now := LibraryParents(Rebound(nodes, moved[..n], newParent), library);
            IsForest(now) && Path(now, newParent) == Path(LibraryParents(nodes, library), newParent)
  {
    if n == 0 {
      assert Rebound(nodes, [], newParent) == nodes;
    } else {
      PrefixKeepsForest(nodes, library, newParent, moved, n - 1);
      var now := LibraryParents(Rebound(nodes, moved[..n - 1], newParent), library);
      assert moved[..n] == moved[..n - 1] + [moved[n - 1]];
      ReboundParents(nodes, library, moved[..n - 1], newParent, moved[n - 1]);
      MoveKeepsForest(now, moved[n - 1], newParent);
      MoveKeepsPath(now, moved[n - 1], newParent, newParent);
    }
  }

  predicate Selected(items: seq<Item>, id: Id) {
    id != 0 && exists item <- items :: item.id == id
  }

  lemma SelectedIds(items: seq<Item>)
    ensures forall n :: n in Ids(FirstOfEach(items)) <==> Selected(items, n)
  {
    FirstOfEachIds(items);
    hide FirstOfEach;
    forall n | Selected(items, n) ensures n in Ids(items) {
      var k :| 0 <= k < |items| && items[k].id == n;
      assert Ids(items)[k] == n;
    }
    forall n | n in Ids(items) ensures exists item <- items :: item.id == n {
      var k :| 0 <= k < |items| && Ids(items)[k] == n;
      assert items[k] in items;
    }
  }

  /** Exactly the selected nodes without a selected proper ancestor move, and there is one. */
  lemma TopmostMove(nodes: map<Id, Node>, library: nat, items: seq<Item>)
    requires Valid(nodes) && SelectionOk(nodes, library, Ids(FirstOfEach(items)))
    ensures var moved := ToMove(nodes, library, items);
            && moved != []
            && forall n :: n in moved <==>
                 Selected(items, n) && forall a <- Path(LibraryParents(nodes, library), n) ::
                     a == n || !Selected(items, a)
  {
    var ids := Ids(FirstOfEach(items));
    SelectedIds(items);
    SomethingMoves(LibraryParents(nodes, library), (set id | id in ids), ids);
    hide Path, IsForest, FirstOfEach, Selected;
  }

  lemma MovedAreFit(nodes: map<Id, Node>, library: nat, items: seq<Item>, moved: seq<Id>)
    requires Valid(nodes) && SelectionOk(nodes, library, Ids(FirstOfEach(items)))
             && moved == ToMove(nodes, library, items)
    ensures moved != [] && 0 !in moved && (forall id <- moved :: Within(nodes, library, id))
    ensures forall i, j | 0 <= i < j < |moved| :: moved[i] != moved[j]
  {
    TopmostMove(nodes, library, items);
    FirstOfEachIds(items);
    hide FirstOfEach, Path, IsForest, Selected;
  }

  lemma BatchKeepsForests(nodes: map<Id, Node>, library: nat, newParent: Id, before: Id, items: seq<Item>)
    requires Valid(nodes) && Accepts(nodes, library, newParent, before, items)
    ensures Valid(Rebound(nodes, ToMove(nodes, library, items), newParent))
  {
    hide ToMove, FirstOfEach, Path, IsForest;
    var moved := ToMove(nodes, library, items);
    MovedAreFit(nodes, library, items, moved);
    ReboundKeepsForests(nodes, library, newParent, moved);
  }

  lemma ReboundKeepsForests(nodes: map<Id, Node>, library: nat, newParent: Id, moved: seq<Id>)
    requires Valid(nodes) && Within(nodes, library, newParent)
    requires forall id <- moved :: Within(nodes, library, id) && id !in Path(LibraryParents(nodes, library), newParent)
    requires forall i, j | 0 <= i < j < |moved| :: moved[i] != moved[j]
    ensures Valid(Rebound(nodes, moved, newParent))
  {
    var nodes' := Rebound(nodes, moved, newParent);
    PrefixKeepsForest(nodes, library, newParent, moved, |moved|);
    assert moved[..|moved|] == moved;
    forall other ensures IsForest(LibraryParents(nodes', other)) {
      if other != library {
        ReboundElsewhere(nodes, library, moved, newParent, other);
      }
    }
  }

  /** Sibling names are unique after each single move of a batch, not only at the end. */
  lemma {:induction false} PrefixKeepsUnique(nodes: map<Id, Node>, library: nat, newParent: Id, movable: seq<Item>,
        n: nat)
    requires UniqueNames(nodes) && NamesFit(nodes, newParent, movable) && n <= |movable|
    requires forall id <- Ids(movable) :: Within(nodes, library, id)
    requires forall i, j | 0 <= i < j < |movable| :: Ids(movable)[i] != Ids(movable)[j]
    ensures UniqueNames(Rebound(nodes, Ids(movable)[..n], newParent))
  {
    var moved := Ids(movable);
    hide UniqueNames, NameFits;
    if n == 0 {
      assert Rebound(nodes, [], newParent) == nodes;
    } else {
      PrefixKeepsUnique(nodes, library, newParent, movable, n - 1);
      var now := Rebound(nodes, moved[..n - 1], newParent);
      assert moved[..n] == moved[..n - 1] + [moved[n - 1]];
      ReboundParents(nodes, library, moved[..n - 1], newParent, moved[n - 1]);
      hide Rebound;
      MoveKeepsUnique(now, moved[n - 1], newParent, movable[n - 1].name);
    }
  }

  /** When every moved row is plainly stored and comes without another name, the checks of the batch are enough. */
  lemma PlainNamesFit(nodes: map<Id, Node>, newParent: Id, movable: seq<Item>)
    requires forall item <- movable :: item.id in nodes && PlainlyStored(nodes[item.id])
    requires forall item <- movable :: TrimSpace(item.name) == "" || TrimSpace(item.name) == nodes[item.id].name
    ensures NamesFit(nodes, newParent, movable) <==>
            forall k | 0 <= k < |movable| ::
              var now := Rebound(nodes, Ids(movable)[..k], newParent);
              !Taken(now, movable[k].id, newParent, CheckedName(now[movable[k].id], movable[k].name))
  {
    forall k | 0 <= k < |movable|
      ensures var now := Rebound(nodes, Ids(movable)[..k], newParent);
              NameFits(now, movable[k].id, newParent, movable[k].name) <==>
              !Taken(now, movable[k].id, newParent, CheckedName(now[movable[k].id], movable[k].name))
    {
      var now := Rebound(nodes, Ids(movable)[..k], newParent);
      var id := movable[k].id;
      assert movable[k] in movable;
      assert now[id].name == nodes[id].name && now[id].ext == nodes[id].ext && now[id].directory == nodes[id].directory;
      hide Taken, IndexName, CheckedName, TrimSpace;
      PlainCheck(now[id], movable[k].name);
      CheckCoversIndex(now, id, newParent, movable[k].name);
    }
    hide Taken, NameFits, CheckedName, TrimSpace, Rebound;
  }

  /** Two batches in one library, each of which could go through alone, and of which neither sees the other: both
      together leave the libraries forests exactly unless each carries the other's target along. */
  lemma TwoBatchesDecide(nodes: map<Id, Node>, library: nat, xs: seq<Id>, p: Id, ys: seq<Id>, q: Id)
    requires Valid(nodes) && xs != [] && ys != [] && forall x <- xs :: x !in ys
    requires forall x <- xs :: Within(nodes, library, x) && x !in Path(LibraryParents(nodes, library), p)
    requires forall y <- ys :: Within(nodes, library, y) && y !in Path(LibraryParents(nodes, library), q)
    ensures var parents := LibraryParents(nodes, library);
            Valid(Rebound(Rebound(nodes, xs, p), ys, q)) <==>
            !((exists y <- ys :: y in Path(parents, p)) && (exists x <- xs :: x in Path(parents, q)))
  {
    hide Path, IsForest;
    var parents := LibraryParents(nodes, library);
    var (xset, yset) := (IdSet(xs), IdSet(ys));
    BothParents(nodes, library, xs, p, ys, q);
    assert xs[0] in xset && ys[0] in yset;
    assert (exists y <- ys :: y in Path(parents, p)) <==> exists y <- yset :: y in Path(parents, p);
    assert (exists x <- xs :: x in Path(parents, q)) <==> exists x <- xset :: x in Path(parents, q);
    TwoBatches(parents, xset, p, yset, q);
    hide TwoTargets, Moved, Rebound, LibraryParents, IdSet;
  }

  function IdSet(ids: seq<Id>): set<Id> {
    set id | id in ids
  }

  lemma BothParents(nodes: map<Id, Node>, library: nat, xs: seq<Id>, p: Id, ys: seq<Id>, q: Id)
    requires Valid(nodes)
    requires (forall x <- xs :: Within(nodes, library, x) && x !in ys) && (forall y <- ys :: Within(nodes, library, y))
    ensures var both := Rebound(Rebound(nodes, xs, p), ys, q);
            && LibraryParents(both, library) ==
               Moved(LibraryParents(nodes, library), TwoTargets(IdSet(xs), p, IdSet(ys), q))
            && (Valid(both) <==> IsForest(LibraryParents(both, library)))
            && IdSet(xs) !! IdSet(ys) && IdSet(xs) <= LibraryParents(nodes, library).Keys
               && IdSet(ys) <= LibraryParents(nodes, library).Keys
  {
    var both := Rebound(Rebound(nodes, xs, p), ys, q);
    hide IsForest;
    forall other | other != library ensures IsForest(LibraryParents(both, other)) {
      ReboundElsewhere(nodes, library, xs, p, other);
      ReboundElsewhere(Rebound(nodes, xs, p), library, ys, q, other);
    }
  }

  /** Every selected node has a moved one at or above it, so it lands below the new parent too. */
  lemma SelectedLandsBelow(parents: map<Id, Id>, parents': map<Id, Id>, selected: set<Id>, ids: seq<Id>, p: Id, id: Id)
    requires IsForest(parents) && IsForest(parents') && p in parents && parents'.Keys == parents.Keys
    requires forall i :: i in selected <==> i in ids
    requires id in selected && id in parents
    requires forall m <- parents :: parents'[m] == if m in Topmost(parents, selected, ids) then p else parents[m]
    requires forall m <- Topmost(parents, selected, ids) :: m !in Path(parents, p)
    ensures id != p && p in Path(parents', id)
  {
    SomeAncestorMoves(parents, selected, id);
    var top :| top in Path(parents, id) && Movable(parents, selected, top);
    var moved := Topmost(parents, selected, ids);
    hide UnderSelected, Topmost, Path, IsForest;
    LandsBelow(parents, parents', moved, p, id, top);
  }

  lemma ReboundIs(nodes: map<Id, Node>, library: nat, moved: seq<Id>, p: Id)
    ensures var (parents, parents') :=
            (LibraryParents(nodes, library), LibraryParents(Rebound(nodes, moved, p), library));
            parents'.Keys == parents.Keys && forall m <- parents :: parents'[m] == if m in moved then p else parents[m]
  {
  }

  /** After a batch the libraries are still forests and every selected node is below the new parent. */
  lemma BatchMoves(nodes: map<Id, Node>, library: nat, newParent: Id, before: Id, items: seq<Item>)
    requires Valid(nodes) && Accepts(nodes, library, newParent, before, items)
    ensures var nodes' := Rebound(nodes, ToMove(nodes, library, items), newParent);
            && Valid(nodes')
            && forall n | Selected(items, n) :: n != newParent && newParent in Path(LibraryParents(nodes', library), n)
  {
    BatchKeepsForests(nodes, library, newParent, before, items);
    var moved := ToMove(nodes, library, items);
    forall n | Selected(items, n)
        ensures n != newParent && newParent in Path(LibraryParents(Rebound(nodes, moved, newParent), library), n) {
      OneLandsBelow(nodes, library, newParent, before, items, n);
    }
  }

  lemma OneLandsBelow(nodes: map<Id, Node>, library: nat, newParent: Id, before: Id, items: seq<Item>, n: Id)
    requires Valid(nodes) && Accepts(nodes, library, newParent, before, items) && Selected(items, n)
    ensures var nodes' := Rebound(nodes, ToMove(nodes, library, items), newParent);
            n != newParent && newParent in Path(LibraryParents(nodes', library), n)
  {
    hide Path, IsForest, Topmost, FirstOfEach, Selected, Rebound;
    BatchKeepsForests(nodes, library, newParent, before, items);
    SelectedIds(items);
    var ids := Ids(FirstOfEach(items));
    var selected := set id | id in ids;
    var moved := ToMove(nodes, library, items);
    ReboundIs(nodes, library, moved, newParent);
    SelectedLandsBelow(LibraryParents(nodes, library), LibraryParents(Rebound(nodes, moved, newParent), library),
                       selected, ids, newParent, n);
  }

  class NodeUseCase {
    /** The live rows. */
    var nodes: map<Id, Node>

    constructor (nodes: map<Id, Node>)
      ensures this.nodes == nodes
    {
      this.nodes := nodes;
    }

    /** MoveNode of the repository. The name asked for is looked for and never written; the index then sees the
        stored one. */
    method MoveNode(library: nat, id: Id, newParent: Id, before: Id, name: string) returns (r: Result<(), Error>)
      modifies this
      ensures r.Ok?
              <==> MayMove(old(nodes), library, id, newParent, before) && NameFits(old(nodes), id, newParent, name)
      ensures r.Ok? ==> nodes == old(nodes)[id := old(nodes)[id].(parent := newParent)]
      ensures r.Err? ==> nodes == old(nodes)
    {
      hide CheckedName, IndexName;
      if !Within(nodes, library, id) {
        return Err(NotFound);
      }
      if newParent == id {
        return Err(InvalidArgument);
      }
      if newParent > 0 {
        if !Within(nodes, library, newParent) {
          return Err(NotFound);
        }
        if !nodes[newParent].directory || id in Path(LibraryParents(nodes, library), newParent) {
          return Err(InvalidArgument);
        }
      }
      hide Path;
      if Taken(nodes, id, newParent, CheckedName(nodes[id], name)) {
        return Err(NameExists);
      }
      if before > 0 {
        if !Within(nodes, library, before) {
          return Err(NotFound);
        }
        if nodes[before].parent != newParent {
          return Err(InvalidArgument);
        }
      }
      if Taken(nodes, id, newParent, IndexName(nodes[id])) {
        return Err(IndexViolated);
      }
      nodes := nodes[id := nodes[id].(parent := newParent)];
      r := Ok(());
    }

    /** MoveBatch. It goes through exactly when Accepts says so; then the topmost selected nodes, and only
        they, hang under the new parent. A failed or dry run leaves every row as it was. */
    method MoveBatch(library: nat, newParent: Id, before: Id, items: seq<Item>, dryRun: bool)
      returns (r: Result<Report, Error>)
      requires Valid(nodes) && UniqueNames(nodes)
      modifies this
      ensures Valid(nodes) && UniqueNames(nodes)
      ensures r.Ok? <==> Accepts(old(nodes), library, newParent, before, items)
      ensures r.Ok? ==> Reports(old(nodes), newParent, ToMove(old(nodes), library, items), r.value)
      ensures nodes == if r.Ok? && !dryRun then Rebound(old(nodes), ToMove(old(nodes), library, items), newParent)
              else old(nodes)
    {
      assert |items| == 0 ==> FirstOfEach(items) == [];
      hide Reports, ToMove, TargetOk, Valid, FirstOfEach, Rebound;
      if library == 0 || newParent == 0 || |items| == 0 {
        return Err(InvalidArgument);
      }
      var normalized := NormalizeMoveBatchItems(items);
      if |normalized| == 0 {
        return Err(InvalidArgument);
      }
      var ids := Ids(normalized);
      for n := 0 to |normalized|
        invariant forall k | 0 <= k < n :: Within(nodes, library, ids[k])
      {
        assert normalized[n].id in ids;
        if normalized[n].id !in nodes {
          return Err(NotFound);
        }
        if nodes[normalized[n].id].library != library {
          return Err(InvalidArgument);
        }
      }
      r := MoveNormalized(library, newParent, before, items, normalized, dryRun);
    }

    /** The transaction of MoveBatch, on items known to be in the library. */
    method MoveNormalized(library: nat, newParent: Id, before: Id, items: seq<Item>, normalized: seq<Item>,
          dryRun: bool)
      returns (r: Result<Report, Error>)
      requires Valid(nodes) && UniqueNames(nodes) && library != 0 && newParent != 0
      requires normalized == FirstOfEach(items) && SelectionOk(nodes, library, Ids(normalized))
      modifies this
      ensures Valid(nodes) && UniqueNames(nodes)
      ensures r.Ok? <==> TargetOk(old(nodes), library, newParent, before, MovableItems(old(nodes), library, items))
      ensures r.Ok? ==> Reports(old(nodes), newParent, ToMove(old(nodes), library, items), r.value)
      ensures nodes == if r.Ok? && !dryRun then Rebound(old(nodes), ToMove(old(nodes), library, items), newParent)
              else old(nodes)
    {
      hide Reports, Topmost, TopmostItems, FirstOfEach, UnderSelected, Path, IsForest, Valid, Rebound, UniqueNames,
           NamesFit;
      var start := nodes;
      var parents := LibraryParents(nodes, library);
      var ids := Ids(normalized);
      var movable := FilterMovable(parents, normalized, (set id | id in ids));
      var moved := Ids(movable);
      assert movable == MovableItems(start, library, items) && moved == ToMove(start, library, items);
      // The code's refusal of an empty selection at this point cannot happen.
      MovedAreFit(start, library, items, moved);
      hide ToMove, MovableItems;
      if newParent !in nodes {
        return Err(NotFound);
      }
      if nodes[newParent].library != library {
        return Err(InvalidArgument);
      }
      var refused := AnyAbove(Path(parents, newParent), moved);
      if refused {
        return Err(InvalidArgument);
      }
      var done := RebindAll(library, newParent, if before in moved then 0 else before, movable);
      if done.Err? {
        return Err(done.error);
      }
      BatchKeepsForests(start, library, newParent, before, items);
      PrefixKeepsUnique(start, library, newParent, movable, |movable|);
      assert moved[..|movable|] == moved;
      if dryRun {
        nodes := start;
      }
      var report := MakeReport(start, newParent, moved);
      r := Ok(report);
    }

    /** Is one of the items the new parent or above it? */
    method AnyAbove(ancestors: seq<Id>, moved: seq<Id>) returns (found: bool)
      ensures found <==> exists id <- moved :: id in ancestors
    {
      for n := 0 to |moved|
        invariant forall k | 0 <= k < n :: moved[k] !in ancestors
      {
        if moved[n] in ancestors {
          return true;
        }
      }
      found := false;
    }

    method MakeReport(start: map<Id, Node>, newParent: Id, moved: seq<Id>) returns (report: Report)
      requires forall id <- moved :: id in start
      ensures Reports(start, newParent, moved, report)
    {
      var affectedParents := {newParent};
      for n := 0 to |moved|
        invariant forall p :: p in affectedParents <==> p == newParent || exists k | 0 <= k < n ::
                  start[moved[k]].parent == p
      {
        affectedParents := affectedParents + {start[moved[n]].parent};
      }
      var affected := MapKeysSorted(affectedParents);
      report := Report.Report(moved, affected);
    }

    /** The loop over MoveNode; a refusal rolls back what was already moved. */
    method RebindAll(library: nat, newParent: Id, before: Id, movable: seq<Item>) returns (r: Result<(), Error>)
      requires Valid(nodes) && newParent != 0 && movable != [] && Within(nodes, library, newParent)
      requires forall id <- Ids(movable) ::
               Within(nodes, library, id) && id !in Path(LibraryParents(nodes, library), newParent)
      requires forall i, j | 0 <= i < j < |movable| :: Ids(movable)[i] != Ids(movable)[j]
      requires before !in Ids(movable)
      modifies this
      ensures r.Ok? <==>
              && old(nodes)[newParent].directory
              && NamesFit(old(nodes), newParent, movable)
              && (before == 0 || (Within(old(nodes), library, before) && old(nodes)[before].parent == newParent))
      ensures nodes == if r.Ok? then Rebound(old(nodes), Ids(movable), newParent) else old(nodes)
    {
      hide NameFits, Rebound, Path, Valid, MayMove;
      var start := nodes;
      var moved := Ids(movable);
      NothingMoved(start, newParent);
      for n := 0 to |movable|
        invariant nodes == Rebound(start, moved[..n], newParent)
        invariant forall k | 0 <= k < n ::
                  NameFits(Rebound(start, moved[..k], newParent), movable[k].id, newParent, movable[k].name)
        invariant n > 0 ==> start[newParent].directory
        invariant n > 0 ==> before == 0 || (Within(start, library, before) && start[before].parent == newParent)
      {
        NextMove(start, library, newParent, before, moved, n);
        var step := MoveNode(library, moved[n], newParent, before, movable[n].name);
        if step.Err? {
          nodes := start;
          return step;
        }
      }
      assert moved[..|movable|] == moved;
      r := Ok(());
    }
  }

  lemma NothingMoved(nodes: map<Id, Node>, p: Id)
    ensures Rebound(nodes, [], p) == nodes
  {
  }

  /** What MoveNode's checks come to when the turn of a node comes, and what its move leaves. */
  lemma NextMove(nodes: map<Id, Node>, library: nat, newParent: Id, before: Id, moved: seq<Id>, n: nat)
    requires Valid(nodes) && newParent != 0 && n < |moved| && Within(nodes, library, newParent) && before !in moved
    requires forall id <- moved :: Within(nodes, library, id) && id !in Path(LibraryParents(nodes, library), newParent)
    requires forall i, j | 0 <= i < j < |moved| :: moved[i] != moved[j]
    ensures var now := Rebound(nodes, moved[..n], newParent);
            && (MayMove(now, library, moved[n], newParent, before) <==>
                  nodes[newParent].directory
                      && (before == 0 || (Within(nodes, library, before) && nodes[before].parent == newParent)))
            && moved[n] in now && Rebound(nodes, moved[..n + 1], newParent) ==
               now[moved[n] := now[moved[n]].(parent := newParent)]
  {
    PrefixKeepsForest(nodes, library, newParent, moved, n);
    ReboundParents(nodes, library, moved[..n], newParent, moved[n]);
    assert moved[..n + 1] == moved[..n] + [moved[n]];
    assert newParent in Path(LibraryParents(nodes, library), newParent);
    hide Path, IsForest, LibraryParents;
  }
}
