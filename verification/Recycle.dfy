/** The recycle bin: deleted rows grouped under the roots they were deleted with, with counts taken by
    walking each root's subtree with an explicit stack. */
module Recycle {
  import opened Forest
  import opened GoText
  import opened SetSum
  import opened Sorting

  /** A deleted row; parent 0 stands for NULL. */
  datatype Row = Row(id: Id, parent: Id, file: bool, provider: string, bucket: string, deletedAt: int)

  datatype Location = Location(provider: string, bucket: string)

  datatype RootItem = RootItem(row: Row, descendants: nat, locations: map<Location, nat>)

  // ----- the deleted forest -----

  predicate DistinctIds(rows: seq<Row>) {
    forall i, j | 0 <= i < j < |rows| :: rows[i].id != rows[j].id
  }

  function IdSet(rows: seq<Row>): set<Id> {
    set row | row in rows :: row.id
  }

  /** lo.SliceToMap by id */
  function ById(rows: seq<Row>): (byId: map<Id, Row>)
    ensures byId.Keys == IdSet(rows)
    ensures forall id <- byId :: byId[id] in rows && byId[id].id == id
    ensures DistinctIds(rows) ==> forall row <- rows :: byId[row.id] == row
  {
    if rows == [] then map[]
    else
      var last := rows[|rows| - 1];
      assert forall r :: r in rows <==> r in rows[..|rows| - 1] || r == last;
      ById(rows[..|rows| - 1])[last.id := last]
  }

  function Parents(rows: seq<Row>): map<Id, Id> {
    var byId := ById(rows);
    map id | id in byId :: byId[id].parent
  }

  ghost predicate Valid(rows: seq<Row>) {
    DistinctIds(rows) && (forall row <- rows :: row.id != 0) && IsForest(Parents(rows))
  }

  /** The rows at or below some node of the list. */
  function Under(parents: map<Id, Id>, s: seq<Id>): set<Id> {
    set m | m in parents && exists x <- s :: x in Path(parents, m)
  }

  /** No node of the list is at or below another. */
  predicate Antichain(parents: map<Id, Id>, s: seq<Id>) {
    && (forall x <- s :: x in parents)
    && (forall i, j | 0 <= i < j < |s| :: s[i] != s[j])
    && forall x <- s, y <- s :: x in Path(parents, y) ==> x == y
  }

  /** The rows hanging directly under p, in row order. */
  function ChildIds(rows: seq<Row>, p: Id): (ids: seq<Id>)
    ensures forall id :: id in ids <==> exists row <- rows :: row.id == id && row.parent == p
  {
    if rows == [] then []
    else
      var earlier := ChildIds(rows[..|rows| - 1], p);
      var row := rows[|rows| - 1];
      assert forall r :: r in rows <==> r in rows[..|rows| - 1] || r == row;
      if row.parent == p then earlier + [row.id] else earlier
  }

  lemma {:induction false} ChildIdsDistinct(rows: seq<Row>, p: Id)
    requires DistinctIds(rows)
    ensures forall i, j | 0 <= i < j < |ChildIds(rows, p)| :: ChildIds(rows, p)[i] != ChildIds(rows, p)[j]
  {
    if rows != [] {
      var init := rows[..|rows| - 1];
      ChildIdsDistinct(init, p);
      forall row | row in init ensures row.id != rows[|rows| - 1].id {
        var i :| 0 <= i < |init| && init[i] == row;
      }
      assert rows[|rows| - 1].id !in ChildIds(init, p);
    }
  }

  ghost predicate IsChildList(parents: map<Id, Id>, x: Id, children: seq<Id>) {
    && (forall i, j | 0 <= i < j < |children| :: children[i] != children[j])
    && forall c :: c in children <==> c in parents && parents[c] == x
  }

  lemma ChildIdsList(rows: seq<Row>, x: Id)
    requires DistinctIds(rows)
    ensures IsChildList(Parents(rows), x, ChildIds(rows, x))
  {
    ChildIdsDistinct(rows, x);
  }

  /** Everything known about a stack with x on top. */
  predicate TopApart(parents: map<Id, Id>, rest: seq<Id>, x: Id) {
    x in parents && x !in rest && forall y <- rest :: y !in Path(parents, x) && x !in Path(parents, y)
  }

  lemma AntichainTop(parents: map<Id, Id>, rest: seq<Id>, x: Id)
    requires IsForest(parents)
    ensures Antichain(parents, rest + [x]) <==> Antichain(parents, rest) && TopApart(parents, rest, x)
  {
    var all := rest + [x];
    assert all[|rest|] == x;
    assert forall y :: y in all <==> y in rest || y == x;
    if Antichain(parents, all) {
      assert forall i | 0 <= i < |rest| :: all[i] == rest[i];
    }
  }

  /** A child's way up is the child and then the way up from x. */
  lemma ChildPath(parents: map<Id, Id>, x: Id, c: Id)
    requires IsForest(parents) && c in parents && parents[c] == x
    ensures Path(parents, c) == [c] + Path(parents, x) && c !in Path(parents, x) && (x in parents ==> c != x)
  {
    PathUnfold(parents, c);
    NoCycle(parents, c);
  }

  /** Popping x and pushing its children keeps the nodes of the stack apart. */
  lemma PopKeepsAntichain(parents: map<Id, Id>, rest: seq<Id>, x: Id, children: seq<Id>)
    requires IsForest(parents) && Antichain(parents, rest + [x]) && IsChildList(parents, x, children)
    ensures Antichain(parents, rest + children)
  {
    AntichainTop(parents, rest, x);
    forall c | c in children ensures c in parents && c !in rest && (forall y <- rest :: c !in Path(parents, y)) {
      ChildPath(parents, x, c);
      forall y | y in rest ensures c !in Path(parents, y) {
        if c in Path(parents, y) {
          PathTransitive(parents, y, c, x);
        }
      }
    }
    forall a, b | a in rest + children && b in children && a in Path(parents, b) ensures a == b {
      ChildPath(parents, x, b);
      if a != b && a in children {
        ChildPath(parents, x, a);
      }
    }
    var after := rest + children;
    forall i, j | 0 <= i < j < |after| ensures after[i] != after[j] {
      if i < |rest| <= j {
        assert after[j] in children && after[i] in rest;
      }
    }
    forall a, b | a in after && b in after && a in Path(parents, b) ensures a == b {
      if b !in children {
        assert b in rest && a in rest;
      }
    }
  }

  /** Some child of x lies on the way up from anything properly below x. */
  lemma {:induction false} ChildAbove(parents: map<Id, Id>, x: Id, m: Id, children: seq<Id>)
    requires IsForest(parents) && x in Path(parents, m) && m != x && IsChildList(parents, x, children)
    ensures exists c <- children :: c in Path(parents, m)
    decreases |Path(parents, m)|
  {
    PathUnfold(parents, m);
    if parents[m] != x {
      ChildAbove(parents, x, parents[m], children);
      var c :| c in children && c in Path(parents, parents[m]);
      assert c in Path(parents, m);
    } else {
      assert m in children;
    }
  }

  /** What is at or below x is x and what is at or below its children. */
  lemma UnderNode(parents: map<Id, Id>, x: Id, m: Id, children: seq<Id>)
    requires IsForest(parents) && x in parents && m in parents && IsChildList(parents, x, children)
    ensures x in Path(parents, m) <==> m == x || exists c <- children :: c in Path(parents, m)
  {
    if c :| c in children && c in Path(parents, m) {
      ChildPath(parents, x, c);
      PathTransitive(parents, m, c, x);
    }
    if m != x && x in Path(parents, m) {
      ChildAbove(parents, x, m, children);
    }
  }

  /** Popping x and pushing its children takes exactly x off what is still to be visited. */
  lemma PopTakesOne(parents: map<Id, Id>, rest: seq<Id>, x: Id, children: seq<Id>)
    requires IsForest(parents) && Antichain(parents, rest + [x]) && IsChildList(parents, x, children)
    ensures x in Under(parents, rest + [x])
    ensures Under(parents, rest + children) == Under(parents, rest + [x]) - {x}
  {
    AntichainTop(parents, rest, x);
    forall c | c in children ensures c !in Path(parents, x) {
      ChildPath(parents, x, c);
    }
    assert (rest + [x])[|rest|] == x && x in Path(parents, x);
    forall m | m in parents
        ensures m in Under(parents, rest + children) <==> m in Under(parents, rest + [x]) && m != x {
      UnderNode(parents, x, m, children);
      UnderSplit(parents, rest, children, m);
      UnderSplit(parents, rest, [x], m);
    }
  }

  lemma UnderSplit(parents: map<Id, Id>, a: seq<Id>, b: seq<Id>, m: Id)
    ensures m in Under(parents, a + b) <==> m in Under(parents, a) || m in Under(parents, b)
  {
    if m in parents {
      if x :| x in a && x in Path(parents, m) {
        assert x in a + b;
      }
      if x :| x in b && x in Path(parents, m) {
        assert x in a + b;
      }
    }
  }

  // ----- the roots -----

  predicate IsRoot(ids: set<Id>, row: Row) {
    row.parent == 0 || row.parent !in ids
  }

  /** resolveRecycleTopLevelItems */
  function TopLevel(rows: seq<Row>, ids: set<Id>): (top: seq<Row>)
    ensures forall row :: row in top <==> row in rows && IsRoot(ids, row)
  {
    if rows == [] then []
    else
      var earlier := TopLevel(rows[..|rows| - 1], ids);
      var row := rows[|rows| - 1];
      assert forall r :: r in rows <==> r in rows[..|rows| - 1] || r == row;
      if IsRoot(ids, row) then earlier + [row] else earlier
  }

  lemma {:induction false} TopLevelDistinct(rows: seq<Row>, ids: set<Id>)
    requires DistinctIds(rows)
    ensures DistinctIds(TopLevel(rows, ids))
  {
    if rows != [] {
      var init := rows[..|rows| - 1];
      TopLevelDistinct(init, ids);
      forall row | row in TopLevel(init, ids) ensures row.id != rows[|rows| - 1].id {
        var i :| 0 <= i < |init| && init[i] == row;
      }
    }
  }

  function Ids(rows: seq<Row>): (ids: seq<Id>)
    ensures |ids| == |rows| && forall k | 0 <= k < |ids| :: ids[k] == rows[k].id
  {
    seq(|rows|, k requires 0 <= k < |rows| => rows[k].id)
  }

  /** The way up from a root is the root alone. */
  lemma RootPath(rows: seq<Row>, row: Row)
    requires Valid(rows) && row in rows && IsRoot(IdSet(rows), row)
    ensures Path(Parents(rows), row.id) == [row.id]
  {
    PathUnfold(Parents(rows), row.id);
    assert ById(rows)[row.id] == row;
    assert row.parent == 0 ==> 0 !in IdSet(rows);
    PathUnfold(Parents(rows), row.parent);
  }

  /** Some root lies at or above every row. */
  lemma {:induction false} RootAbove(rows: seq<Row>, m: Id)
    requires Valid(rows) && m in Parents(rows)
    ensures exists root <- rows :: IsRoot(IdSet(rows), root) && root.id in Path(Parents(rows), m)
    decreases |Path(Parents(rows), m)|
  {
    var parents := Parents(rows);
    var row := ById(rows)[m];
    PathUnfold(parents, m);
    if !IsRoot(IdSet(rows), row) {
      RootAbove(rows, row.parent);
      var root :| root in rows && IsRoot(IdSet(rows), root) && root.id in Path(parents, row.parent);
      assert root.id in Path(parents, m);
    }
  }

  ghost predicate ListsRoots(rows: seq<Row>, ids: seq<Id>) {
    && (forall i, j | 0 <= i < j < |ids| :: ids[i] != ids[j])
    && (forall x <- ids :: exists row <- rows :: row.id == x && IsRoot(IdSet(rows), row))
    && (forall row <- rows :: IsRoot(IdSet(rows), row) ==> row.id in ids)
  }

  lemma RootsApart(rows: seq<Row>, ids: seq<Id>)
    requires Valid(rows) && ListsRoots(rows, ids)
    ensures Antichain(Parents(rows), ids)
  {
    forall x | x in ids ensures x in Parents(rows) && Path(Parents(rows), x) == [x] {
      var row :| row in rows && row.id == x && IsRoot(IdSet(rows), row);
      RootPath(rows, row);
    }
    hide Path, Parents, IdSet, Valid;
  }

  lemma RootsCover(rows: seq<Row>, ids: seq<Id>)
    requires Valid(rows) && ListsRoots(rows, ids)
    ensures Under(Parents(rows), ids) == IdSet(rows)
  {
    forall m | m in IdSet(rows) ensures m in Under(Parents(rows), ids) {
      RootAbove(rows, m);
    }
  }

  /** Each deleted row is in the subtree of exactly one root. */
  lemma RootsPartition(rows: seq<Row>, m: Id)
    requires Valid(rows) && m in IdSet(rows)
    ensures exists root <- TopLevel(rows, IdSet(rows)) ::
              && m in Under(Parents(rows), [root.id])
              && forall other <- TopLevel(rows, IdSet(rows)) :: m in Under(Parents(rows), [other.id]) ==> other == root
  {
    RootAbove(rows, m);
    var root :| root in rows && IsRoot(IdSet(rows), root) && root.id in Path(Parents(rows), m);
    assert [root.id][0] == root.id;
    forall other | other in TopLevel(rows, IdSet(rows)) && m in Under(Parents(rows), [other.id]) ensures other == root {
      OneRootAbove(rows, m, root, other);
    }
  }

  /** Two roots above the same row are the same root. */
  lemma {:induction false} OneRootAbove(rows: seq<Row>, m: Id, a: Row, b: Row)
    requires Valid(rows) && a in rows && b in rows && IsRoot(IdSet(rows), a) && IsRoot(IdSet(rows), b)
    requires a.id in Path(Parents(rows), m) && b.id in Path(Parents(rows), m)
    ensures a == b
    decreases |Path(Parents(rows), m)|
  {
    var parents := Parents(rows);
    PathUnfold(parents, m);
    if a.id != m && b.id != m {
      OneRootAbove(rows, parents[m], a, b);
    } else if a.id == m {
      RootPath(rows, a);
    } else {
      RootPath(rows, b);
    }
    assert ById(rows)[a.id] == a && ById(rows)[b.id] == b;
  }

  // ----- counting -----

  function SumOf(counts: seq<nat>): nat {
    if counts == [] then 0 else SumOf(counts[..|counts| - 1]) + counts[|counts| - 1]
  }

  /** Two nodes on one way up: one is above the other. */
  lemma {:induction false} NoMeet(parents: map<Id, Id>, m: Id, x: Id, y: Id)
    requires IsForest(parents) && x in Path(parents, m) && y in Path(parents, m)
    ensures x in Path(parents, y) || y in Path(parents, x)
    decreases |Path(parents, m)|
  {
    PathUnfold(parents, m);
    if x != m && y != m {
      NoMeet(parents, parents[m], x, y);
    }
  }

  lemma UnderTop(parents: map<Id, Id>, init: seq<Id>, x: Id)
    requires IsForest(parents) && Antichain(parents, init + [x])
    ensures Antichain(parents, init)
    ensures Under(parents, init + [x]) == Under(parents, init) + Under(parents, [x])
    ensures Under(parents, init) !! Under(parents, [x])
  {
    AntichainTop(parents, init, x);
    forall m | m in parents
        ensures m in Under(parents, init + [x]) <==> m in Under(parents, init) + Under(parents, [x]) {
      UnderSplit(parents, init, [x], m);
    }
    forall m | m in Under(parents, init) ensures m !in Under(parents, [x]) {
      var y :| y in init && y in Path(parents, m);
      if x in Path(parents, m) {
        NoMeet(parents, m, x, y);
      }
    }
  }

  /** The sizes of the subtrees of nodes that are apart add up to the size of what is under them. */
  lemma {:induction false} SubtreesAddUp(parents: map<Id, Id>, s: seq<Id>, counts: seq<nat>)
    requires IsForest(parents) && Antichain(parents, s) && |counts| == |s|
    requires forall k | 0 <= k < |s| :: counts[k] == |Under(parents, [s[k]])|
    ensures SumOf(counts) == |Under(parents, s)|
  {
    if s == [] {
      assert Under(parents, s) == {};
    } else {
      var (init, x) := (s[..|s| - 1], s[|s| - 1]);
      assert s == init + [x];
      UnderTop(parents, init, x);
      hide Under, Antichain, Path;
      SubtreesAddUp(parents, init, counts[..|s| - 1]);
    }
  }

  // ----- the code -----

  function Lookup(childrenByParent: map<Id, seq<Id>>, id: Id): seq<Id> {
    if id in childrenByParent then childrenByParent[id] else []
  }

  /** The children map lists the deleted children of every deleted row, in row order, and nothing else. */
  ghost predicate MapsChildren(rows: seq<Row>, childrenByParent: map<Id, seq<Id>>) {
    forall id :: Lookup(childrenByParent, id) == if id in IdSet(rows) then ChildIds(rows, id) else []
  }

  lemma ChildIdsNext(rows: seq<Row>, n: nat, p: Id)
    requires n < |rows|
    ensures ChildIds(rows[..n + 1], p) == ChildIds(rows[..n], p) + if rows[n].parent == p then [rows[n].id] else []
  {
    assert rows[..n + 1][..n] == rows[..n];
  }

  predicate Known(rows: seq<Row>, childrenByParent: map<Id, seq<Id>>, n: nat, id: Id)
    requires n <= |rows|
  {
    Lookup(childrenByParent, id) == if id in IdSet(rows) then ChildIds(rows[..n], id) else []
  }

  /** buildRecycleChildrenByParent */
  method BuildRecycleChildrenByParent(rows: seq<Row>, deletedSet: set<Id>) returns (childrenByParent: map<Id, seq<Id>>)
    requires deletedSet == IdSet(rows) && 0 !in deletedSet
    ensures MapsChildren(rows, childrenByParent)
  {
    childrenByParent := map[];
    for n := 0 to |rows|
      invariant forall id :: Known(rows, childrenByParent, n, id)
    {
      ghost var was := childrenByParent;
      if rows[n].parent != 0 && rows[n].parent in deletedSet {
        childrenByParent := childrenByParent[rows[n].parent := Lookup(childrenByParent, rows[n].parent) + [rows[n].id]];
      }
      ghost var next := n + 1;
      forall id ensures Known(rows, childrenByParent, next, id) {
        assert Known(rows, was, n, id);
        ChildIdsNext(rows, n, id);
      }
    }
    assert rows[..|rows|] == rows;
    forall id ensures Lookup(childrenByParent, id) == if id in IdSet(rows) then ChildIds(rows, id) else [] {
      assert Known(rows, childrenByParent, |rows|, id);
    }
  }

  /** One turn of a walk: the top of the stack is visited, its children are still to come. */
  lemma Visit(parents: map<Id, Id>, stack: seq<Id>, children: seq<Id>)
    requires IsForest(parents) && Antichain(parents, stack) && stack != []
    requires IsChildList(parents, stack[|stack| - 1], children)
    ensures var (x, next) := (stack[|stack| - 1], stack[..|stack| - 1] + children);
            && x in Under(parents, stack)
            && Antichain(parents, next) && Under(parents, next) == Under(parents, stack) - {x}
  {
    hide Antichain, Under, Path, IsChildList;
    var (rest, x) := (stack[..|stack| - 1], stack[|stack| - 1]);
    assert stack == rest + [x];
    PopKeepsAntichain(parents, rest, x, children);
    PopTakesOne(parents, rest, x, children);
  }

  lemma LookupList(rows: seq<Row>, childrenByParent: map<Id, seq<Id>>, x: Id)
    requires DistinctIds(rows) && MapsChildren(rows, childrenByParent) && x in Parents(rows)
    ensures IsChildList(Parents(rows), x, Lookup(childrenByParent, x))
  {
    ChildIdsList(rows, x);
  }

  lemma TopIsRow(parents: map<Id, Id>, stack: seq<Id>)
    requires Antichain(parents, stack) && stack != []
    ensures stack[|stack| - 1] in parents
  {
  }

  lemma OneIsApart(parents: map<Id, Id>, x: Id)
    requires x in parents
    ensures Antichain(parents, [x])
  {
  }

  /** countDeletedSubtree: a walk with an explicit stack; it ends because what is under the stack shrinks. */
  method CountDeletedSubtree(childrenByParent: map<Id, seq<Id>>, rootId: Id, ghost rows: seq<Row>) returns (count: nat)
    requires Valid(rows) && MapsChildren(rows, childrenByParent) && (rootId == 0 || rootId in IdSet(rows))
    ensures count == if rootId == 0 then 0 else |Under(Parents(rows), [rootId])|
  {
    if rootId == 0 {
      return 0;
    }
    ghost var parents := Parents(rows);
    hide MapsChildren, Under, Antichain, IsForest, Parents;
    OneIsApart(parents, rootId);
    count := 0;
    var stack := [rootId];
    while stack != []
      invariant Antichain(parents, stack) && count + |Under(parents, stack)| == |Under(parents, [rootId])|
      decreases |Under(parents, stack)|
    {
      TopIsRow(parents, stack);
      var current := stack[|stack| - 1];
      LookupList(rows, childrenByParent, current);
      Visit(parents, stack, Lookup(childrenByParent, current));
      stack := stack[..|stack| - 1];
      count := count + 1;
      var children := Lookup(childrenByParent, current);
      if |children| > 0 {
        stack := stack + children;
      } else {
        assert stack + children == stack;
      }
    }
    NothingUnder(parents);
  }

  lemma NothingUnder(parents: map<Id, Id>)
    ensures Under(parents, []) == {}
  {
  }

  // ----- where the files are -----

  predicate Counted(row: Row) {
    row.file && TrimSpace(row.provider) != ""
  }

  function LocationOf(row: Row): Location {
    Location(TrimSpace(row.provider), TrimSpace(row.bucket))
  }

  /** The counted files of a set that lie at one location. */
  function FilesAt(byId: map<Id, Row>, s: set<Id>, at: Location): set<Id> {
    set m | m in s && m in byId && Counted(byId[m]) && LocationOf(byId[m]) == at
  }

  function CountedFiles(byId: map<Id, Row>, s: set<Id>): set<Id> {
    set m | m in s && m in byId && Counted(byId[m])
  }

  predicate CountsAt(byId: map<Id, Row>, s: set<Id>, locations: map<Location, nat>, at: Location) {
    if at in locations then locations[at] == |FilesAt(byId, s, at)| > 0 else FilesAt(byId, s, at) == {}
  }

  /** For each location with a file of s the number of those files, and no other entry. */
  ghost predicate CountsFiles(byId: map<Id, Row>, s: set<Id>, locations: map<Location, nat>) {
    forall at :: CountsAt(byId, s, locations, at)
  }

  lemma CountOneMore(byId: map<Id, Row>, s: set<Id>, x: Id, locations: map<Location, nat>)
    requires CountsFiles(byId, s, locations) && x !in s && x in byId
    ensures CountsFiles(byId, s + {x}, Tally(locations, byId[x]))
  {
    hide Counted, LocationOf;
    forall at ensures CountsAt(byId, s + {x}, Tally(locations, byId[x]), at) {
      assert CountsAt(byId, s, locations, at);
      if Counted(byId[x]) && at == LocationOf(byId[x]) {
        assert FilesAt(byId, s + {x}, at) == FilesAt(byId, s, at) + {x};
      } else {
        assert FilesAt(byId, s + {x}, at) == FilesAt(byId, s, at);
      }
    }
  }

  /** The counts of a tally add up to the number of counted files. */
  lemma CountsAddUp(byId: map<Id, Row>, s: set<Id>, locations: map<Location, nat>)
    requires CountsFiles(byId, s, locations)
    ensures Total(locations, locations.Keys) == |CountedFiles(byId, s)|
  {
    CountsOfPartAddUp(byId, s, locations, locations.Keys);
    forall m | m in CountedFiles(byId, s) ensures m in FilesIn(byId, s, locations.Keys) {
      assert CountsAt(byId, s, locations, LocationOf(byId[m]));
      assert m in FilesAt(byId, s, LocationOf(byId[m]));
    }
    assert FilesIn(byId, s, locations.Keys) == CountedFiles(byId, s);
  }

  function FilesIn(byId: map<Id, Row>, s: set<Id>, part: set<Location>): set<Id> {
    set m | m in s && m in byId && Counted(byId[m]) && LocationOf(byId[m]) in part
  }

  lemma {:induction false} CountsOfPartAddUp(byId: map<Id, Row>, s: set<Id>, locations: map<Location, nat>,
        part: set<Location>)
    requires CountsFiles(byId, s, locations) && part <= locations.Keys
    ensures Total(locations, part) == |FilesIn(byId, s, part)|
    decreases |part|
  {
    hide Counted, LocationOf;
    if part == {} {
      assert FilesIn(byId, s, part) == {};
    } else {
      var at :| at in part;
      CountsOfPartAddUp(byId, s, locations, part - {at});
      TotalSplit(locations, part, at);
      assert CountsAt(byId, s, locations, at);
      hide CountsFiles, CountsAt, Total;
      var (others, here) := (FilesIn(byId, s, part - {at}), FilesAt(byId, s, at));
      assert FilesIn(byId, s, part) == others + here && others !! here;
    }
  }

  function Tally(locations: map<Location, nat>, row: Row): map<Location, nat> {
    var at := LocationOf(row);
    if Counted(row) then locations[at := (if at in locations then locations[at] else 0) + 1] else locations
  }

  /** The walk has tallied everything below the root but what is under the stack. */
  ghost predicate Walked(parents: map<Id, Id>, byId: map<Id, Row>, all: set<Id>, stack: seq<Id>,
        locations: map<Location, nat>) {
    && Antichain(parents, stack) && Under(parents, stack) <= all
    && CountsFiles(byId, all - Under(parents, stack), locations)
  }

  lemma WalkStep(parents: map<Id, Id>, byId: map<Id, Row>, all: set<Id>, stack: seq<Id>, children: seq<Id>,
        locations: map<Location, nat>)
    requires IsForest(parents) && Walked(parents, byId, all, stack, locations) && stack != []
             && byId.Keys == parents.Keys
    requires IsChildList(parents, stack[|stack| - 1], children)
    ensures var (x, next) := (stack[|stack| - 1], stack[..|stack| - 1] + children);
            && x in byId && x in Under(parents, stack)
            && Under(parents, next) == Under(parents, stack) - {x}
            && Walked(parents, byId, all, next, Tally(locations, byId[x]))
  {
    hide Under, Antichain, IsForest, CountsFiles, Counted, LocationOf, IsChildList;
    var (x, next) := (stack[|stack| - 1], stack[..|stack| - 1] + children);
    TopIsRow(parents, stack);
    Visit(parents, stack, children);
    CountOneMore(byId, all - Under(parents, stack), x, locations);
    assert all - Under(parents, next) == (all - Under(parents, stack)) + {x};
  }

  /** collectRecycleStorageLocations: the same walk from the children of the root, tallying files. The
      code's skip of ids without a row never happens. */
  method CollectRecycleStorageLocations(rootId: Id, rowById: map<Id, Row>, childrenByParent: map<Id, seq<Id>>,
        ghost rows: seq<Row>)
    returns (locations: map<Location, nat>)
    requires Valid(rows) && MapsChildren(rows, childrenByParent) && rowById == ById(rows) && rootId in IdSet(rows)
    ensures CountsFiles(rowById, Under(Parents(rows), [rootId]) - {rootId}, locations)
  {
    ghost var parents := Parents(rows);
    assert rowById.Keys == parents.Keys;
    hide MapsChildren, Under, Antichain, IsForest, Parents, CountsFiles, Tally, Walked;
    ghost var all := Under(parents, [rootId]) - {rootId};
    locations := map[];
    var stack := Lookup(childrenByParent, rootId);
    StartBelow(rows, childrenByParent, rootId);
    StartWalk(parents, rowById, all, stack);
    while stack != []
      invariant Walked(parents, rowById, all, stack, locations)
      decreases |Under(parents, stack)|
    {
      WalkedIsApart(parents, rowById, all, stack, locations);
      var current := stack[|stack| - 1];
      LookupList(rows, childrenByParent, current);
      WalkStep(parents, rowById, all, stack, Lookup(childrenByParent, current), locations);
      stack := stack[..|stack| - 1] + Lookup(childrenByParent, current);
      locations := Tally(locations, rowById[current]);
    }
    EndWalk(parents, rowById, all, locations);
  }

  lemma StartWalk(parents: map<Id, Id>, byId: map<Id, Row>, all: set<Id>, stack: seq<Id>)
    requires Antichain(parents, stack) && Under(parents, stack) == all
    ensures Walked(parents, byId, all, stack, map[])
  {
    NothingCounted(byId);
    hide Under, Antichain, CountsFiles;
    assert all - Under(parents, stack) == {};
  }

  lemma WalkedIsApart(parents: map<Id, Id>, byId: map<Id, Row>, all: set<Id>, stack: seq<Id>, locations: map<Location,
        nat>)
    requires Walked(parents, byId, all, stack, locations) && stack != []
    ensures stack[|stack| - 1] in parents
  {
  }

  lemma EndWalk(parents: map<Id, Id>, byId: map<Id, Row>, all: set<Id>, locations: map<Location, nat>)
    requires Walked(parents, byId, all, [], locations)
    ensures CountsFiles(byId, all, locations)
  {
    NothingUnder(parents);
    assert all - {} == all;
  }

  lemma NothingCounted(byId: map<Id, Row>)
    ensures CountsFiles(byId, {}, map[])
  {
    forall at ensures CountsAt(byId, {}, map[], at) {
      assert FilesAt(byId, {}, at) == {};
    }
  }

  /** The children of the root are apart, and what is under them is everything below the root. */
  lemma StartBelow(rows: seq<Row>, childrenByParent: map<Id, seq<Id>>, rootId: Id)
    requires Valid(rows) && MapsChildren(rows, childrenByParent) && rootId in IdSet(rows)
    ensures var stack := Lookup(childrenByParent, rootId);
            Antichain(Parents(rows), stack) && Under(Parents(rows), stack) == Under(Parents(rows), [rootId]) - {rootId}
  {
    hide MapsChildren, Under, Antichain, IsForest;
    OneIsApart(Parents(rows), rootId);
    LookupList(rows, childrenByParent, rootId);
    Visit(Parents(rows), [rootId], Lookup(childrenByParent, rootId));
    assert [rootId][..0] + Lookup(childrenByParent, rootId) == Lookup(childrenByParent, rootId);
  }

  // ----- the listing -----

  /** Later deletions first, then higher ids. */
  predicate ListedBefore(a: RootItem, b: RootItem) {
    a.row.deletedAt > b.row.deletedAt || (a.row.deletedAt == b.row.deletedAt && a.row.id >= b.row.id)
  }

  /** What the listing says about one root. */
  ghost predicate Describes(rows: seq<Row>, item: RootItem) {
    && item.row.id in IdSet(rows)
    && item.descendants + 1 == |Under(Parents(rows), [item.row.id])|
    && if item.row.file then
         item.locations == if TrimSpace(item.row.provider) == "" && TrimSpace(item.row.bucket) == "" then map[]
                           else map[Location(item.row.provider, item.row.bucket) := 1]
       else CountsFiles(ById(rows), Under(Parents(rows), [item.row.id]) - {item.row.id}, item.locations)
  }

  /** The rows of the items are exactly the roots. */
  ghost predicate Lists(rows: seq<Row>, items: seq<RootItem>) {
    forall row :: row in rows && IsRoot(IdSet(rows), row) <==> exists item <- items :: item.row == row
  }

  /** GetRecycleBinItems on the deleted rows of a library. */
  method GetRecycleBinItems(rows: seq<Row>) returns (items: seq<RootItem>)
    requires Valid(rows)
    ensures Lists(rows, items) && Sorted(ListedBefore, items)
    ensures forall item <- items :: Describes(rows, item)
    ensures SumOf(Weights(items)) == |rows|
  {
    hide MapsChildren, Under, TopLevel, Lists, Describes, ListedBefore, IsForest;
    var deletedSet := IdSet(rows);
    var topLevel := TopLevel(rows, deletedSet);
    var childrenByParent := BuildRecycleChildrenByParent(rows, deletedSet);
    var rowById := ById(rows);
    var described: seq<RootItem> := [];
    for n := 0 to |topLevel|
      invariant |described| == n && forall k | 0 <= k < n ::
                described[k].row == topLevel[k] && Describes(rows, described[k])
    {
      assert topLevel[n] in topLevel;
      var item := DescribeRoot(rows, topLevel[n], rowById, childrenByParent);
      described := described + [item];
    }
    items := Sort(ListedBefore, described);
    ListingIsComplete(rows, topLevel, described);
  }

  lemma ListingIsComplete(rows: seq<Row>, topLevel: seq<Row>, described: seq<RootItem>)
    requires Valid(rows) && topLevel == TopLevel(rows, IdSet(rows)) && |described| == |topLevel|
    requires forall k | 0 <= k < |described| :: described[k].row == topLevel[k] && Describes(rows, described[k])
    ensures var items := Sort(ListedBefore, described);
            && Lists(rows, items) && Sorted(ListedBefore, items)
            && (forall item <- items :: Describes(rows, item))
            && SumOf(Weights(items)) == |rows|
  {
    hide Describes, ListedBefore, IsForest;
    var items := Sort(ListedBefore, described);
    TopLevelDistinct(rows, IdSet(rows));
    SortedItems(described);
    forall row | row in topLevel ensures exists item <- items :: item.row == row {
      var k :| 0 <= k < |topLevel| && topLevel[k] == row;
      assert described[k] in items;
    }
    assert Lists(rows, items);
    ItemsListRoots(rows, items);
    hide Lists, ListsRoots, TopLevel;
    forall k | 0 <= k < |items| ensures items[k].descendants + 1 == |Under(Parents(rows), [items[k].row.id])| {
      assert items[k] in described;
      DescribedSize(rows, items[k]);
    }
    RootsAddUp(rows, items);
  }

  lemma DescribedSize(rows: seq<Row>, item: RootItem)
    requires Describes(rows, item)
    ensures item.descendants + 1 == |Under(Parents(rows), [item.row.id])|
  {
  }

  /** A root with the number of rows under it, itself included. */
  function Weights(items: seq<RootItem>): (weights: seq<nat>)
    ensures |weights| == |items| && forall k | 0 <= k < |items| :: weights[k] == items[k].descendants + 1
  {
    seq(|items|, k requires 0 <= k < |items| => items[k].descendants + 1)
  }

  lemma IdSetSize(rows: seq<Row>)
    requires DistinctIds(rows)
    ensures |IdSet(rows)| == |rows|
  {
    if rows != [] {
      var (init, last) := (rows[..|rows| - 1], rows[|rows| - 1]);
      IdSetSize(init);
      assert forall r :: r in rows <==> r in init || r == last;
      assert IdSet(rows) == IdSet(init) + {last.id};
    }
  }

  function RootIds(items: seq<RootItem>): (ids: seq<Id>)
    ensures |ids| == |items| && forall k | 0 <= k < |ids| :: ids[k] == items[k].row.id
  {
    seq(|items|, k requires 0 <= k < |items| => items[k].row.id)
  }

  /** However the roots are ordered, their subtrees add up to all rows. */
  lemma RootsAddUp(rows: seq<Row>, items: seq<RootItem>)
    requires Valid(rows) && ListsRoots(rows, RootIds(items))
    requires forall k | 0 <= k < |items| :: items[k].descendants + 1 == |Under(Parents(rows), [items[k].row.id])|
    ensures SumOf(Weights(items)) == |rows|
  {
    RootsApart(rows, RootIds(items));
    RootsCover(rows, RootIds(items));
    IdSetSize(rows);
    hide Under, Antichain, ListsRoots, DistinctIds;
    SubtreesAddUp(Parents(rows), RootIds(items), Weights(items));
  }

  lemma SortedItems(described: seq<RootItem>)
    requires forall i, j | 0 <= i < j < |described| :: described[i].row.id != described[j].row.id
    ensures var items := Sort(ListedBefore, described);
            && Sorted(ListedBefore, items)
            && (forall item :: item in items <==> item in described)
            && forall i, j | 0 <= i < j < |items| :: items[i].row.id != items[j].row.id
  {
    var items := Sort(ListedBefore, described);
    SortSorts(ListedBefore, described);
    var key := (item: RootItem) => item.row.id as int;
    DistinctStaysDistinct(key, described, items);
    assert forall i, j | 0 <= i < j < |items| :: key(items[i]) != key(items[j]);
    assert forall item :: item in items <==> item in multiset(items);
    assert forall item :: item in described <==> item in multiset(described);
  }

  /** The items of a listing, in any order, are the roots. */
  lemma ItemsListRoots(rows: seq<Row>, items: seq<RootItem>)
    requires forall row :: row in rows && IsRoot(IdSet(rows), row) <==> exists item <- items :: item.row == row
    requires forall i, j | 0 <= i < j < |items| :: items[i].row.id != items[j].row.id
    ensures ListsRoots(rows, RootIds(items))
  {
    var ids := RootIds(items);
    forall row | row in rows && IsRoot(IdSet(rows), row) ensures row.id in ids {
      var item :| item in items && item.row == row;
      var k :| 0 <= k < |items| && items[k] == item;
      assert ids[k] == row.id;
    }
    forall x | x in ids ensures exists row <- rows :: row.id == x && IsRoot(IdSet(rows), row) {
      var k :| 0 <= k < |ids| && ids[k] == x;
      assert items[k] in items;
    }
  }

  lemma SelfUnder(parents: map<Id, Id>, x: Id)
    requires x in parents
    ensures x in Under(parents, [x]) && |Under(parents, [x])| > 0
  {
    assert [x][0] == x && x in Path(parents, x);
  }

  method DescribeRoot(rows: seq<Row>, row: Row, rowById: map<Id, Row>, childrenByParent: map<Id, seq<Id>>)
        returns (item: RootItem)
    requires Valid(rows) && MapsChildren(rows, childrenByParent) && rowById == ById(rows) && row in rows
    ensures item.row == row && Describes(rows, item)
  {
    hide MapsChildren, IsForest, CountsFiles, Path, DistinctIds;
    assert row.id != 0;
    var subtreeCount := CountDeletedSubtree(childrenByParent, row.id, rows);
    SelfUnder(Parents(rows), row.id);
    hide Under, Valid, Parents;
    var descendants := 0;
    if subtreeCount > 1 {
      descendants := subtreeCount - 1;
    }
    var locations: map<Location, nat> := map[];
    if !row.file {
      locations := CollectRecycleStorageLocations(row.id, rowById, childrenByParent, rows);
    } else if TrimSpace(row.provider) != "" || TrimSpace(row.bucket) != "" {
      locations := map[Location(row.provider, row.bucket) := 1];
    }
    item := RootItem(row, descendants, locations);
  }
}
