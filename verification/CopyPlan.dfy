/** Planning the copy of a subtree: a growing worklist that lists the subtree once, parents first,
    within 1000 nodes and 1 GiB. The rows are the live rows of one library. */
module CopyPlan {
  import opened Forest
  import opened Fresh
  import opened GoText
  import NodeNames
  import opened SetSum
  import opened Wrappers

  const MAX_COPY_NODES := 1000
  const MAX_COPY_BYTES: int := 0x4000_0000

  datatype Kind = File | Directory | Other

  datatype Loc = Loc(provider: string, key: string)

  datatype Row = Row(parent: Id, kind: Kind, name: string, ext: string, fileSize: int, loc: Loc, bucket: string)

  /** The configured providers with their buckets, and the objects they hold. */
  datatype Storage = Storage(buckets: map<string, string>, objects: map<Loc, int>)

  datatype Item = Item(id: Id, row: Row, key: string)

  datatype Error = InvalidArgument | NotFound | Conflict | Unavailable

  // ----- the subtree -----

  function Parents(rows: map<Id, Row>): map<Id, Id> {
    map n | n in rows :: rows[n].parent
  }

  /** Live rows form a forest, and only directories have children. */
  ghost predicate Valid(rows: map<Id, Row>) {
    && 0 !in rows && IsForest(Parents(rows))
    && forall n <- rows | rows[n].parent in rows :: rows[rows[n].parent].kind.Directory?
  }

  function Children(rows: map<Id, Row>, n: Id): set<Id> {
    set c | c in rows && rows[c].parent == n
  }

  /** root and everything below it. */
  function Subtree(rows: map<Id, Row>, root: Id): set<Id> {
    set n | n in rows && root in Path(Parents(rows), n)
  }

  lemma ChildInSubtree(rows: map<Id, Row>, root: Id, n: Id, c: Id)
    requires Valid(rows) && n in Subtree(rows, root) && c in Children(rows, n)
    ensures c in Subtree(rows, root) && c != root
  {
    var parents := Parents(rows);
    PathUnfold(parents, c);
    NoCycle(parents, c);
  }

  /** A set that holds root and, with each node, its children, holds the subtree. */
  lemma {:induction false} ClosedHoldsSubtree(rows: map<Id, Row>, root: Id, s: set<Id>, n: Id)
    requires Valid(rows) && root in s && n in Subtree(rows, root)
    requires forall m <- s :: Children(rows, m) <= s
    ensures n in s
    decreases |Path(Parents(rows), n)|
  {
    var parents := Parents(rows);
    PathUnfold(parents, n);
    if n != root {
      assert root in Path(parents, parents[n]);
      PathUnfold(parents, parents[n]);
      ClosedHoldsSubtree(rows, root, s, parents[n]);
      assert n in Children(rows, parents[n]);
    }
  }

  // ----- what may be copied -----

  predicate Readable(st: Storage, row: Row) {
    && row.loc.key != ""
    && row.loc.provider in st.buckets && st.buckets[row.loc.provider] == row.bucket
    && row.loc in st.objects && st.objects[row.loc] >= 0 && st.objects[row.loc] == row.fileSize
  }

  predicate Copyable(st: Storage, row: Row) {
    row.kind.Directory? || (row.kind.File? && Readable(st, row))
  }

  function FileBytes(row: Row): nat {
    if row.kind.File? && row.fileSize >= 0 then row.fileSize else 0
  }

  function Sizes(rows: map<Id, Row>): map<Id, nat> {
    map n | n in rows :: FileBytes(rows[n])
  }

  /** When a subtree fits: every node can be copied, 1000 nodes at most, 1 GiB at most. */
  ghost predicate Fits(rows: map<Id, Row>, st: Storage, root: Id) {
    && (forall n <- Subtree(rows, root) :: Copyable(st, rows[n]))
    && |Subtree(rows, root)| <= MAX_COPY_NODES
    && Total(Sizes(rows), Subtree(rows, root)) <= MAX_COPY_BYTES
  }

  // ----- the worklist -----

  function ItemIds(items: seq<Item>): (ids: seq<Id>)
    ensures |ids| == |items| && forall k | 0 <= k < |ids| :: ids[k] == items[k].id
  {
    seq(|items|, k requires 0 <= k < |items| => items[k].id)
  }

  function SetOf(ids: seq<Id>): set<Id> {
    set id | id in ids
  }

  predicate Distinct(ids: seq<Id>) {
    forall i, j | 0 <= i < j < |ids| :: ids[i] != ids[j]
  }

  /** Every node but the first is listed after its parent. */
  predicate ParentsFirst(rows: map<Id, Row>, ids: seq<Id>, expanded: nat) {
    forall k | 0 < k < |ids| :: ids[k] in rows && exists j | 0 <= j < k && j < expanded :: ids[j] == rows[ids[k]].parent
  }

  /** The first `expanded` nodes of the worklist have their children on it. */
  ghost predicate Explored(rows: map<Id, Row>, root: Id, ids: seq<Id>, expanded: nat) {
    && expanded <= |ids| && 0 < |ids| <= MAX_COPY_NODES && ids[0] == root
    && Distinct(ids) && SetOf(ids) <= Subtree(rows, root)
    && ParentsFirst(rows, ids, expanded)
    && forall k | 0 <= k < expanded :: Children(rows, ids[k]) <= SetOf(ids)
  }

  lemma DistinctSize(ids: seq<Id>)
    requires Distinct(ids)
    ensures |SetOf(ids)| == |ids|
  {
    if ids != [] {
      DistinctSize(ids[..|ids| - 1]);
      assert SetOf(ids) == SetOf(ids[..|ids| - 1]) + {ids[|ids| - 1]};
    }
  }

  /** The children of the next node are not on the list yet. */
  lemma ChildIsNew(rows: map<Id, Row>, root: Id, ids: seq<Id>, i: nat, c: Id)
    requires Valid(rows) && Explored(rows, root, ids, i) && i < |ids| && c in Children(rows, ids[i])
    ensures c !in ids
  {
    ChildInSubtree(rows, root, ids[i], c);
  }

  lemma AppendKeepsOrder(rows: map<Id, Row>, ids: seq<Id>, i: nat, page: seq<Id>)
    requires ParentsFirst(rows, ids, i) && i < |ids| && SetOf(page) <= Children(rows, ids[i])
    ensures ParentsFirst(rows, ids + page, i + 1)
  {
    var longer := ids + page;
    forall k | 0 < k < |longer|
      ensures longer[k] in rows && exists j | 0 <= j < k && j < i + 1 :: longer[j] == rows[longer[k]].parent
    {
      if k < |ids| {
        var j :| 0 <= j < k && j < i && ids[j] == rows[ids[k]].parent;
        assert longer[j] == rows[longer[k]].parent;
      } else {
        assert page[k - |ids|] in SetOf(page);
        assert longer[i] == rows[longer[k]].parent;
      }
    }
  }

  /** Appending some children of the next node. */
  lemma AppendChildren(rows: map<Id, Row>, root: Id, ids: seq<Id>, i: nat, page: seq<Id>)
    requires Valid(rows) && Explored(rows, root, ids, i) && i < |ids|
    requires Distinct(page) && SetOf(page) <= Children(rows, ids[i])
    ensures Distinct(ids + page) && SetOf(ids + page) <= Subtree(rows, root) && ParentsFirst(rows, ids + page, i + 1)
  {
    AppendKeepsOrder(rows, ids, i, page);
    forall c | c in page ensures c !in ids && c in Subtree(rows, root) {
      assert c in SetOf(page);
      ChildIsNew(rows, root, ids, i, c);
      ChildInSubtree(rows, root, ids[i], c);
    }
    assert SetOf(page) <= Subtree(rows, root);
    hide Valid, ParentsFirst, Children, Subtree;
    var longer := ids + page;
    forall a, b | 0 <= a < b < |longer| ensures longer[a] != longer[b] {
      if b >= |ids| {
        assert longer[b] in page;
        assert a < |ids| ==> longer[a] in ids;
      }
    }
    assert SetOf(longer) == SetOf(ids) + SetOf(page);
  }

  lemma ExpandAll(rows: map<Id, Row>, root: Id, ids: seq<Id>, i: nat, page: seq<Id>)
    requires Valid(rows) && Explored(rows, root, ids, i) && i < |ids|
    requires Distinct(page) && SetOf(page) == Children(rows, ids[i]) && |ids| + |page| <= MAX_COPY_NODES
    ensures Explored(rows, root, ids + page, i + 1)
  {
    AppendChildren(rows, root, ids, i, page);
    assert SetOf(ids + page) == SetOf(ids) + SetOf(page);
  }

  /** More than 1000 nodes on the list means the subtree does not fit. */
  lemma TooMany(rows: map<Id, Row>, st: Storage, root: Id, ids: seq<Id>, i: nat, page: seq<Id>)
    requires Valid(rows) && Explored(rows, root, ids, i) && i < |ids|
    requires Distinct(page) && SetOf(page) <= Children(rows, ids[i]) && |ids| + |page| > MAX_COPY_NODES
    ensures !Fits(rows, st, root)
  {
    AppendChildren(rows, root, ids, i, page);
    DistinctSize(ids + page);
    TotalOfPart(Sizes(rows), SetOf(ids + page), Subtree(rows, root));
  }

  /** A fully explored list is the subtree. */
  lemma ExploredIsSubtree(rows: map<Id, Row>, root: Id, ids: seq<Id>)
    requires Valid(rows) && Explored(rows, root, ids, |ids|)
    ensures SetOf(ids) == Subtree(rows, root)
  {
    assert root in SetOf(ids);
    forall m | m in SetOf(ids) ensures Children(rows, m) <= SetOf(ids) {
      var k :| 0 <= k < |ids| && ids[k] == m;
    }
    forall n | n in Subtree(rows, root) ensures n in SetOf(ids) {
      ClosedHoldsSubtree(rows, root, SetOf(ids), n);
    }
  }

  /** The first i nodes passed their checks and weigh `total`. */
  ghost predicate Weighed(rows: map<Id, Row>, st: Storage, ids: seq<Id>, i: nat, total: int) {
    && i <= |ids| && SetOf(ids) <= rows.Keys
    && (forall k | 0 <= k < i :: Copyable(st, rows[ids[k]]))
    && total == Total(Sizes(rows), SetOf(ids[..i])) && total <= MAX_COPY_BYTES
  }

  lemma WeighNext(rows: map<Id, Row>, st: Storage, root: Id, ids: seq<Id>, i: nat, total: int)
    requires Distinct(ids) && i < |ids| && Weighed(rows, st, ids, i, total)
    ensures Total(Sizes(rows), SetOf(ids[..i + 1])) == total + FileBytes(rows[ids[i]])
  {
    var now := SetOf(ids[..i + 1]);
    assert ids[..i + 1] == ids[..i] + [ids[i]];
    assert now - {ids[i]} == SetOf(ids[..i]);
    TotalSplit(Sizes(rows), now, ids[i]);
  }

  // ----- the name of the copy -----

  const MAX_EXT_LENGTH := 32

  /** path.Ext of a name without slashes: from the last dot on. */
  function Ext(full: string): (suffix: string)
    ensures |suffix| <= |full| && suffix == full[|full| - |suffix|..]
    ensures if suffix == "" then '.' !in full else suffix[0] == '.' && '.' !in suffix[1..]
  {
    if full == "" then ""
    else
      var rest := Ext(full[1..]);
      if rest == "" && full[0] == '.' then full else rest
  }

  predicate ValidFilename(full: string) {
    && Trimmed(full) && full !in {"", ".", ".."} && |full| <= NodeNames.MAX_NAME_LENGTH
    && forall c <- full :: c !in {'/', '\\', '\0', '\r', '\n'}
  }

  /** copyNodeName: a full file name into name and extension. */
  function CopyNodeName(full: string, kind: Kind): (r: Result<(string, string), Error>)
    ensures r.Ok? ==> ValidFilename(full) && full == if r.value.1 == "" then r.value.0 else r.value.0 + "." + r.value.1
    ensures r.Ok? ==> |r.value.1| <= MAX_EXT_LENGTH && (!kind.File? ==> r.value.1 == "")
  {
    var suffix := Ext(full);
    if !ValidFilename(full) || (kind.File? && suffix == ".") then Err(InvalidArgument)
    else if kind.File? && suffix != full && suffix != "" then
      if |suffix| - 1 > MAX_EXT_LENGTH then Err(InvalidArgument)
      else Ok((full[..|full| - |suffix|], suffix[1..]))
    else Ok((full, ""))
  }

  // ----- the code -----

  /** ListDirectChildrenLimited: up to `limit` children; all of them when there are no more. */
  method ListDirectChildrenLimited(rows: map<Id, Row>, n: Id, limit: nat) returns (page: seq<Id>)
    ensures Distinct(page) && SetOf(page) <= Children(rows, n) && |page| <= limit
    ensures |page| < limit ==> SetOf(page) == Children(rows, n)
  {
    page := [];
    var rest := Children(rows, n);
    while rest != {} && |page| < limit
      invariant Distinct(page) && |page| <= limit
      invariant rest <= Children(rows, n) && SetOf(page) == Children(rows, n) - rest
      decreases rest
    {
      var c :| c in rest;
      assert SetOf(page + [c]) == SetOf(page) + {c};
      page, rest := page + [c], rest - {c};
    }
  }

  /** The items are the rows of the subtree; only the first may carry another name. */
  predicate CarriesRows(rows: map<Id, Row>, items: seq<Item>) {
    && (forall k | 0 <= k < |items| ::
          items[k].id in rows && items[k].row == rows[items[k].id].(name := items[k].row.name, ext := items[k].row.ext))
    && (forall k | 0 < k < |items| :: items[k].row == rows[items[k].id])
  }

  /** What the caller of the plan relies on: the subtree once, parents first, with a new key for each file. */
  ghost predicate IsPlan(rows: map<Id, Row>, root: Id, usedKeys: set<string>, items: seq<Item>) {
    var ids := ItemIds(items);
    && 0 < |ids| <= MAX_COPY_NODES && ids[0] == root && Distinct(ids) && SetOf(ids) == Subtree(rows, root)
    && ParentsFirst(rows, ids, |ids|)
    && KeysFit(items, |items|, usedKeys)
    && CarriesRows(rows, items)
  }

  /** Files among the first n items have keys of their own, not used before. */
  predicate KeysFit(items: seq<Item>, n: nat, usedKeys: set<string>) {
    && n <= |items|
    && (forall k | 0 <= k < n :: items[k].key != "" <==> items[k].row.kind.File?)
    && (forall k | n <= k < |items| :: items[k].key == "")
    && (forall k | 0 <= k < |items| :: items[k].key !in usedKeys || items[k].key == "")
    && (forall j, k | 0 <= j < k < |items| :: items[j].key == items[k].key ==> items[j].key == "")
  }

  /** The checks before the worklist. */
  predicate MayCopy(rows: map<Id, Row>, nodeId: Id, parentId: Id, recursive: bool) {
    && nodeId in rows && rows[nodeId].parent != 0
    && (rows[nodeId].kind.Directory? ==> recursive)
    && parentId in rows && rows[parentId].kind.Directory?
    && parentId != nodeId && nodeId !in Path(Parents(rows), parentId)
  }

  predicate RowsMatch(rows: map<Id, Row>, items: seq<Item>) {
    forall k | 0 <= k < |items| :: items[k].id in rows && items[k].row == rows[items[k].id]
  }

  /** The worklist with the children of the node whose turn it is; none of them was seen before. */
  method AppendItems(rows: map<Id, Row>, items: seq<Item>, page: seq<Id>, seen: set<Id>)
    returns (longer: seq<Item>, seen': set<Id>)
    requires RowsMatch(rows, items) && seen == SetOf(ItemIds(items)) && SetOf(page) <= rows.Keys
    requires Distinct(ItemIds(items) + page)
    ensures RowsMatch(rows, longer) && ItemIds(longer) == ItemIds(items) + page && seen' == SetOf(ItemIds(longer))
    ensures items <= longer && forall k | |items| <= k < |longer| :: longer[k].key == ""
  {
    longer, seen' := items, seen;
    for n := 0 to |page|
      invariant RowsMatch(rows, longer) && ItemIds(longer) == ItemIds(items) + page[..n]
                && seen' == SetOf(ItemIds(longer))
      invariant items <= longer && forall k | |items| <= k < |longer| :: longer[k].key == ""
    {
      // The code's "cyclic node tree" refusal cannot happen in a forest.
      assert page[n] !in seen' by {
        assert (ItemIds(items) + page)[|items| + n] == page[n];
        assert (ItemIds(items) + page)[..|items| + n] == ItemIds(longer);
        assert forall k | 0 <= k < |items| + n :: (ItemIds(items) + page)[k] != page[n];
      }
      assert page[n] in SetOf(page);
      var item := Item(page[n], rows[page[n]], "");
      assert ItemIds(longer + [item]) == ItemIds(longer) + [page[n]];
      assert page[..n + 1] == page[..n] + [page[n]];
      seen' := seen' + {page[n]};
      longer := longer + [item];
    }
    assert page[..|page|] == page;
  }

  lemma FullyWeighedFits(rows: map<Id, Row>, st: Storage, root: Id, ids: seq<Id>, total: int)
    requires Valid(rows) && Explored(rows, root, ids, |ids|) && Weighed(rows, st, ids, |ids|, total)
    ensures SetOf(ids) == Subtree(rows, root) && Fits(rows, st, root)
  {
    ExploredIsSubtree(rows, root, ids);
    DistinctSize(ids);
    assert ids[..|ids|] == ids;
    forall n | n in Subtree(rows, root) ensures Copyable(st, rows[n]) {
      assert n in SetOf(ids);
    }
  }

  /** The next node passes; the list may have grown behind it. */
  lemma WeighedNext(rows: map<Id, Row>, st: Storage, root: Id, ids: seq<Id>, longer: seq<Id>, i: nat, total: int)
    requires Distinct(ids) && i < |ids| && Weighed(rows, st, ids, i, total) && Copyable(st, rows[ids[i]])
    requires FileBytes(rows[ids[i]]) <= MAX_COPY_BYTES - total
    requires ids <= longer && SetOf(longer) <= rows.Keys
    ensures Weighed(rows, st, longer, i + 1, total + FileBytes(rows[ids[i]]))
  {
    WeighNext(rows, st, root, ids, i, total);
    assert longer[..i + 1] == ids[..i + 1];
  }

  /** The worklist after i steps. */
  ghost predicate Progress(rows: map<Id, Row>, st: Storage, root: Id, items: seq<Item>, i: nat, total: int,
                           usedKeys: set<string>, used: set<string>)
  {
    && Explored(rows, root, ItemIds(items), i)
    && Weighed(rows, st, ItemIds(items), i, total)
    && RowsMatch(rows, items)
    && KeysFit(items, i, usedKeys)
    && usedKeys <= used
    && forall k | 0 <= k < |items| :: items[k].key in used || items[k].key == ""
  }

  lemma StartOfPlan(rows: map<Id, Row>, st: Storage, root: Id, usedKeys: set<string>)
    requires Valid(rows) && root in rows
    ensures Progress(rows, st, root, [Item(root, rows[root], "")], 0, 0, usedKeys, usedKeys)
    ensures SetOf(ItemIds([Item(root, rows[root], "")])) == {root}
  {
    var items := [Item(root, rows[root], "")];
    assert ItemIds(items) == [root];
    PathUnfold(Parents(rows), root);
  }

  lemma MoreKeysFit(items: seq<Item>, longer: seq<Item>, i: nat, usedKeys: set<string>)
    requires KeysFit(items, i, usedKeys) && i < |items| && items <= longer && !items[i].row.kind.File?
    requires forall k | |items| <= k < |longer| :: longer[k].key == ""
    ensures KeysFit(longer, i + 1, usedKeys)
  {
  }

  lemma DirectoryPasses(rows: map<Id, Row>, st: Storage, root: Id, items: seq<Item>, longer: seq<Item>, i: nat,
        total: int,
                        usedKeys: set<string>, used: set<string>)
    requires Progress(rows, st, root, items, i, total, usedKeys, used) && i < |items| && items[i].row.kind.Directory?
    requires Explored(rows, root, ItemIds(longer), i + 1) && RowsMatch(rows, longer)
    requires items <= longer && forall k | |items| <= k < |longer| :: longer[k].key == ""
    ensures Progress(rows, st, root, longer, i + 1, total, usedKeys, used)
  {
    MoreKeysFit(items, longer, i, usedKeys);
    hide KeysFit;
    assert ItemIds(items) <= ItemIds(longer);
    assert SetOf(ItemIds(longer)) <= rows.Keys;
    assert Distinct(ItemIds(items));
    hide Explored;
    WeighedNext(rows, st, root, ItemIds(items), ItemIds(longer), i, total);
    hide Weighed, SetOf, Distinct;
  }

  /** A node that is not a directory has no children, so it is expanded as it stands. */
  lemma FileIsExplored(rows: map<Id, Row>, root: Id, ids: seq<Id>, i: nat)
    requires Valid(rows) && Explored(rows, root, ids, i) && i < |ids| && ids[i] in rows && !rows[ids[i]].kind.Directory?
    ensures Explored(rows, root, ids, i + 1)
  {
    assert Children(rows, ids[i]) == {};
    ExpandAll(rows, root, ids, i, []);
    assert ids + [] == ids;
  }

  lemma OneMoreKey(items: seq<Item>, i: nat, usedKeys: set<string>, used: set<string>, key: string)
    requires KeysFit(items, i, usedKeys) && i < |items| && items[i].row.kind.File? && usedKeys <= used
    requires key != "" && key !in used && forall k | 0 <= k < |items| :: items[k].key in used || items[k].key == ""
    ensures KeysFit(items[i := items[i].(key := key)], i + 1, usedKeys)
  {
  }

  lemma KeyedItems(rows: map<Id, Row>, items: seq<Item>, i: nat, used: set<string>, key: string)
    requires RowsMatch(rows, items) && i < |items|
    requires forall k | 0 <= k < |items| :: items[k].key in used || items[k].key == ""
    ensures var keyed := items[i := items[i].(key := key)];
            && ItemIds(keyed) == ItemIds(items) && RowsMatch(rows, keyed)
            && forall k | 0 <= k < |keyed| :: keyed[k].key in used + {key} || keyed[k].key == ""
    ensures ItemIds(items)[i] in rows && rows[ItemIds(items)[i]] == items[i].row
  {
  }

  lemma FilePasses(rows: map<Id, Row>, st: Storage, root: Id, items: seq<Item>, i: nat, total: int,
                   usedKeys: set<string>, used: set<string>, key: string)
    requires Valid(rows) && Progress(rows, st, root, items, i, total, usedKeys, used) && i < |items|
    requires items[i].row.kind.File? && Copyable(st, items[i].row) && items[i].row.fileSize <= MAX_COPY_BYTES - total
    requires key != "" && key !in used
    ensures Progress(rows, st, root, items[i := items[i].(key := key)], i + 1, total + items[i].row.fileSize, usedKeys,
            used + {key})
  {
    assert Distinct(ItemIds(items)) && SetOf(ItemIds(items)) <= rows.Keys;
    hide Weighed, Explored, Valid, KeysFit, SetOf, Distinct, RowsMatch, ItemIds, Copyable;
    KeyedItems(rows, items, i, used, key);
    OneMoreKey(items, i, usedKeys, used, key);
    FileIsExplored(rows, root, ItemIds(items), i);
    WeighedNext(rows, st, root, ItemIds(items), ItemIds(items), i, total);
  }

  lemma NotCopyable(rows: map<Id, Row>, st: Storage, root: Id, items: seq<Item>, i: nat, total: int,
                    usedKeys: set<string>, used: set<string>)
    requires Progress(rows, st, root, items, i, total, usedKeys, used) && i < |items| && !Copyable(st, items[i].row)
    ensures !Fits(rows, st, root)
  {
    assert ItemIds(items)[i] in SetOf(ItemIds(items));
  }

  lemma TooHeavy(rows: map<Id, Row>, st: Storage, root: Id, items: seq<Item>, i: nat, total: int,
                 usedKeys: set<string>, used: set<string>)
    requires Progress(rows, st, root, items, i, total, usedKeys, used) && i < |items|
    requires FileBytes(items[i].row) > MAX_COPY_BYTES - total
    ensures !Fits(rows, st, root)
  {
    var ids := ItemIds(items);
    WeighNext(rows, st, root, ids, i, total);
    assert SetOf(ids[..i + 1]) <= SetOf(ids);
    TotalOfPart(Sizes(rows), SetOf(ids[..i + 1]), Subtree(rows, root));
  }

  lemma MatchedRows(rows: map<Id, Row>, items: seq<Item>)
    requires RowsMatch(rows, items)
    ensures CarriesRows(rows, items)
  {
  }

  /** The finished worklist is a plan. */
  lemma FinishedPlan(rows: map<Id, Row>, st: Storage, root: Id, items: seq<Item>, total: int, usedKeys: set<string>,
        used: set<string>)
    requires Valid(rows) && Progress(rows, st, root, items, |items|, total, usedKeys, used)
    ensures Fits(rows, st, root) && IsPlan(rows, root, usedKeys, items) && |items| > 0 && items[0].row == rows[root]
  {
    hide Weighed, Valid, Fits, KeysFit, ParentsFirst, Subtree, SetOf, Distinct, Children, CarriesRows;
    FullyWeighedFits(rows, st, root, ItemIds(items), total);
    MatchedRows(rows, items);
    assert items[0].id == ItemIds(items)[0];
  }

  /** The children of the next node of the worklist, or a refusal when the list would pass 1000. */
  method ExpandDirectory(rows: map<Id, Row>, st: Storage, root: Id, items: seq<Item>, i: nat, seen: set<Id>,
        ghost total: int,
                         ghost usedKeys: set<string>, ghost used: set<string>)
    returns (r: Result<seq<Item>, Error>, seen': set<Id>)
    requires Valid(rows) && Progress(rows, st, root, items, i, total, usedKeys, used)
    requires i < |items| <= MAX_COPY_NODES && items[i].row.kind.Directory? && seen == SetOf(ItemIds(items))
    ensures r.Err? ==> !Fits(rows, st, root)
    ensures r.Ok? ==>
            && Progress(rows, st, root, r.value, i + 1, total, usedKeys, used)
            && i < |r.value| <= MAX_COPY_NODES && seen' == SetOf(ItemIds(r.value))
  {
    hide Valid, Fits, Explored, Weighed, KeysFit;
    seen' := seen;
    var ids := ItemIds(items);
    var page := ListDirectChildrenLimited(rows, items[i].id, MAX_COPY_NODES - |items| + 1);
    if |items| + |page| > MAX_COPY_NODES {
      TooMany(rows, st, root, ids, i, page);
      return Err(InvalidArgument), seen';
    }
    ExpandAll(rows, root, ids, i, page);
    AppendChildren(rows, root, ids, i, page);
    var longer: seq<Item>;
    longer, seen' := AppendItems(rows, items, page, seen);
    DirectoryPasses(rows, st, root, items, longer, i, total, usedKeys, used);
    assert |ItemIds(longer)| == |items| + |page|;
    r := Ok(longer);
  }

  /** The worklist loop of planNodeCopy. */
  method ListSubtree(rows: map<Id, Row>, st: Storage, root: Id, usedKeys: set<string>)
        returns (r: Result<seq<Item>, Error>)
    requires Valid(rows) && root in rows
    ensures r.Ok? <==> Fits(rows, st, root)
    ensures r.Ok? ==> IsPlan(rows, root, usedKeys, r.value) && |r.value| > 0 && r.value[0].row == rows[root]
  {
    hide Valid, Fits, IsPlan, Progress;
    var items := [Item(root, rows[root], "")];
    var seen := {root};
    var total, i, used := 0, 0, usedKeys;
    StartOfPlan(rows, st, root, usedKeys);
    while i < |items|
      invariant i <= |items| <= MAX_COPY_NODES && Progress(rows, st, root, items, i, total, usedKeys, used)
      invariant seen == SetOf(ItemIds(items))
      decreases MAX_COPY_NODES - i
    {
      if items[i].row.kind.Directory? {
        var expanded: Result<seq<Item>, Error>;
        expanded, seen := ExpandDirectory(rows, st, root, items, i, seen, total, usedKeys, used);
        if expanded.Err? {
          return Err(expanded.error);
        }
        items := expanded.value;
      } else {
        var row := items[i].row;
        if !row.kind.File? || row.loc.key == "" || row.loc.provider !in st.buckets
            || st.buckets[row.loc.provider] != row.bucket {
          NotCopyable(rows, st, root, items, i, total, usedKeys, used);
          return Err(InvalidArgument);
        }
        if row.loc !in st.objects || st.objects[row.loc] < 0 || st.objects[row.loc] != row.fileSize {
          NotCopyable(rows, st, root, items, i, total, usedKeys, used);
          return Err(Conflict);
        }
        if row.fileSize > MAX_COPY_BYTES - total {
          TooHeavy(rows, st, root, items, i, total, usedKeys, used);
          return Err(InvalidArgument);
        }
        FreshKey(used);
        var key :| key != "" && key !in used;
        FilePasses(rows, st, root, items, i, total, usedKeys, used, key);
        assert ItemIds(items[i := items[i].(key := key)]) == ItemIds(items);
        total := total + row.fileSize;
        used := used + {key};
        items := items[i := items[i].(key := key)];
      }
      i := i + 1;
    }
    FinishedPlan(rows, st, root, items, total, usedKeys, used);
    r := Ok(items);
  }

  /** Changing the name of the first item keeps it a plan. */
  lemma RenamedPlan(rows: map<Id, Row>, root: Id, usedKeys: set<string>, items: seq<Item>, name: string, ext: string)
    requires IsPlan(rows, root, usedKeys, items) && |items| > 0 && items[0].row == rows[root]
    ensures IsPlan(rows, root, usedKeys, items[0 := items[0].(row := items[0].row.(name := name, ext := ext))])
  {
    assert ItemIds(items[0 := items[0].(row := items[0].row.(name := name, ext := ext))]) == ItemIds(items);
    hide ParentsFirst, Subtree, Distinct, SetOf;
  }

  /** planNodeCopy */
  method PlanNodeCopy(rows: map<Id, Row>, st: Storage, nodeId: Id, parentId: Id, name: string, recursive: bool,
        usedKeys: set<string>)
    returns (r: Result<seq<Item>, Error>)
    requires Valid(rows)
    ensures r.Ok? <==>
            && MayCopy(rows, nodeId, parentId, recursive) && Fits(rows, st, nodeId)
            && (name != "" ==> CopyNodeName(name, rows[nodeId].kind).Ok?)
    ensures r.Ok? ==> IsPlan(rows, nodeId, usedKeys, r.value)
    ensures r.Ok? ==> (r.value[0].row.name, r.value[0].row.ext) ==
                      if name == "" then (rows[nodeId].name, rows[nodeId].ext)
                          else CopyNodeName(name, rows[nodeId].kind).value
  {
    if nodeId !in rows {
      return Err(NotFound);
    }
    if rows[nodeId].parent == 0 || (rows[nodeId].kind.Directory? && !recursive) {
      return Err(InvalidArgument);
    }
    if parentId !in rows {
      return Err(NotFound);
    }
    if !rows[parentId].kind.Directory? || parentId == nodeId || nodeId in Path(Parents(rows), parentId) {
      return Err(InvalidArgument);
    }
    hide Valid, Fits, IsPlan;
    r := ListSubtree(rows, st, nodeId, usedKeys);
    if r.Ok? && name != "" {
      var renamed := CopyNodeName(name, rows[nodeId].kind);
      if renamed.Err? {
        return Err(renamed.error);
      }
      var items := r.value;
      var (newName, ext) := renamed.value;
      RenamedPlan(rows, nodeId, usedKeys, items, newName, ext);
      r := Ok(items[0 := items[0].(row := items[0].row.(name := newName, ext := ext))]);
    }
  }
}
