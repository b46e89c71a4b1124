/** Browsing node metadata page by page: the query in canonical form, the cursor bound to it, and the
    pages that follow from one another. */
module Browse {
  import opened Forest
  import opened GoText
  import opened Sorting
  import opened TextOrder
  import opened Wrappers

  const MAX_ID: int := 0x7FFF_FFFF_FFFF_FFFF
  const MAX_TEXT := 512
  const MAX_NAMES := 2
  const MAX_TAGS := 50
  const DEFAULT_LIMIT := 50
  const MAX_LIMIT := 100
  const TYPE_DIRECTORY := "dir"
  const TYPE_FILE := "file"

  datatype Query = Query(library: nat, mode: string, parent: Id, node: Id, ancestor: Id, keyword: string,
                         names: seq<string>, nodeType: string, tagIds: seq<nat>, tagMatchMode: string)

  // ----- canonical queries -----

  /** strings.ToUpper on ASCII letters. */
  function ToUpper(s: string): string {
    if s == "" then ""
    else [if 'a' <= s[0] <= 'z' then (s[0] as int - 'a' as int + 'A' as int) as char else s[0]] + ToUpper(s[1..])
  }

  predicate IdLe(a: nat, b: nat) {
    a <= b
  }

  /** lo.Uniq */
  function Distinct(ids: seq<nat>): (distinct: seq<nat>)
    ensures forall id :: id in distinct <==> id in ids
    ensures forall i, j | 0 <= i < j < |distinct| :: distinct[i] != distinct[j]
  {
    if ids == [] then []
    else
      var earlier := Distinct(ids[..|ids| - 1]);
      if ids[|ids| - 1] in earlier then earlier else earlier + [ids[|ids| - 1]]
  }

  function Mode(q: Query): string {
    if q.mode == "" then "children" else q.mode
  }

  function MatchMode(q: Query): string {
    var mode := ToUpper(TrimSpace(q.tagMatchMode));
    if mode == "" then "ANY" else mode
  }

  predicate ValidFilters(q: Query) {
    && MatchMode(q) in {"ANY", "ALL"} && |TrimSpace(q.keyword)| <= MAX_TEXT && |q.names| <= MAX_NAMES
       && |q.tagIds| <= MAX_TAGS
    && (forall name <- q.names :: 0 < |name| <= MAX_TEXT)
    && (forall id <- q.tagIds :: 0 < id <= MAX_ID)
  }

  predicate ValidScope(q: Query) {
    var mode := Mode(q);
    && 0 < q.library <= MAX_ID && q.parent <= MAX_ID && q.ancestor <= MAX_ID && q.node <= MAX_ID
    && mode in {"children", "search", "root", "node"}
    && q.nodeType in {"", TYPE_DIRECTORY, TYPE_FILE}
    && (mode != "children" ==> q.parent == 0) && (mode != "search" ==> q.ancestor == 0)
    && (mode == "node" <==> q.node > 0)
    && (mode in {"root", "node"} ==> TrimSpace(q.keyword) == "" && q.nodeType == "" && q.names == [] && q.tagIds == [])
  }

  /** normalizeMetadataQuery */
  function Normalized(q: Query): Option<Query> {
    if ValidScope(q) && ValidFilters(q) then
      Some(q.(mode := Mode(q), keyword := TrimSpace(q.keyword), tagMatchMode := MatchMode(q),
              tagIds := Sort(IdLe, Distinct(q.tagIds)), names := Sort(TextLe, q.names)))
    else None
  }

  predicate Ascending(ids: seq<nat>) {
    forall i, j | 0 <= i < j < |ids| :: ids[i] < ids[j]
  }

  lemma SortedIds(ids: seq<nat>)
    ensures var sorted := Sort(IdLe, Distinct(ids)); Ascending(sorted) && forall id :: id in sorted <==> id in ids
  {
    var (distinct, sorted) := (Distinct(ids), Sort(IdLe, Distinct(ids)));
    SortSorts(IdLe, distinct);
    var key := (id: nat) => id as int;
    DistinctStaysDistinct(key, distinct, sorted);
    forall i, j | 0 <= i < j < |sorted| ensures sorted[i] < sorted[j] {
      assert IdLe(sorted[i], sorted[j]) && key(sorted[i]) != key(sorted[j]);
    }
    assert forall id :: id in sorted <==> id in multiset(sorted);
    assert forall id :: id in distinct <==> id in multiset(distinct);
  }

  /** Ascending lists of the same ids are the same. */
  lemma {:induction false} AscendingAgree(a: seq<nat>, b: seq<nat>)
    requires Ascending(a) && Ascending(b) && forall id :: id in a <==> id in b
    ensures a == b
    decreases |a|
  {
    assert b == [] || b[0] in a;
    if a != [] {
      assert a[0] in b && b[0] in a;
      assert a[0] == b[0];
      forall id ensures id in a[1..] <==> id in b[1..] {
        AscendingTail(a, id);
        AscendingTail(b, id);
      }
      AscendingAgree(a[1..], b[1..]);
      assert a == [a[0]] + a[1..] && b == [b[0]] + b[1..];
    }
  }

  lemma AscendingTail(a: seq<nat>, id: nat)
    requires Ascending(a) && a != []
    ensures id in a[1..] <==> id in a && id != a[0]
  {
    if id in a && id != a[0] {
      var k :| 0 <= k < |a| && a[k] == id;
      assert a[1..][k - 1] == id;
    }
  }

  /** Permuting names or tag ids, or repeating a tag id within the limit, gives the same canonical query and
      so the same cursor scope. */
  lemma SameScope(q: Query, names: seq<string>, tagIds: seq<nat>)
    requires multiset(names) == multiset(q.names) && (forall id :: id in tagIds <==> id in q.tagIds)
    requires |tagIds| <= MAX_TAGS && |q.tagIds| <= MAX_TAGS
    ensures Normalized(q.(names := names, tagIds := tagIds)) == Normalized(q)
  {
    var p := q.(names := names, tagIds := tagIds);
    SortedIds(tagIds);
    SortedIds(q.tagIds);
    AscendingAgree(Sort(IdLe, Distinct(tagIds)), Sort(IdLe, Distinct(q.tagIds)));
    TextLeIsOrder();
    SortIgnoresOrder(TextLe, names, q.names);
    SameValidity(q, names, tagIds);
    hide ValidScope, ValidFilters, Sort, Distinct;
  }

  /** Permuted names and tag ids are as many, or as few, and pass the same limits. */
  lemma SameLists(names: seq<string>, names': seq<string>, tagIds: seq<nat>, tagIds': seq<nat>)
    requires multiset(names) == multiset(names') && (forall id :: id in tagIds <==> id in tagIds')
    ensures |names| == |names'| && (names == [] <==> names' == []) && (forall name :: name in names <==> name in names')
    ensures tagIds == [] <==> tagIds' == []
  {
    assert |names| == |multiset(names)| && |names'| == |multiset(names')|;
    assert forall name :: name in names <==> name in multiset(names);
    assert forall name :: name in names' <==> name in multiset(names');
    assert tagIds == [] || tagIds[0] in tagIds';
    assert tagIds' == [] || tagIds'[0] in tagIds;
  }

  lemma SameValidity(q: Query, names: seq<string>, tagIds: seq<nat>)
    requires multiset(names) == multiset(q.names) && (forall id :: id in tagIds <==> id in q.tagIds)
    requires |tagIds| <= MAX_TAGS && |q.tagIds| <= MAX_TAGS
    ensures var p := q.(names := names, tagIds := tagIds);
            (ValidScope(p) <==> ValidScope(q)) && (ValidFilters(p) <==> ValidFilters(q)) && Mode(p) == Mode(q)
                && MatchMode(p) == MatchMode(q)
  {
    SameLists(names, q.names, tagIds, q.tagIds);
    hide TrimSpace, ToUpper;
  }

  /** Different canonical queries never share a scope, as the hash is taken as injective. */
  datatype Cursor = Cursor(after: nat, scope: Query)

  // ----- what a query matches -----

  /** A live row; parent 0 stands for NULL. */
  datatype Row = Row(library: nat, parent: Id, directory: bool, name: string)

  /** The live rows and the pairs of node and tag. */
  datatype Tables = Tables(rows: map<Id, Row>, tags: set<(Id, nat)>)

  function LibraryParents(t: Tables, library: nat): map<Id, Id> {
    map id | id in t.rows && t.rows[id].library == library :: t.rows[id].parent
  }

  predicate OccursAt(text: string, part: string, i: nat) {
    i + |part| <= |text| && text[i..i + |part|] == part
  }

  predicate Contains(text: string, part: string) {
    exists i | 0 <= i <= |text| :: OccursAt(text, part, i)
  }

  function FoundTags(t: Tables, q: Query, id: Id): set<nat> {
    set tag | tag in q.tagIds && (id, tag) in t.tags
  }

  /** HAVING COUNT(DISTINCT tag_id) = len(tagIds) for ALL, at least one for ANY. */
  predicate TagsMatch(t: Tables, q: Query, id: Id) {
    var found := FoundTags(t, q, id);
    q.tagIds == [] || (found != {} && (q.tagMatchMode == "ALL" ==> |found| == |q.tagIds|))
  }

  /** The WHERE clause of the query, without the page bounds. */
  predicate Matches(t: Tables, q: Query, root: Id, id: Id) {
    && id in t.rows && t.rows[id].library == q.library && id != root
    && (q.node > 0 ==> id == q.node)
    && (q.mode == "children" ==> t.rows[id].parent == q.parent)
    && (q.nodeType != "" ==> (t.rows[id].directory <==> q.nodeType == TYPE_DIRECTORY))
    && (q.names != [] ==> t.rows[id].name in q.names)
    && (q.keyword != "" ==> Contains(ToLower(t.rows[id].name), ToLower(q.keyword)))
    && (q.ancestor > 0 ==> q.ancestor in Path(LibraryParents(t, q.library), id))
    && TagsMatch(t, q, id)
  }

  function Matching(t: Tables, q: Query, root: Id): set<Id> {
    set id | id in t.rows && Matches(t, q, root, id)
  }

  function SetOf(ids: seq<nat>): set<nat> {
    set id | id in ids
  }

  /** Counting distinct tags of a canonical query is asking for each of them. */
  lemma AllTagsMeansEach(t: Tables, q: Query, id: Id)
    requires Ascending(q.tagIds) && q.tagMatchMode == "ALL"
    ensures TagsMatch(t, q, id) <==> forall tag <- q.tagIds :: (id, tag) in t.tags
  {
    var found := FoundTags(t, q, id);
    AscendingSize(q.tagIds);
    if |found| == |q.tagIds| {
      SubsetIsWhole(found, SetOf(q.tagIds));
      assert forall tag <- q.tagIds :: tag in SetOf(q.tagIds);
    }
    if forall tag <- q.tagIds :: (id, tag) in t.tags {
      assert found == SetOf(q.tagIds);
      assert q.tagIds == [] || q.tagIds[0] in found;
    }
  }

  lemma {:induction false} AscendingSize(ids: seq<nat>)
    requires Ascending(ids)
    ensures |SetOf(ids)| == |ids|
  {
    if ids != [] {
      var (init, last) := (ids[..|ids| - 1], ids[|ids| - 1]);
      AscendingSize(init);
      assert SetOf(ids) == SetOf(init) + {last};
      assert forall k | 0 <= k < |init| :: init[k] < last;
    }
  }

  lemma {:induction false} SubsetIsWhole(a: set<nat>, b: set<nat>)
    requires a <= b && |a| == |b|
    ensures a == b
    decreases a
  {
    if a != {} {
      var x :| x in a;
      SubsetIsWhole(a - {x}, b - {x});
      assert a == (a - {x}) + {x} && b == (b - {x}) + {x};
    }
  }

  // ----- one page -----

  /** The page holds the first ids past `after`, up to the limit, and all of them when it is not full. */
  ghost predicate IsPage(all: set<Id>, after: nat, limit: nat, page: seq<Id>) {
    && Ascending(page) && |page| <= limit
    && (forall id <- page :: id in all && id > after)
    && (forall id <- all :: id > after && id !in page ==> |page| == limit && (limit > 0 ==> id > page[limit - 1]))
  }

  method Least(ids: set<nat>) returns (least: nat)
    requires ids != {}
    ensures least in ids && forall id <- ids :: least <= id
  {
    least :| least in ids;
    var rest := ids - {least};
    while rest != {}
      invariant rest <= ids && least in ids && forall id | id in ids && id !in rest :: least <= id
      decreases rest
    {
      var id :| id in rest;
      if id < least {
        least := id;
      }
      rest := rest - {id};
    }
  }

  /** QueryMetadata: ORDER BY id LIMIT limit, over the ids past `after`. */
  method QueryMetadata(t: Tables, q: Query, root: Id, after: nat, limit: nat) returns (page: seq<Id>)
    ensures IsPage(Matching(t, q, root), after, limit, page)
  {
    hide Matches;
    var rest := set id | id in Matching(t, q, root) && id > after;
    page := [];
    while rest != {} && |page| < limit
      invariant Ascending(page) && |page| <= limit
      invariant forall id :: (id in page || id in rest) <==> id in Matching(t, q, root) && id > after
      invariant forall id <- rest, seen <- page :: seen < id
      decreases rest
    {
      var next := Least(rest);
      assert forall k | 0 <= k < |page| :: page[k] in page;
      rest := rest - {next};
      page := page + [next];
    }
    assert page == [] || page[|page| - 1] in page;
  }

  datatype Error = InvalidArgument | NotFound

  datatype Page = Page(root: Id, entries: seq<Id>, hasMore: bool, nextCursor: Option<Cursor>)

  /** The library's root: the directory without a parent with the least id. */
  predicate IsRoot(t: Tables, library: nat, root: Id) {
    && root in t.rows && t.rows[root].library == library && t.rows[root].directory && t.rows[root].parent == 0
    && forall id <- t.rows | t.rows[id].library == library && t.rows[id].directory && t.rows[id].parent == 0 ::
       root <= id
  }

  predicate IsDirectory(t: Tables, library: nat, id: Id) {
    id in t.rows && t.rows[id].library == library && t.rows[id].directory
  }

  /** The canonical query with the library root as the default parent; what the cursor is bound to. */
  function Scoped(q: Query, root: Id): Query {
    if q.mode == "children" && q.parent == 0 then q.(parent := root) else q
  }

  function Limit(limit: int): int {
    if limit == 0 then DEFAULT_LIMIT else limit
  }

  predicate ValidLimit(limit: int) {
    1 <= Limit(limit) <= MAX_LIMIT
  }

  /** A page of a children or search query after the given id, with a cursor exactly when ids are left. */
  ghost predicate IsResult(t: Tables, scope: Query, root: Id, after: nat, limit: int, page: Page)
    requires limit >= 0
  {
    && IsPage(Matching(t, scope, root), after, limit, page.entries)
    && (page.hasMore <==> exists id <- Matching(t, scope, root) :: id > after && id !in page.entries)
    && page.nextCursor == if page.hasMore
       && |page.entries| > 0 then Some(Cursor(page.entries[|page.entries| - 1], scope)) else None
  }

  predicate NamesDirectories(t: Tables, q: Query, root: Id) {
    && (Scoped(q, root).parent in {0, root} || IsDirectory(t, q.library, Scoped(q, root).parent))
    && (q.ancestor in {0, root} || IsDirectory(t, q.library, q.ancestor))
  }

  /** What makes a browse request acceptable, beyond the query itself. */
  predicate MayBrowse(t: Tables, q: Query, root: Id, cursor: Option<Cursor>, limit: int) {
    && ValidLimit(limit) && NamesDirectories(t, q, root)
    && (cursor.Some? ==> cursor.value.scope == Scoped(q, root) && 0 < cursor.value.after <= MAX_ID)
  }

  /** ReadMetadataRoot */
  method ReadMetadataRoot(t: Tables, library: nat) returns (root: Option<Id>)
    ensures root.Some? ==> IsRoot(t, library, root.value)
    ensures root.None? ==> forall id :: !IsRoot(t, library, id)
  {
    var candidates := set id | id in t.rows && t.rows[id].library == library && t.rows[id].directory
        && t.rows[id].parent == 0;
    if candidates == {} {
      assert forall id :: IsRoot(t, library, id) ==> id in candidates;
      return None;
    }
    var least := Least(candidates);
    forall id | id in t.rows && t.rows[id].library == library && t.rows[id].directory && t.rows[id].parent == 0
        ensures least <= id {
      assert id in candidates;
    }
    root := Some(least);
  }

  lemma OneRoot(t: Tables, library: nat, a: Id, b: Id)
    requires IsRoot(t, library, a) && IsRoot(t, library, b)
    ensures a == b
  {
  }

  /** The answer to a children or search query: refused exactly when it may not be browsed, else a page. */
  ghost predicate AnswersList(t: Tables, q: Query, root: Id, cursor: Option<Cursor>, limit: int, r: Result<Page,
        Error>) {
    && (r.Ok? <==> MayBrowse(t, q, root, cursor, limit))
    && (r.Ok? ==> Limit(limit) >= 0 && r.value.root == root &&
                  IsResult(t, Scoped(q, root), root, if cursor.Some? then cursor.value.after
                      else 0, Limit(limit), r.value))
  }

  /** The answer to a root or node query: no paging, and the named node if it is there. */
  ghost predicate AnswersOne(t: Tables, q: Query, root: Id, cursor: Option<Cursor>, limit: int, r: Result<Page,
        Error>) {
    && (r.Ok? <==> ValidLimit(limit) && cursor.None?)
    && (r.Ok? ==> r.value == Page(root, Named(t, q, root), false, None))
  }

  function Named(t: Tables, q: Query, root: Id): seq<Id> {
    if q.mode == "node" && (q.node == root || q.node in Matching(t, q, root)) then [q.node] else []
  }

  ghost predicate Answers(t: Tables, q: Query, root: Id, cursor: Option<Cursor>, limit: int, r: Result<Page, Error>) {
    if q.mode in {"root", "node"} then AnswersOne(t, q, root, cursor, limit, r)
        else AnswersList(t, q, root, cursor, limit, r)
  }

  /** browseNodeMetadata. */
  method BrowseNodeMetadata(t: Tables, input: Query, cursor: Option<Cursor>, limit: int)
        returns (r: Result<Page, Error>)
    ensures Normalized(input).None? || (forall root :: !IsRoot(t, input.library, root)) ==> r.Err?
    ensures Normalized(input).Some? ==>
              forall root | IsRoot(t, input.library, root) ::
                  Answers(t, Normalized(input).value, root, cursor, limit, r)
  {
    hide Answers, IsRoot, Normalized;
    var normalized := Normalized(input);
    if normalized.None? {
      return Err(InvalidArgument);
    }
    var q := normalized.value;
    NormalizedFacts(input);
    if !ValidLimit(limit) || (q.mode in {"root", "node"} && cursor.Some?) {
      forall root | IsRoot(t, input.library, root) ensures Answers(t, q, root, cursor, limit, Err(InvalidArgument)) {
        RefusedEarly(t, q, root, cursor, limit);
      }
      return Err(InvalidArgument);
    }
    var found := ReadMetadataRoot(t, q.library);
    if found.None? {
      return Err(NotFound);
    }
    forall other | IsRoot(t, input.library, other) ensures other == found.value {
      OneRoot(t, input.library, other, found.value);
    }
    r := BrowseBelow(t, q, found.value, cursor, limit);
  }

  lemma NormalizedFacts(input: Query)
    requires Normalized(input).Some?
    ensures var q := Normalized(input).value;
            q.library == input.library && ValidMode(q) && q.mode == Mode(input)
  {
    assert ValidScope(input) && ScopeOf(input, Normalized(input).value) by {
      hide ValidFilters, ValidScope, Sort, Distinct, Mode, MatchMode, TrimSpace;
    }
    hide Normalized, ValidFilters, Sort, Distinct, TrimSpace;
  }

  predicate ScopeOf(input: Query, q: Query) {
    q.library == input.library && q.mode == Mode(input) && q.parent == input.parent && q.node == input.node
        && q.ancestor == input.ancestor
  }

  /** What the later steps rely on: which modes there are, and that only a node query names a node. */
  predicate ValidMode(q: Query) {
    q.mode in {"children", "search", "root", "node"} && (q.mode == "node" <==> q.node > 0) &&
    (q.mode in {"root", "node"} ==> q.parent == 0 && q.ancestor == 0)
  }

  lemma RefusedEarly(t: Tables, q: Query, root: Id, cursor: Option<Cursor>, limit: int)
    requires !ValidLimit(limit) || (q.mode in {"root", "node"} && cursor.Some?)
    ensures Answers(t, q, root, cursor, limit, Err(InvalidArgument))
  {
  }

  /** The part of browseNodeMetadata that knows the root. */
  method BrowseBelow(t: Tables, q: Query, root: Id, cursor: Option<Cursor>, limit: int) returns (r: Result<Page, Error>)
    requires ValidMode(q) && ValidLimit(limit) && (q.mode in {"root", "node"} ==> cursor.None?)
    ensures Answers(t, q, root, cursor, limit, r)
  {
    hide Matching, IsResult;
    if q.mode == "root" {
      return Ok(Page(root, [], false, None));
    }
    if q.mode == "node" && q.node == root {
      return Ok(Page(root, [root], false, None));
    }
    r := BrowseScope(t, q, root, cursor, Limit(limit));
  }

  /** The second half: the directories named by the query, the cursor and the page. */
  method BrowseScope(t: Tables, q: Query, root: Id, cursor: Option<Cursor>, limit: nat) returns (r: Result<Page, Error>)
    requires 1 <= limit <= MAX_LIMIT
    ensures r.Ok? <==> MayBrowse(t, q, root, cursor, limit)
    ensures r.Ok? ==>
              r.value.root == root &&
              IsResult(t, Scoped(q, root), root, if cursor.Some? then cursor.value.after else 0, limit, r.value)
    ensures r.Ok? && q.node > 0 && cursor.None? ==>
              r.value.entries == (if q.node in Matching(t, Scoped(q, root), root) then [q.node] else [])
                  && !r.value.hasMore
              && r.value.nextCursor.None?
  {
    hide Matches;
    var scope := Scoped(q, root);
    if (scope.parent !in {0, root} && !IsDirectory(t, q.library, scope.parent))
        || (q.ancestor !in {0, root} && !IsDirectory(t, q.library, q.ancestor)) {
      return Err(NotFound);
    }
    var after := 0;
    if cursor.Some? {
      if cursor.value.scope != scope || cursor.value.after == 0 || cursor.value.after > MAX_ID {
        return Err(InvalidArgument);
      }
      after := cursor.value.after;
    }
    var rows := QueryMetadata(t, scope, root, after, limit + 1);
    if scope.node > 0 && cursor.None? {
      OneNodeOnly(t, scope, root, limit + 1, rows);
    }
    var hasMore := |rows| > limit;
    CutPage(Matching(t, scope, root), after, limit, rows);
    if hasMore {
      rows := rows[..limit];
    }
    r := Ok(Page(root, rows, hasMore, if hasMore then Some(Cursor(rows[|rows| - 1], scope)) else None));
  }

  lemma OneNodeOnly(t: Tables, q: Query, root: Id, limit: nat, page: seq<Id>)
    requires IsPage(Matching(t, q, root), 0, limit, page) && q.node > 0 && limit > 0
    ensures page == if q.node in Matching(t, q, root) then [q.node] else []
  {
    var all := Matching(t, q, root);
    assert forall id <- all :: id == q.node;
    hide Matching;
    assert |page| <= 1 || page[0] < page[1];
    forall k | 0 <= k < |page| ensures page[k] == q.node && q.node in all {
      assert page[k] in all;
    }
    assert q.node in all ==> q.node in page || |page| == limit;
  }

  /** Asking for one more than the limit tells whether anything is left, and cutting it off leaves the page. */
  lemma CutPage(all: set<Id>, after: nat, limit: nat, rows: seq<Id>)
    requires IsPage(all, after, limit + 1, rows) && limit > 0
    ensures var page := if |rows| > limit then rows[..limit] else rows;
            && IsPage(all, after, limit, page)
            && (|rows| > limit <==> exists id <- all :: id > after && id !in page)
  {
    if |rows| > limit {
      assert rows[limit] in rows && rows[limit] !in rows[..limit];
      assert forall id :: id in rows <==> id in rows[..limit] || id == rows[limit];
    }
  }

  // ----- all pages -----

  /** Row ids are positive int64 values. */
  predicate ValidIds(t: Tables) {
    forall id <- t.rows :: 0 < id <= MAX_ID
  }

  /** The ids seen so far are everything up to the last one. */
  ghost predicate SeenUpTo(all: set<Id>, seen: seq<Id>, after: nat) {
    && Ascending(seen) && (forall id <- seen :: id in all && id <= after)
    && forall id <- all :: id <= after ==> id in seen
  }

  ghost function Beyond(all: set<Id>, after: nat): set<Id> {
    set id | id in all && id > after
  }

  lemma BeyondShrinks(all: set<Id>, after: nat, next: nat)
    requires next in all && next > after
    ensures Beyond(all, next) < Beyond(all, after)
  {
    assert next in Beyond(all, after) && next !in Beyond(all, next);
  }

  lemma NextPage(all: set<Id>, seen: seq<Id>, after: nat, limit: nat, page: seq<Id>)
    requires SeenUpTo(all, seen, after) && IsPage(all, after, limit, page) && limit > 0
    ensures page != [] ==> SeenUpTo(all, seen + page, page[|page| - 1]) && page[|page| - 1] > after
    ensures (forall id <- all | id > after :: id in page) ==> Ascending(seen + page) && forall id ::
            id in seen + page <==> id in all
  {
    var more := seen + page;
    forall i, j | 0 <= i < j < |more| ensures more[i] < more[j] {
      if i < |seen| <= j {
        assert more[i] in seen && more[j] in page;
      }
    }
    if page != [] {
      var last := page[|page| - 1];
      assert last in page;
      forall id | id in more ensures id in all && id <= last {
        if id in page {
          var k :| 0 <= k < |page| && page[k] == id;
        }
      }
      forall id | id in all && id <= last ensures id in more {
        assert id <= after || id in page;
      }
    }
  }

  /** Where a reader stands after some pages: what was seen, and the cursor for what is left. */
  ghost predicate Standing(all: set<Id>, scope: Query, cursor: Option<Cursor>, after: nat, seen: seq<Id>) {
    && SeenUpTo(all, seen, after)
    && if cursor.None? then after == 0 else cursor.value == Cursor(after, scope) && 0 < after <= MAX_ID
  }

  lemma ListPage(t: Tables, q: Query, root: Id, cursor: Option<Cursor>, after: nat, seen: seq<Id>, limit: int,
        r: Result<Page, Error>)
    requires ValidIds(t) && ValidLimit(limit) && q.mode in {"children", "search"}
    requires Standing(Matching(t, Scoped(q, root), root), Scoped(q, root), cursor, after, seen)
    requires Answers(t, q, root, cursor, limit, r)
    ensures r.Ok? <==> NamesDirectories(t, q, root)
    ensures r.Ok? ==>
              var (all, more, page) := (Matching(t, Scoped(q, root), root), seen + r.value.entries, r.value);
              if page.hasMore then
                page.nextCursor.Some? && var next := page.nextCursor.value.after;
                Standing(all, Scoped(q, root), page.nextCursor, next, more) && next in all && next > after
              else
                Ascending(more) && forall id :: id in more <==> id in all
  {
    assert AnswersList(t, q, root, cursor, limit, r);
    if r.Ok? {
      var (scope, page) := (Scoped(q, root), r.value.entries);
      var all := Matching(t, scope, root);
      assert forall id <- all :: 0 < id <= MAX_ID by { hide Matches; }
      hide Matching, Answers, Scoped;
      assert IsPage(all, after, Limit(limit), page);
      NextPage(all, seen, after, Limit(limit), page);
      if r.value.hasMore {
        assert page != [];
        assert page[|page| - 1] in page;
      }
    }
  }

  /** Following the cursors from the first page, with any acceptable limit for each page: it ends, and the
      pages put together are every matching id once, in order. */
  method FollowCursors(t: Tables, input: Query, limits: nat -> int, ghost root: Id)
        returns (r: Result<seq<Id>, Error>, pages: nat)
    requires ValidIds(t) && IsRoot(t, input.library, root)
    requires Normalized(input).Some? && Mode(input) in {"children", "search"}
    requires forall n :: ValidLimit(limits(n))
    ensures var q := Normalized(input).value;
            && (r.Ok? <==> NamesDirectories(t, q, root))
            && (r.Ok? ==> Ascending(r.value) && forall id ::
               id in r.value <==> id in Matching(t, Scoped(q, root), root))
  {
    NormalizedFacts(input);
    hide Normalized, Matching, IsRoot, Mode, Answers, Standing, NamesDirectories, Scoped, ValidIds, Beyond, ValidLimit;
    ghost var q := Normalized(input).value;
    ghost var all := Matching(t, Scoped(q, root), root);
    var seen: seq<Id>, cursor: Option<Cursor> := [], None;
    pages := 0;
    ghost var after: nat := 0;
    assert Standing(all, Scoped(q, root), cursor, after, seen) by {
      NothingSeen(t, q, root);
    }
    while true
      invariant Standing(all, Scoped(q, root), cursor, after, seen)
      invariant pages > 0 ==> NamesDirectories(t, q, root)
      decreases Beyond(all, after)
    {
      var page := BrowseNodeMetadata(t, input, cursor, limits(pages));
      ListPage(t, q, root, cursor, after, seen, limits(pages), page);
      if page.Err? {
        return Err(page.error), pages;
      }
      seen := seen + page.value.entries;
      pages := pages + 1;
      if !page.value.hasMore {
        return Ok(seen), pages;
      }
      cursor := page.value.nextCursor;
      BeyondShrinks(all, after, cursor.value.after);
      after := cursor.value.after;
    }
  }

  lemma NothingSeen(t: Tables, q: Query, root: Id)
    requires ValidIds(t)
    ensures Standing(Matching(t, Scoped(q, root), root), Scoped(q, root), None, 0, [])
  {
    hide Matches;
  }
}
