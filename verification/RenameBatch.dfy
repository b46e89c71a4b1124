/** Renaming a batch of files: a canonical request, optimistic checks against the approved snapshot,
    one write after another under the unique index of sibling names, and a receipt per operation. */
module RenameBatch {
  import opened GoText
  import opened NodeNames
  import opened Sorting
  import opened Wrappers

  type Id = nat

  /** A live row of the nodes table. */
  datatype Node = Node(library: nat, parent: Id, file: bool, name: string, ext: string, archive: bool, updatedAt: int)

  datatype Snapshot = Snapshot(parent: Id, name: string, ext: string, updatedAt: int)

  datatype Item = Item(id: Id, name: string, expected: Snapshot)

  /** What is hashed: the library and the items by ascending id. The hash is taken as injective. */
  datatype Request = Request(library: nat, items: seq<Item>)

  // ----- names -----

  /** The expression of the unique index, on the stored columns as they are. */
  function IndexName(n: Node): string {
    StoredName(n.name, n.ext, n.file)
  }

  predicate Siblings(a: Node, b: Node) {
    a.library == b.library && a.parent == b.parent
  }

  /** What the unique index guarantees at any time. */
  predicate UniqueNames(nodes: map<Id, Node>) {
    forall a <- nodes, b <- nodes | a != b && Siblings(nodes[a], nodes[b]) :: IndexName(nodes[a]) != IndexName(nodes[b])
  }

  // ----- the request -----

  const MAX_ITEMS := 50
  const MAX_EXT_LENGTH := 32
  const MAX_ID: int := 0x7FFF_FFFF_FFFF_FFFF
  // 1970-01-01 to the end of 9999, in seconds.
  const MAX_TIME: int := 253402300799

  predicate IsControl(c: char) {
    c < ' ' || '\U{007F}' <= c <= '\U{009F}'
  }

  /** validRenameBase */
  predicate ValidBase(name: string) {
    && name !in {"", ".", ".."} && Trimmed(name) && |name| <= MAX_NAME_LENGTH
    && forall c <- name :: c !in {'/', '\\'} && !IsControl(c)
  }

  predicate ValidItem(item: Item) {
    && 0 < item.id <= MAX_ID
    && 0 < item.expected.parent <= MAX_ID
    && 0 < |item.expected.name| <= MAX_NAME_LENGTH && |item.expected.ext| <= MAX_EXT_LENGTH
    && 0 <= item.expected.updatedAt <= MAX_TIME
    && ValidBase(item.name)
  }

  predicate ById(a: Item, b: Item) {
    a.id <= b.id
  }

  predicate AscendingIds(items: seq<Item>) {
    forall i, j | 0 <= i < j < |items| :: items[i].id < items[j].id
  }

  predicate ValidRequest(request: Request) {
    && 0 < request.library <= MAX_ID && 0 < |request.items| <= MAX_ITEMS
    && AscendingIds(request.items) && forall item <- request.items :: ValidItem(item)
  }

  /** validateRenameBatch, as a function of the request: the canonical form, or a refusal. */
  function Canonical(library: nat, items: seq<Item>): (request: Option<Request>) {
    var sorted := Sort(ById, items);
    if ValidRequest(Request(library, sorted)) then Some(Request(library, sorted)) else None
  }

  lemma SortedById(items: seq<Item>)
    ensures Sorted(ById, Sort(ById, items)) && multiset(Sort(ById, items)) == multiset(items)
            && |Sort(ById, items)| == |items|
  {
    SortSorts(ById, items);
  }

  /** Sorting leaves equal ids next to each other, so checking neighbours finds every repeated id. */
  lemma NeighboursSuffice(items: seq<Item>)
    requires Sorted(ById, items) && forall i | 0 < i < |items| :: items[i - 1].id != items[i].id
    ensures AscendingIds(items)
  {
    forall i, j | 0 <= i < j < |items| ensures items[i].id < items[j].id {
      assert ById(items[i], items[j - 1]) || i == j - 1;
      assert ById(items[j - 1], items[j]);
    }
  }

  /** The order in which a caller lists the items does not matter: the request is the same. */
  lemma ReorderingIsTheSameRequest(library: nat, a: seq<Item>, b: seq<Item>)
    requires multiset(a) == multiset(b)
    ensures Canonical(library, a) == Canonical(library, b)
  {
    SortedById(a);
    SortedById(b);
    var (x, y) := (Sort(ById, a), Sort(ById, b));
    if AscendingIds(x) {
      SortedAreEqual(x, y);
    } else if AscendingIds(y) {
      SortedAreEqual(y, x);
    }
    assert |a| == |multiset(a)| && |b| == |multiset(b)|;
  }

  lemma SortedAreEqual(x: seq<Item>, y: seq<Item>)
    requires AscendingIds(x) && Sorted(ById, y) && multiset(x) == multiset(y)
    ensures x == y
  {
    forall i, j | 0 <= i < j < |x| ensures ById(x[i], x[j]) {
    }
    forall p <- x, q <- x | ById(p, q) && ById(q, p) ensures p == q {
      var i :| 0 <= i < |x| && x[i] == p;
      var j :| 0 <= j < |x| && x[j] == q;
    }
    SortedIsUnique(ById, x, y);
  }

  /** Different requests are told apart. */
  lemma CanonicalIsFaithful(library: nat, a: seq<Item>, library': nat, b: seq<Item>)
    requires Canonical(library, a).Some? && Canonical(library, a) == Canonical(library', b)
    ensures library == library' && multiset(a) == multiset(b)
  {
    SortedById(a);
    SortedById(b);
  }

  // ----- the checks -----

  function Target(item: Item, ext: string): string {
    VisibleName(item.name, ext, true)
  }

  /** RenameNameTaken: another sibling already has the visible name the item asks for. */
  predicate NameTaken(nodes: map<Id, Node>, item: Item)
    requires item.id in nodes
  {
    exists other <- nodes :: other != item.id && Siblings(nodes[other], nodes[item.id]) &&
                             IndexName(nodes[other]) == Target(item, nodes[item.id].ext)
  }

  /** The file is still as approved and the new name is free. */
  predicate ItemAccepted(nodes: map<Id, Node>, library: nat, item: Item) {
    && item.id in nodes && nodes[item.id].library == library
    && var n := nodes[item.id];
    && n.file && n.parent != 0 && !n.archive
    && item.expected == Snapshot(n.parent, n.name, n.ext, n.updatedAt)
    && !NameTaken(nodes, item)
  }

  predicate SameTarget(nodes: map<Id, Node>, a: Item, b: Item)
    requires a.id in nodes && b.id in nodes
  {
    nodes[a.id].parent == nodes[b.id].parent && Target(a, nodes[a.id].ext) == Target(b, nodes[b.id].ext)
  }

  predicate TargetsApart(nodes: map<Id, Node>, items: seq<Item>) {
    && (forall i | 0 <= i < |items| :: items[i].id in nodes)
    && forall i, j | 0 <= i < j < |items| :: !SameTarget(nodes, items[i], items[j])
  }

  predicate Accepted(nodes: map<Id, Node>, request: Request) {
    && (forall item <- request.items :: ItemAccepted(nodes, request.library, item))
    && TargetsApart(nodes, request.items)
  }

  // ----- the writes -----

  function Written(nodes: map<Id, Node>, item: Item, now: int): map<Id, Node>
    requires item.id in nodes
  {
    nodes[item.id := nodes[item.id].(name := item.name, updatedAt := now)]
  }

  /** The rows after the first writes, one per item. */
  function Renamed(nodes: map<Id, Node>, items: seq<Item>, now: int): (result: map<Id, Node>)
    requires forall item <- items :: item.id in nodes
    ensures result.Keys == nodes.Keys
  {
    if items == [] then nodes
    else
      assert items[|items| - 1] in items;
      Written(Renamed(nodes, items[..|items| - 1], now), items[|items| - 1], now)
  }

  lemma {:induction false} RenamedRow(nodes: map<Id, Node>, items: seq<Item>, now: int, id: Id)
    requires AscendingIds(items) && (forall item <- items :: item.id in nodes) && id in nodes
    ensures (forall item <- items :: item.id != id) ==> Renamed(nodes, items, now)[id] == nodes[id]
    ensures forall item <- items | item.id == id ::
            Renamed(nodes, items, now)[id] == nodes[id].(name := item.name, updatedAt := now)
  {
    if items != [] {
      var (init, last) := (items[..|items| - 1], items[|items| - 1]);
      assert last in items;
      RenamedRow(nodes, init, now, id);
      assert forall item <- init :: item.id != last.id;
      assert forall item :: item in items <==> item in init || item == last;
    }
  }

  /** After every prefix of the writes the names of siblings are unique. */
  ghost predicate WritesFit(nodes: map<Id, Node>, items: seq<Item>, now: int)
    requires forall item <- items :: item.id in nodes
  {
    forall k | 0 <= k <= |items| :: UniqueNames(Renamed(nodes, items[..k], now))
  }

  /** For such a file the name the checks compare is the name the index will hold. */
  lemma TargetIsIndexName(node: Node, item: Item, now: int)
    requires node.file && CanonicalExt(node.ext) && ValidBase(item.name)
    ensures IndexName(node.(name := item.name, updatedAt := now)) == Target(item, node.ext)
  {
  }

  /** A write keeps the index as long as no sibling has the written name. */
  lemma WriteKeepsUnique(before: map<Id, Node>, x: Id, row: Node)
    requires UniqueNames(before) && x in before && Siblings(row, before[x])
    requires forall y <- before | y != x && Siblings(before[y], row) :: IndexName(before[y]) != IndexName(row)
    ensures UniqueNames(before[x := row])
  {
    hide IndexName;
  }

  lemma WriteFits(nodes: map<Id, Node>, request: Request, now: int, k: nat)
    requires ValidRequest(request) && Accepted(nodes, request) && k < |request.items|
    requires forall item <- request.items :: item.id in nodes && CanonicalExt(nodes[item.id].ext)
    requires UniqueNames(Renamed(nodes, request.items[..k], now))
    ensures UniqueNames(Renamed(nodes, request.items[..k + 1], now))
  {
    var (items, item) := (request.items, request.items[k]);
    var before := Renamed(nodes, items[..k], now);
    assert item in items && ValidItem(item) && ItemAccepted(nodes, request.library, item);
    RenamedNext(nodes, items, now, k);
    var row := nodes[item.id].(name := item.name, updatedAt := now);
    TargetIsIndexName(nodes[item.id], item, now);
    hide UniqueNames, IndexName, Target, CanonicalExt, NameTaken;
    forall y | y in nodes && y != item.id && Siblings(before[y], nodes[item.id])
        ensures IndexName(before[y]) != IndexName(row) {
      OtherNameDiffers(nodes, request, now, k, y);
    }
    WriteKeepsUnique(before, item.id, row);
  }

  lemma RenamedNext(nodes: map<Id, Node>, items: seq<Item>, now: int, k: nat)
    requires AscendingIds(items) && (forall item <- items :: item.id in nodes) && k < |items|
    ensures var before := Renamed(nodes, items[..k], now);
            && items[k].id in before && before[items[k].id] == nodes[items[k].id]
            && Renamed(nodes, items[..k + 1], now) ==
                 before[items[k].id := nodes[items[k].id].(name := items[k].name, updatedAt := now)]
  {
    assert items[..k + 1][..k] == items[..k] && items[k] in items;
    RenamedRow(nodes, items[..k], now, items[k].id);
    assert forall earlier <- items[..k] :: earlier.id != items[k].id;
  }

  lemma EarlierDiffers(nodes: map<Id, Node>, request: Request, now: int, j: nat, k: nat)
    requires ValidRequest(request) && Accepted(nodes, request) && j < k < |request.items|
    requires forall item <- request.items :: item.id in nodes && CanonicalExt(nodes[item.id].ext)
    requires var (a, b) := (request.items[j], request.items[k]); Siblings(nodes[a.id], nodes[b.id])
    ensures var (a, b) := (request.items[j], request.items[k]);
            IndexName(nodes[a.id].(name := a.name, updatedAt := now)) != Target(b, nodes[b.id].ext)
  {
    var (a, b) := (request.items[j], request.items[k]);
    assert a in request.items && ValidItem(a) && ItemAccepted(nodes, request.library, a);
    TargetIsIndexName(nodes[a.id], a, now);
    hide IndexName, Target, CanonicalExt, NameTaken, ValidBase;
    assert !SameTarget(nodes, a, b);
  }

  lemma UntouchedDiffers(nodes: map<Id, Node>, library: nat, item: Item, y: Id)
    requires ItemAccepted(nodes, library, item) && y in nodes && y != item.id && Siblings(nodes[y], nodes[item.id])
    ensures IndexName(nodes[y]) != Target(item, nodes[item.id].ext)
  {
    hide IndexName, Target;
    assert !NameTaken(nodes, item);
  }

  /** Neither a sibling that keeps its name nor one renamed earlier has the name of item k. */
  lemma OtherNameDiffers(nodes: map<Id, Node>, request: Request, now: int, k: nat, y: Id)
    requires ValidRequest(request) && Accepted(nodes, request) && k < |request.items|
    requires forall item <- request.items :: item.id in nodes && CanonicalExt(nodes[item.id].ext)
    requires y in nodes && y != request.items[k].id
    requires Siblings(Renamed(nodes, request.items[..k], now)[y], nodes[request.items[k].id])
    ensures IndexName(Renamed(nodes, request.items[..k], now)[y]) != Target(request.items[k],
            nodes[request.items[k].id].ext)
  {
    hide Renamed, IndexName, Target, CanonicalExt, ValidItem, ItemAccepted, TargetsApart;
    var (items, item) := (request.items, request.items[k]);
    assert item in items;
    RenamedRow(nodes, items[..k], now, y);
    if j :| 0 <= j < k && items[j].id == y {
      assert items[j] in items[..k];
      EarlierDiffers(nodes, request, now, j, k);
    } else {
      forall earlier | earlier in items[..k] ensures earlier.id != y {
        var i :| 0 <= i < k && items[..k][i] == earlier;
      }
      UntouchedDiffers(nodes, request.library, item, y);
    }
  }

  /** When every file of an accepted batch has its extension in canonical form, no write can hit the unique
      index: sibling names are unique after each one, not only at the end. */
  lemma {:induction false} CanonicalWritesFit(nodes: map<Id, Node>, request: Request, now: int)
    requires ValidRequest(request) && Accepted(nodes, request) && UniqueNames(nodes)
    requires forall item <- request.items :: item.id in nodes && CanonicalExt(nodes[item.id].ext)
    ensures WritesFit(nodes, request.items, now)
  {
    forall k | 0 <= k <= |request.items| ensures UniqueNames(Renamed(nodes, request.items[..k], now)) {
      PrefixFits(nodes, request, now, k);
    }
  }

  lemma {:induction false} PrefixFits(nodes: map<Id, Node>, request: Request, now: int, k: nat)
    requires ValidRequest(request) && Accepted(nodes, request) && UniqueNames(nodes) && k <= |request.items|
    requires forall item <- request.items :: item.id in nodes && CanonicalExt(nodes[item.id].ext)
    ensures UniqueNames(Renamed(nodes, request.items[..k], now))
  {
    if k > 0 {
      PrefixFits(nodes, request, now, k - 1);
      WriteFits(nodes, request, now, k - 1);
    }
  }

  /** A file with that extension next to a directory that looks like its new stored name. */
  function Colliding(ext: string, name: string): map<Id, Node> {
    var was := if name == "a" then "b" else "a";
    map[1 := Node(1, 3, true, was, ext, false, 0), 2 := Node(1, 3, false, name + "." + ext, "", false, 0)]
  }

  function CollidingItem(ext: string, name: string): Item {
    Item(1, name, Snapshot(3, if name == "a" then "b" else "a", ext, 0))
  }

  lemma DifferentTexts(name: string, ext: string, other: string, was: string)
    requires |was| == 1 && was != name && name != "" && ext != other
    ensures name + "." + ext != was + "." + ext
    ensures name + "." + ext != name + "." + other && name != name + "." + ext
  {
    assert (name + "." + ext)[0] == name[0] && (was + "." + ext)[0] == was[0];
    assert (name + "." + ext)[|name| + 1..] == ext && (name + "." + other)[|name| + 1..] == other;
    if |name| == 1 {
      assert name == [name[0]] && was == [was[0]];
    }
  }

  lemma ShortName(name: string)
    requires ValidBase(name)
    ensures name != ""
  {
  }

  lemma OddExtension(ext: string)
    requires !CanonicalExt(ext)
    ensures ext != "" && NormalizeExt(ext) != ext
  {
    assert Trimmed("");
    hide TrimSpace;
  }

  lemma CollidingNames(ext: string, name: string)
    requires !CanonicalExt(ext) && ValidBase(name)
    ensures var nodes := Colliding(ext, name);
            && ext != "" && IndexName(nodes[1]) != IndexName(nodes[2]) && IndexName(nodes[2]) == name + "." + ext
            && Target(CollidingItem(ext, name), ext) != name + "." + ext
  {
    OddExtension(ext);
    ShortName(name);
    hide NormalizeExt, CanonicalExt, ValidBase;
    DifferentTexts(name, ext, NormalizeExt(ext), if name == "a" then "b" else "a");
  }

  lemma CollidingIsUnique(ext: string, name: string)
    requires !CanonicalExt(ext) && ValidBase(name)
    ensures UniqueNames(Colliding(ext, name))
  {
    CollidingNames(ext, name);
    hide CanonicalExt, IndexName, ValidBase;
  }

  lemma CollidingItemAccepted(ext: string, name: string)
    requires !CanonicalExt(ext) && ValidBase(name)
    ensures ItemAccepted(Colliding(ext, name), 1, CollidingItem(ext, name))
  {
    CollidingNames(ext, name);
    hide CanonicalExt, IndexName, Target;
  }

  lemma CollidingItemValid(ext: string, name: string)
    requires |ext| <= MAX_EXT_LENGTH && ValidBase(name)
    ensures ValidItem(CollidingItem(ext, name))
  {
    assert ValidBase("a") && ValidBase("b");
    hide ValidBase;
  }

  lemma SingleRequest(nodes: map<Id, Node>, item: Item)
    requires ItemAccepted(nodes, 1, item) && ValidItem(item)
    ensures var request := Request(1, [item]);
            ValidRequest(request) && Accepted(nodes, request) && request.items[0] == item
  {
    assert item.id in nodes;
    hide ItemAccepted, ValidItem;
    assert [item][0] == item;
  }

  lemma CollidingIsAccepted(ext: string, name: string)
    requires !CanonicalExt(ext) && |ext| <= MAX_EXT_LENGTH && ValidBase(name)
    ensures var (nodes, request) := (Colliding(ext, name), Request(1, [CollidingItem(ext, name)]));
            UniqueNames(nodes) && ValidRequest(request) && Accepted(nodes, request)
  {
    hide UniqueNames, ItemAccepted, ValidItem, CanonicalExt, ValidBase, Colliding, CollidingItem, ValidRequest,
         Accepted;
    CollidingIsUnique(ext, name);
    CollidingItemAccepted(ext, name);
    CollidingItemValid(ext, name);
    SingleRequest(Colliding(ext, name), CollidingItem(ext, name));
  }

  /** For every extension not in canonical form there is a library in which the checks accept a rename of
      such a file and the write hits the index. */
  lemma OtherExtensionsCollide(ext: string, name: string, now: int)
    requires !CanonicalExt(ext) && |ext| <= MAX_EXT_LENGTH && ValidBase(name)
    ensures exists nodes: map<Id, Node>, request: Request ::
      && UniqueNames(nodes) && ValidRequest(request) && Accepted(nodes, request)
      && |request.items| == 1 && request.items[0].name == name
      && request.items[0].id in nodes && nodes[request.items[0].id].ext == ext
      && !UniqueNames(Written(nodes, request.items[0], now))
  {
    CollidingIsAccepted(ext, name);
    var (nodes, item) := (Colliding(ext, name), CollidingItem(ext, name));
    var after := Written(nodes, item, now);
    assert ext != "" by { assert Trimmed(""); }
    assert IndexName(after[1]) == IndexName(after[2]) && Siblings(after[1], after[2]);
    assert Request(1, [item]).items[0] == item;
  }

  lemma DottedExtension()
    ensures StoredExt("..x") == ".x" && !CanonicalExt(".x")
  {
    assert Trimmed(".x") && "." + ".x" == "..x";
    DottedIsStored(".x");
    hide StoredExt, Trimmed, NormalizeExt;
    StorableOdd(".x");
  }

  /** Such files exist: one created with the extension "..x" is stored with ".x", and renaming it collides. */
  lemma CreatedExtensionCollides(name: string, now: int)
    requires ValidBase(name)
    ensures StoredExt("..x") == ".x"
    ensures exists nodes: map<Id, Node>, request: Request ::
      && UniqueNames(nodes) && ValidRequest(request) && Accepted(nodes, request)
      && |request.items| == 1 && request.items[0].name == name
      && request.items[0].id in nodes && nodes[request.items[0].id].ext == ".x"
      && !UniqueNames(Written(nodes, request.items[0], now))
  {
    DottedExtension();
    hide CanonicalExt, StoredExt, ValidBase, ValidRequest, Accepted, UniqueNames, Written;
    OtherExtensionsCollide(".x", name, now);
  }
}
