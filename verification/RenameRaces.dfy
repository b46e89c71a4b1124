/** An accepted rename whose writes come later than its checks. The batch holds its files locked, but not the names
    among their siblings: other rows may come, go and change before every single write. */
module RenameRaces {
  import Fresh
  import opened GoText
  import opened NodeNames
  import opened RenameBatch

  /** The locked rows of the batch. */
  function BatchRows(nodes: map<Id, Node>, items: seq<Item>): (rows: map<Id, Node>)
    ensures forall id :: id in rows <==> id in nodes && exists item <- items :: item.id == id
    ensures forall id <- rows :: rows[id] == nodes[id]
  {
    map id | id in nodes && exists item <- items :: item.id == id :: nodes[id]
  }

  /** The rows after the first k writes, beside the rows that others have by then. */
  function After(nodes: map<Id, Node>, items: seq<Item>, now: int, k: nat, others: map<Id, Node>): map<Id, Node>
    requires k <= |items| && forall item <- items :: item.id in nodes
  {
    assert forall item <- items :: item.id in BatchRows(nodes, items);
    Renamed(BatchRows(nodes, items), items[..k], now) + others
  }

  /** One of the others has the name that the item asks for. */
  predicate TakenBy(nodes: map<Id, Node>, item: Item, others: map<Id, Node>)
    requires item.id in nodes
  {
    exists y <- others :: Siblings(others[y], nodes[item.id])
        && IndexName(others[y]) == Target(item, nodes[item.id].ext)
  }

  /** A batch accepted by canonical files of unique names. */
  predicate Checked(nodes: map<Id, Node>, request: Request) {
    && ValidRequest(request) && Accepted(nodes, request) && UniqueNames(nodes)
    && forall item <- request.items :: item.id in nodes && CanonicalExt(nodes[item.id].ext)
  }

  /** At every write, rows that others have committed: none of the batch, and names unique beside what is written. */
  predicate Interferes(nodes: map<Id, Node>, request: Request, now: int, others: seq<map<Id, Node>>)
    requires forall item <- request.items :: item.id in nodes
  {
    && |others| == |request.items|
    && forall k | 0 <= k < |others| ::
         && others[k].Keys !! BatchRows(nodes, request.items).Keys
         && UniqueNames(After(nodes, request.items, now, k, others[k]))
  }

  lemma ItemAlone(nodes: map<Id, Node>, items: seq<Item>, library: nat, item: Item)
    requires item in items && ItemAccepted(nodes, library, item)
    ensures item.id in BatchRows(nodes, items) && ItemAccepted(BatchRows(nodes, items), library, item)
  {
    hide IndexName, Target;
    assert !NameTaken(nodes, item);
  }

  lemma TargetsAlone(nodes: map<Id, Node>, items: seq<Item>)
    requires TargetsApart(nodes, items)
    ensures TargetsApart(BatchRows(nodes, items), items)
  {
    hide Target;
    forall i | 0 <= i < |items| ensures items[i].id in BatchRows(nodes, items) {
      assert items[i] in items;
    }
    forall i, j | 0 <= i < j < |items| ensures !SameTarget(BatchRows(nodes, items), items[i], items[j]) {
      assert !SameTarget(nodes, items[i], items[j]);
    }
  }

  /** The batch alone is accepted as well. */
  lemma BatchIsChecked(nodes: map<Id, Node>, request: Request)
    requires Checked(nodes, request)
    ensures Checked(BatchRows(nodes, request.items), request)
  {
    hide ItemAccepted, ValidRequest, TargetsApart, UniqueNames, CanonicalExt;
    forall item | item in request.items
      ensures item.id in BatchRows(nodes, request.items)
              && ItemAccepted(BatchRows(nodes, request.items), request.library, item)
    {
      ItemAlone(nodes, request.items, request.library, item);
    }
    TargetsAlone(nodes, request.items);
    FewerAreUnique(nodes, BatchRows(nodes, request.items));
  }

  lemma FewerAreUnique(nodes: map<Id, Node>, rows: map<Id, Node>)
    requires UniqueNames(nodes) && forall id <- rows :: id in nodes && rows[id] == nodes[id]
    ensures UniqueNames(rows)
  {
    hide IndexName;
  }

  /** A row written beside others: names stay unique exactly when they were apart from the others' before and are
      now. */
  lemma WriteBeside(rows: map<Id, Node>, x: Id, row: Node, others: map<Id, Node>)
    requires rows.Keys !! others.Keys && x in rows && Siblings(row, rows[x])
    requires UniqueNames(rows + others) && UniqueNames(rows[x := row])
    ensures UniqueNames(rows[x := row] + others) <==>
            forall y <- others :: Siblings(others[y], row) ==> IndexName(others[y]) != IndexName(row)
  {
    hide IndexName;
    var (before, after) := (rows + others, rows[x := row] + others);
    assert after == before[x := row];
    if forall y <- others :: Siblings(others[y], row) ==> IndexName(others[y]) != IndexName(row) {
      forall y | y in before && y != x && Siblings(before[y], row) ensures IndexName(before[y]) != IndexName(row) {
        if y in rows {
          assert rows[x := row][y] == before[y] && rows[x := row][x] == row;
        }
      }
      WriteKeepsUnique(before, x, row);
    } else {
      var y :| y in others && Siblings(others[y], row) && IndexName(others[y]) == IndexName(row);
      assert after[y] == others[y] && after[x] == row && y != x;
    }
  }

  /** The next write on the batch alone. */
  lemma NextAlone(rows: map<Id, Node>, request: Request, now: int, k: nat)
    requires Checked(rows, request) && k < |request.items|
    ensures var (items, item) := (request.items, request.items[k]);
            var before := Renamed(rows, items[..k], now);
            && item.id in before && item.id in rows && before[item.id] == rows[item.id]
            && var row := rows[item.id].(name := item.name, updatedAt := now);
               && Renamed(rows, items[..k + 1], now) == before[item.id := row] && UniqueNames(before[item.id := row])
               && Siblings(row, rows[item.id]) && IndexName(row) == Target(item, rows[item.id].ext)
  {
    var item := request.items[k];
    assert item in request.items && ValidItem(item) && ItemAccepted(rows, request.library, item);
    RenamedNext(rows, request.items, now, k);
    PrefixFits(rows, request, now, k + 1);
    TargetIsIndexName(rows[item.id], item, now);
  }

  /** One write, whatever the others have by then: the index refuses it exactly when one of them has its name. */
  lemma LateWrite(nodes: map<Id, Node>, request: Request, now: int, k: nat, others: map<Id, Node>)
    requires Checked(nodes, request) && k < |request.items|
    requires others.Keys !! BatchRows(nodes, request.items).Keys
    requires UniqueNames(After(nodes, request.items, now, k, others))
    ensures request.items[k].id in nodes
    ensures UniqueNames(After(nodes, request.items, now, k + 1, others)) <==> !TakenBy(nodes, request.items[k], others)
  {
    hide IndexName, Target, UniqueNames, Accepted, ValidRequest, Renamed, Siblings;
    var (items, item) := (request.items, request.items[k]);
    assert item in items;
    var rows := BatchRows(nodes, items);
    BatchIsChecked(nodes, request);
    NextAlone(rows, request, now, k);
    WriteBeside(Renamed(rows, items[..k], now), item.id, nodes[item.id].(name := item.name, updatedAt := now), others);
    SameSiblings(nodes[item.id], item.name, now, others);
  }

  lemma SameSiblings(node: Node, name: string, now: int, others: map<Id, Node>)
    ensures forall y <- others ::
              Siblings(others[y], node.(name := name, updatedAt := now)) <==> Siblings(others[y], node)
  {
  }

  /** The whole batch under any interference: every write passes the index if and only if at no write one of the
      others has the name it asks for. */
  lemma LateWritesFit(nodes: map<Id, Node>, request: Request, now: int, others: seq<map<Id, Node>>)
    requires Checked(nodes, request) && Interferes(nodes, request, now, others)
    ensures (forall k | 0 <= k < |request.items| ::
            UniqueNames(After(nodes, request.items, now, k + 1, others[k]))) <==>
            (forall k | 0 <= k < |request.items| ::
               request.items[k].id in nodes && !TakenBy(nodes, request.items[k], others[k]))
  {
    forall k | 0 <= k < |request.items|
      ensures request.items[k].id in nodes
      ensures UniqueNames(After(nodes, request.items, now, k + 1, others[k]))
              <==> !TakenBy(nodes, request.items[k], others[k])
    {
      LateWrite(nodes, request, now, k, others[k]);
    }
    hide UniqueNames, TakenBy, Checked, Interferes;
  }

  lemma AddUnique(rows: map<Id, Node>, y: Id, row: Node)
    requires UniqueNames(rows) && y !in rows
    requires forall x <- rows :: Siblings(rows[x], row) ==> IndexName(rows[x]) != IndexName(row)
    ensures UniqueNames(rows + map[y := row])
  {
    hide IndexName;
  }

  /** What no sibling of the batch is called yet before write k, another may come to be called. */
  lemma NewcomerIsUnique(rows: map<Id, Node>, request: Request, now: int, k: nat, y: Id, row: Node)
    requires Checked(rows, request) && k < |request.items| && y !in rows
    requires request.items[k].id in rows
    requires var (item, n) := (request.items[k], rows[request.items[k].id]);
             Siblings(row, n) && IndexName(row) == Target(item, n.ext) && IndexName(n) != Target(item, n.ext)
    ensures UniqueNames(Renamed(rows, request.items[..k], now) + map[y := row])
  {
    hide IndexName, Target, UniqueNames, Accepted, ValidRequest, Renamed;
    var item := request.items[k];
    var before := Renamed(rows, request.items[..k], now);
    UniqueBefore(rows, request, now, k);
    NextAlone(rows, request, now, k);
    forall x | x in before && Siblings(before[x], row) ensures IndexName(before[x]) != IndexName(row) {
      if x != item.id {
        OtherNameDiffers(rows, request, now, k, x);
      }
    }
    AddUnique(before, y, row);
  }

  lemma UniqueBefore(rows: map<Id, Node>, request: Request, now: int, k: nat)
    requires Checked(rows, request) && k < |request.items|
    ensures UniqueNames(Renamed(rows, request.items[..k], now))
  {
    PrefixFits(rows, request, now, k);
  }

  /** A directory with the name that item k asks for. */
  function Newcomer(nodes: map<Id, Node>, item: Item): Node
    requires item.id in nodes
  {
    Node(nodes[item.id].library, nodes[item.id].parent, false, Target(item, nodes[item.id].ext), "", false, 0)
  }

  lemma NewcomerTakes(nodes: map<Id, Node>, item: Item, y: Id)
    requires item.id in nodes
    ensures var row := Newcomer(nodes, item);
            Siblings(row, nodes[item.id]) && IndexName(row) == Target(item, nodes[item.id].ext)
                && TakenBy(nodes, item, map[y := row])
  {
    hide Target;
    var others := map[y := Newcomer(nodes, item)];
    assert others[y] == Newcomer(nodes, item);
  }

  /** And some creation does it: beside every write that changes a name there may be a newcomer that makes it fail. */
  lemma SomeCreateHitsIndex(nodes: map<Id, Node>, request: Request, now: int, k: nat)
    requires Checked(nodes, request) && k < |request.items| && request.items[k].id in nodes
    requires IndexName(nodes[request.items[k].id]) != Target(request.items[k], nodes[request.items[k].id].ext)
    ensures exists others: map<Id, Node> ::
              && others.Keys !! BatchRows(nodes, request.items).Keys
              && UniqueNames(After(nodes, request.items, now, k, others))
              && !UniqueNames(After(nodes, request.items, now, k + 1, others))
  {
    hide IndexName, Target, UniqueNames, Accepted, ValidRequest, Renamed, Siblings, Checked, Newcomer, TakenBy;
    var (rows, item) := (BatchRows(nodes, request.items), request.items[k]);
    assert item in request.items;
    BatchIsChecked(nodes, request);
    Fresh.FreshId(rows.Keys);
    var y: Id :| y != 0 && y !in rows.Keys;
    var row := Newcomer(nodes, item);
    NewcomerTakes(nodes, item, y);
    NewcomerIsUnique(rows, request, now, k, y, row);
    CheckedAreRows(nodes, request);
    assert map[y := row].Keys !! rows.Keys && UniqueNames(After(nodes, request.items, now, k, map[y := row]));
    LateWrite(nodes, request, now, k, map[y := row]);
  }

  lemma CheckedAreRows(nodes: map<Id, Node>, request: Request)
    requires Checked(nodes, request)
    ensures forall item <- request.items :: item.id in nodes
  {
  }
}
