/** RenameBatch as the code runs it: one transaction that replays, refuses or applies a batch and writes
    its receipt, for any sequence of calls. */
module RenameBatchService {
  import opened RenameBatch
  import opened Sorting
  import opened Wrappers

  datatype NameState = NameState(name: string, ext: string, updatedAt: int)

  datatype ItemResult = ItemResult(id: Id, parent: Id, previous: NameState, current: NameState)

  /** `committed` is false for a validated dry run. */
  datatype BatchResult = BatchResult(committed: bool, items: seq<ItemResult>, parents: seq<Id>, replayed: bool)

  datatype Receipt = Receipt(request: Request, result: BatchResult)

  datatype Error = InvalidArgument | Unauthorized | NotFound | Conflict | CommitUnknown

  /** How the transaction ends once its callback is done. */
  datatype TxEnd = Commits | ErrorRolledBack | ErrorCommitted

  /** An actor and an operation id: the primary key of the receipts. */
  datatype Key = Key(actor: string, operation: string)

  const NIL_UUID := "00000000-0000-0000-0000-000000000000"

  /** A canonical nonzero UUID. */
  predicate ValidOperation(id: string) {
    && |id| == 36 && id != NIL_UUID
    && forall i | 0 <= i < 36 ::
       if i in {8, 13, 18, 23} then id[i] == '-' else '0' <= id[i] <= '9' || 'a' <= id[i] <= 'f'
  }

  function StateOf(n: Node): NameState {
    NameState(n.name, n.ext, n.updatedAt)
  }

  /** What a committed batch reports: for each item the state before and after, and the parents touched. */
  ghost predicate Reports(nodes: map<Id, Node>, request: Request, now: int, result: BatchResult)
    requires forall item <- request.items :: item.id in nodes
  {
    && result.items == ResultsOf(nodes, request.items, now)
    && (forall p :: p in result.parents <==> p in ParentsOf(nodes, request.items))
    && (forall i, j | 0 <= i < j < |result.parents| :: result.parents[i] < result.parents[j])
    && result.committed && !result.replayed
  }

  /** The results as a dry run shows them: with the times it found. */
  predicate IsPreview(items: seq<ItemResult>, preview: seq<ItemResult>) {
    && |preview| == |items|
    && forall k | 0 <= k < |items| ::
         preview[k] == items[k].(current := items[k].current.(updatedAt := items[k].previous.updatedAt))
  }

  /** What a dry run answers: the results the batch would have, not committed. */
  ghost predicate Previews(nodes: map<Id, Node>, request: Request, now: int, result: BatchResult) {
    && (forall item <- request.items :: item.id in nodes)
    && IsPreview(ResultsOf(nodes, request.items, now), result.items)
    && (forall p :: p in result.parents <==> p in ParentsOf(nodes, request.items))
    && !result.committed && !result.replayed
  }

  predicate Nothing(nodes: map<Id, Node>, receipts: map<Key, Receipt>, nodes': map<Id, Node>, receipts': map<Key,
        Receipt>) {
    nodes' == nodes && receipts' == receipts
  }

  /** All items renamed and the receipt written, for an operation that had none. */
  ghost predicate Applies(nodes: map<Id, Node>, receipts: map<Key, Receipt>, nodes': map<Id, Node>, receipts': map<Key,
        Receipt>,
                          key: Key, request: Request, now: int)
  {
    && key !in receipts && key in receipts'
    && Accepted(nodes, request)
    && (forall item <- request.items :: item.id in nodes)
    && nodes' == Renamed(nodes, request.items, now)
    && receipts' == receipts[key := Receipt(request, receipts'[key].result)]
    && Reports(nodes, request, now, receipts'[key].result)
  }

  /** The answer is what the receipt of this very request says. */
  predicate Answers(receipts: map<Key, Receipt>, key: Key, request: Option<Request>, result: BatchResult) {
    key in receipts && request == Some(receipts[key].request)
        && result.(replayed := receipts[key].result.replayed) == receipts[key].result
  }

  lemma FirstAnswer(nodes: map<Id, Node>, request: Request, now: int, result: BatchResult)
    requires (forall item <- request.items :: item.id in nodes) && Reports(nodes, request, now, result)
    ensures !result.replayed
  {
  }

  lemma PreviewOfReport(nodes: map<Id, Node>, request: Request, now: int, result: BatchResult, preview: seq<ItemResult>)
    requires (forall item <- request.items :: item.id in nodes) && Reports(nodes, request, now, result)
    requires IsPreview(result.items, preview)
    ensures Previews(nodes, request, now, result.(committed := false, items := preview))
  {
    hide IsPreview;
  }

  lemma CanonicalIsValid(library: nat, items: seq<Item>)
    requires Canonical(library, items).Some?
    ensures ValidRequest(Canonical(library, items).value)
  {
  }

  class NodeUseCase {
    /** The live rows and the receipts. */
    var nodes: map<Id, Node>
    var receipts: map<Key, Receipt>
    /** History: how often a batch of each operation took effect. */
    ghost var applied: multiset<Key>

    /** Sibling names are unique, and an operation took effect exactly as often as it has a receipt: once at most. */
    ghost predicate Consistent()
      reads this
    {
      UniqueNames(nodes) && forall key :: applied[key] == if key in receipts then 1 else 0
    }

    constructor (nodes: map<Id, Node>)
      requires UniqueNames(nodes)
      ensures Consistent() && this.nodes == nodes && receipts == map[]
    {
      this.nodes, this.receipts := nodes, map[];
      applied := multiset{};
    }

    /** The checks on one item; `targets` are the names earlier items of the batch ask for. */
    method CheckItem(library: nat, item: Item, targets: set<(Id, string)>) returns (ok: bool)
      ensures ok <==> ItemAccepted(nodes, library, item) && TargetKey(nodes, item) !in targets
    {
      hide Target, NameTaken;
      if item.id !in nodes || nodes[item.id].library != library {
        return false;
      }
      var n := nodes[item.id];
      if !n.file || n.parent == 0 || n.archive {
        return false;
      }
      if item.expected != Snapshot(n.parent, n.name, n.ext, n.updatedAt) {
        return false;
      }
      ok := TargetKey(nodes, item) !in targets && !NameTaken(nodes, item);
    }

    /** The checks of executeRenameBatch. */
    method CheckBatch(request: Request) returns (ok: bool, parents: set<Id>)
      ensures ok <==> Accepted(nodes, request)
      ensures ok ==> parents == ParentsOf(nodes, request.items)
    {
      hide ItemAccepted, TargetKey, TargetsApart;
      var items := request.items;
      var targets: set<(Id, string)> := {};
      parents := {};
      NothingChecked(nodes);
      for i := 0 to |items|
        invariant forall j | 0 <= j < i :: ItemAccepted(nodes, request.library, items[j])
        invariant TargetsApart(nodes, items[..i])
        invariant targets == TargetsOf(nodes, items[..i]) && parents == ParentsOf(nodes, items[..i])
      {
        assert items[i] in items;
        assert items[..i + 1] == items[..i] + [items[i]];
        ok := CheckItem(request.library, items[i], targets);
        OneMoreTarget(nodes, request.library, items[..i], items[i]);
        if !ok {
          if TargetsApart(nodes, items) {
            PrefixApart(nodes, items, i + 1);
          }
          return;
        }
        targets := targets + {TargetKey(nodes, items[i])};
        parents := parents + {nodes[items[i].id].parent};
      }
      assert items[..|items|] == items;
      ok := true;
    }

    /** WriteLockedRename: the unique index refuses a name a sibling has. */
    method WriteLockedRename(id: Id, name: string, now: int) returns (ok: bool)
      requires id in nodes
      modifies this`nodes
      ensures ok <==> UniqueNames(old(nodes)[id := old(nodes)[id].(name := name, updatedAt := now)])
      ensures nodes == if ok then old(nodes)[id := old(nodes)[id].(name := name, updatedAt := now)] else old(nodes)
    {
      var after := nodes[id := nodes[id].(name := name, updatedAt := now)];
      ok := UniqueNames(after);
      if ok {
        nodes := after;
      }
    }

    /** The writes of executeRenameBatch, item by item. */
    method WriteAll(items: seq<Item>, now: int) returns (ok: bool, results: seq<ItemResult>)
      requires UniqueNames(nodes) && AscendingIds(items) && forall item <- items :: item.id in nodes
      modifies this`nodes
      ensures ok <==> WritesFit(old(nodes), items, now)
      ensures ok ==> UniqueNames(nodes) && nodes == Renamed(old(nodes), items, now)
      ensures ok ==> results == ResultsOf(old(nodes), items, now)
    {
      hide UniqueNames, WritesFit, WrittenUpTo, Renamed, StateOf;
      ghost var start := nodes;
      NothingWritten(nodes, items, now);
      results := [];
      for k := 0 to |items|
        invariant WrittenUpTo(start, nodes, items, now, k)
        invariant |results| == k && forall j | 0 <= j < k :: results[j] == ResultsOf(start, items, now)[j]
      {
        CanWriteNext(start, nodes, items, now, k);
        var n := nodes[items[k].id];
        ok := WriteLockedRename(items[k].id, items[k].name, now);
        if !ok {
          return;
        }
        StateAfter(n, items[k].name, now);
        results := results + [ItemResult(items[k].id, n.parent, StateOf(n), StateOf(nodes[items[k].id]))];
      }
      AllWritten(start, nodes, items, now);
      ok := true;
    }

    /** executeRenameBatch: the checks on all items, then the writes. */
    method ExecuteRenameBatch(request: Request, now: int) returns (r: Result<BatchResult, Error>)
      requires UniqueNames(nodes) && ValidRequest(request)
      modifies this`nodes
      ensures r.Ok? <==> Accepted(old(nodes), request) && WritesFit(old(nodes), request.items, now)
      ensures r.Ok? ==>
                UniqueNames(nodes) && nodes == Renamed(old(nodes), request.items, now)
                    && Reports(old(nodes), request, now, r.value)
    {
      var ok: bool, parents: set<Id>, results: seq<ItemResult>;
      ok, parents := CheckBatch(request);
      if !ok {
        return Err(Conflict);
      }
      AcceptedAreRows(nodes, request);
      hide Accepted, UniqueNames, WritesFit, ValidItem, Renamed, ParentsOf, ResultsOf;
      ok, results := WriteAll(request.items, now);
      if !ok {
        return Err(Conflict);
      }
      var affected := MapKeysSorted(parents);
      r := Ok(BatchResult(true, results, affected, false));
    }

    /** validateRenameBatch */
    method ValidateRenameBatch(operation: string, library: nat, items: seq<Item>) returns (r: Option<Request>)
      ensures r == if ValidOperation(operation) then Canonical(library, items) else None
    {
      if !ValidOperation(operation) || library == 0 || library > MAX_ID {
        return None;
      }
      SortedById(items);
      if |items| == 0 || |items| > MAX_ITEMS {
        return None;
      }
      var sorted := Sort(ById, items);
      for i := 0 to |sorted|
        invariant forall j | 0 <= j < i :: ValidItem(sorted[j])
        invariant forall j | 0 < j < i :: sorted[j - 1].id != sorted[j].id
      {
        if (i > 0 && sorted[i - 1].id == sorted[i].id) || !ValidItem(sorted[i]) {
          assert sorted[i] in sorted;
          return None;
        }
      }
      NeighboursSuffice(sorted);
      r := Some(Request(library, sorted));
    }

    /** RenameBatch. */
    method RenameBatch(actor: Option<string>, operation: string, library: nat, items: seq<Item>, dryRun: bool, now: int,
          end: TxEnd)
      returns (r: Result<BatchResult, Error>)
      requires Consistent()
      modifies this
      ensures Consistent()
      ensures Nothing(old(nodes), old(receipts), nodes, receipts) ||
              (!dryRun && actor.Some? && ValidOperation(operation) && Canonical(library, items).Some? &&
               Applies(old(nodes), old(receipts), nodes, receipts, Key(actor.value, operation),
                   Canonical(library, items).value, now))
      ensures r.Err? && r.error != CommitUnknown ==> Nothing(old(nodes), old(receipts), nodes, receipts)
      ensures r.Ok? && dryRun
              ==> Canonical(library, items).Some? && Previews(old(nodes), Canonical(library, items).value, now, r.value)
      ensures actor.Some? && ValidOperation(operation) && Canonical(library, items).Some? && dryRun ==>
              var (key, request) := (Key(actor.value, operation), Canonical(library, items).value);
              r.Ok? <==>
                key !in old(receipts) && Accepted(old(nodes), request) && WritesFit(old(nodes), request.items, now)
      ensures r.Ok? && !dryRun
              ==> actor.Some? && Answers(receipts, Key(actor.value, operation), Canonical(library, items), r.value)
      ensures r.Ok? && !dryRun ==> (r.value.replayed <==> Key(actor.value, operation) in old(receipts))
      ensures end.Commits? && actor.Some? && ValidOperation(operation) && Canonical(library, items).Some? && !dryRun ==>
              var (key, request) := (Key(actor.value, operation), Canonical(library, items).value);
              r.Ok? <==> if key in old(receipts) then old(receipts)[key].request == request
                         else Accepted(old(nodes), request) && WritesFit(old(nodes), request.items, now)
    {
      hide UniqueNames, Accepted, WritesFit, ValidRequest, Previews, IsPreview;
      var validated := ValidateRenameBatch(operation, library, items);
      if validated.None? {
        return Err(InvalidArgument);
      }
      if actor.None? {
        return Err(Unauthorized);
      }
      var (key, request) := (Key(actor.value, operation), validated.value);
      if key in receipts {
        if receipts[key].request != request || dryRun {
          return Err(Conflict);
        }
        if !end.Commits? {
          return Err(CommitUnknown);
        }
        return Ok(receipts[key].result.(replayed := true));
      }
      CanonicalIsValid(library, items);
      r := ApplyBatch(key, request, dryRun, now, end);
    }

    /** The rest of the transaction for an operation without a receipt. */
    method ApplyBatch(key: Key, request: Request, dryRun: bool, now: int, end: TxEnd)
          returns (r: Result<BatchResult, Error>)
      requires Consistent() && key !in receipts && ValidRequest(request)
      modifies this
      ensures Consistent()
      ensures Nothing(old(nodes), old(receipts), nodes, receipts) ||
              (!dryRun && Applies(old(nodes), old(receipts), nodes, receipts, key, request, now))
      ensures r.Err? && r.error != CommitUnknown ==> Nothing(old(nodes), old(receipts), nodes, receipts)
      ensures r.Ok? && dryRun ==> Previews(old(nodes), request, now, r.value)
      ensures r.Ok? && !dryRun ==> Answers(receipts, key, Some(request), r.value) && !r.value.replayed
      ensures end.Commits? || dryRun
              ==> (r.Ok? <==> Accepted(old(nodes), request) && WritesFit(old(nodes), request.items, now))
    {
      hide UniqueNames, Accepted, WritesFit, ValidRequest, Renamed, Reports, Previews;
      var start := nodes;
      r := ExecuteRenameBatch(request, now);
      if r.Err? {
        nodes := start;
        return;
      }
      AcceptedAreRows(start, request);
      FirstAnswer(start, request, now, r.value);
      if dryRun {
        nodes := start;
        var preview := Preview(r.value.items);
        PreviewOfReport(start, request, now, r.value, preview);
        return Ok(r.value.(committed := false, items := preview));
      }
      if !end.ErrorRolledBack? {
        receipts := receipts[key := Receipt(request, r.value)];
        applied := applied + multiset{key};
      } else {
        nodes := start;
      }
      if !end.Commits? {
        r := Err(CommitUnknown);
      }
    }

    /** A dry run reports the times it found. */
    method Preview(items: seq<ItemResult>) returns (preview: seq<ItemResult>)
      ensures IsPreview(items, preview)
    {
      preview := [];
      for k := 0 to |items|
        invariant |preview| == k
        invariant forall j | 0 <= j < k ::
                    preview[j] == items[j].(current := items[j].current.(updatedAt := items[j].previous.updatedAt))
      {
        preview := preview + [items[k].(current := items[k].current.(updatedAt := items[k].previous.updatedAt))];
      }
    }

    /** RenameBatchStatus: committed only for an operation of this actor and library that took effect once. */
    method RenameBatchStatus(actor: Option<string>, operation: string, library: nat)
          returns (r: Result<Option<BatchResult>, Error>)
      requires Consistent()
      ensures r.Ok? <==> actor.Some? && ValidOperation(operation) && 0 < library <= MAX_ID
      ensures r.Ok? && r.value.Some? ==>
                var key := Key(actor.value, operation);
                && applied[key] == 1 && key in receipts
                && receipts[key].request.library == library && r.value.value == receipts[key].result
      ensures r.Ok? && r.value.None? ==>
                var key := Key(actor.value, operation);
                key !in receipts || receipts[key].request.library != library
    {
      if !ValidOperation(operation) || library == 0 || library > MAX_ID {
        return Err(InvalidArgument);
      }
      if actor.None? {
        return Err(Unauthorized);
      }
      var key := Key(actor.value, operation);
      if key !in receipts || receipts[key].request.library != library {
        return Ok(None);
      }
      r := Ok(Some(receipts[key].result));
    }
  }

  /** The parent and name a batch item asks for; the text "parent:name" of the code is one to one with it. */
  function TargetKey(nodes: map<Id, Node>, item: Item): (Id, string) {
    if item.id in nodes then (nodes[item.id].parent, Target(item, nodes[item.id].ext)) else (0, "")
  }

  function TargetsOf(nodes: map<Id, Node>, items: seq<Item>): set<(Id, string)> {
    set item | item in items :: TargetKey(nodes, item)
  }

  function ParentsOf(nodes: map<Id, Node>, items: seq<Item>): set<Id> {
    set item | item in items && item.id in nodes :: nodes[item.id].parent
  }

  lemma AcceptedAreRows(nodes: map<Id, Node>, request: Request)
    requires Accepted(nodes, request)
    ensures forall item <- request.items :: item.id in nodes
  {
  }

  lemma NothingChecked(nodes: map<Id, Node>)
    ensures TargetsApart(nodes, []) && TargetsOf(nodes, []) == {} && ParentsOf(nodes, []) == {}
  {
  }

  lemma OneMoreTarget(nodes: map<Id, Node>, library: nat, items: seq<Item>, item: Item)
    requires TargetsApart(nodes, items) && forall earlier <- items :: ItemAccepted(nodes, library, earlier)
    ensures ItemAccepted(nodes, library, item) ==>
              && item.id in nodes
              && (TargetsApart(nodes, items + [item]) <==> TargetKey(nodes, item) !in TargetsOf(nodes, items))
              && TargetsOf(nodes, items + [item]) == TargetsOf(nodes, items) + {TargetKey(nodes, item)}
              && ParentsOf(nodes, items + [item]) == ParentsOf(nodes, items) + {nodes[item.id].parent}
  {
    hide Target, NameTaken;
    if ItemAccepted(nodes, library, item) {
      var more := items + [item];
      assert forall earlier :: earlier in more <==> earlier in items || earlier == item;
      TargetsApartNext(nodes, items, item);
    }
  }

  lemma TargetsApartNext(nodes: map<Id, Node>, items: seq<Item>, item: Item)
    requires TargetsApart(nodes, items) && (forall earlier <- items :: earlier.id in nodes) && item.id in nodes
    ensures TargetsApart(nodes, items + [item]) <==> TargetKey(nodes, item) !in TargetsOf(nodes, items)
  {
    hide Target;
    var more := items + [item];
    assert more[|items|] == item && forall j | 0 <= j < |items| :: more[j] == items[j] && items[j] in items;
    if TargetKey(nodes, item) in TargetsOf(nodes, items) {
      var earlier :| earlier in items && TargetKey(nodes, earlier) == TargetKey(nodes, item);
      var j :| 0 <= j < |items| && items[j] == earlier;
      assert SameTarget(nodes, more[j], more[|items|]);
    } else {
      forall j | 0 <= j < |items| ensures !SameTarget(nodes, more[j], item) {
        assert TargetKey(nodes, items[j]) in TargetsOf(nodes, items);
      }
    }
  }

  lemma PrefixApart(nodes: map<Id, Node>, items: seq<Item>, n: nat)
    requires n <= |items| && TargetsApart(nodes, items)
    ensures TargetsApart(nodes, items[..n])
  {
  }

  /** The writes up to k went through. */
  ghost predicate WrittenUpTo(start: map<Id, Node>, nodes: map<Id, Node>, items: seq<Item>, now: int, k: nat)
    requires k <= |items| && forall item <- items :: item.id in start
  {
    && nodes == Renamed(start, items[..k], now)
    && forall j | 0 <= j <= k :: UniqueNames(Renamed(start, items[..j], now))
  }

  /** What a caller sees of the applied items. */
  function ResultsOf(nodes: map<Id, Node>, items: seq<Item>, now: int): (results: seq<ItemResult>)
    requires forall item <- items :: item.id in nodes
    ensures |results| == |items|
    ensures forall k | 0 <= k < |items| ::
              var n := nodes[items[k].id];
              results[k] == ItemResult(items[k].id, n.parent, StateOf(n), NameState(items[k].name, n.ext, now))
  {
    seq(|items|, k requires 0 <= k < |items| =>
      var n := nodes[items[k].id];
      ItemResult(items[k].id, n.parent, StateOf(n), NameState(items[k].name, n.ext, now)))
  }

  lemma StateAfter(n: Node, name: string, now: int)
    ensures StateOf(n.(name := name, updatedAt := now)) == NameState(name, n.ext, now)
  {
  }

  lemma CanWriteNext(start: map<Id, Node>, nodes: map<Id, Node>, items: seq<Item>, now: int, k: nat)
    requires AscendingIds(items) && k < |items| && (forall item <- items :: item.id in start)
    requires WrittenUpTo(start, nodes, items, now, k)
    ensures items[k].id in nodes && nodes[items[k].id] == start[items[k].id]
    ensures var next := nodes[items[k].id := nodes[items[k].id].(name := items[k].name, updatedAt := now)];
            if UniqueNames(next) then WrittenUpTo(start, next, items, now, k + 1) else !WritesFit(start, items, now)
  {
    hide UniqueNames;
    RenamedNext(start, items, now, k);
  }

  lemma NothingWritten(nodes: map<Id, Node>, items: seq<Item>, now: int)
    requires (forall item <- items :: item.id in nodes) && UniqueNames(nodes)
    ensures WrittenUpTo(nodes, nodes, items, now, 0)
  {
  }

  lemma AllWritten(start: map<Id, Node>, nodes: map<Id, Node>, items: seq<Item>, now: int)
    requires (forall item <- items :: item.id in start) && WrittenUpTo(start, nodes, items, now, |items|)
    ensures nodes == Renamed(start, items, now) && WritesFit(start, items, now) && UniqueNames(nodes)
  {
    assert items[..|items|] == items;
    hide UniqueNames;
  }
}
