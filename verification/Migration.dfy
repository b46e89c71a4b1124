/** Storage migration as an interleaved step system: several workers, task creation, Cancel.

  Every SQL statement outside a transaction, every transaction and every object store call is one
  step. A transaction either commits or rolls back; its outcome is known to the worker. */
module Migration {
  import opened SetSum
  import opened Wrappers

  type Key = string
  type TaskId = nat
  type ItemId = nat
  type ObjectId = nat
  type FileId = nat
  type WorkerId = nat

  /** Where bytes live: a provider instance and an object key in it. */
  datatype Loc = Loc(provider: nat, key: Key)

  /** A storage_objects row; deleted rows stay in the table. */
  datatype StorageObject = StorageObject(loc: Loc, size: nat, live: bool)

  datatype TaskStatus = TaskPending | TaskCompleted | TaskFailed | TaskCanceled

  /** `plan` lists the sizes Enqueue announced, `added` says how many of their items exist so far. */
  datatype Task = Task(actor: string, target: nat, plan: seq<nat>, added: nat, status: TaskStatus,
                       completed: nat, failed: nat, skipped: nat, transferred: nat) {
    predicate IsTerminal() {
      status != TaskPending
    }
  }

  datatype ItemStatus = Pending | Running | Done | Failed | Skipped

  datatype Item = Item(task: TaskId, obj: ObjectId, source: Loc, target: Loc, size: nat, status: ItemStatus)

  /** Where a worker is inside processItem. */
  datatype Pc =
    | Idle
    | Claimed(item: ItemId)
    | Losing(item: ItemId)
    | Copying(item: ItemId)
    | Verifying(item: ItemId)
    | Swapping(item: ItemId)
    | DroppingTarget(item: ItemId)
    | DroppingSource(item: ItemId)
    | Failing(item: ItemId)
    | CountingFailure(item: ItemId)
    | Skipping(item: ItemId)
    | CountingSkip(item: ItemId)
    | Finishing(item: ItemId)

  datatype World = World(
    objects: map<ObjectId, StorageObject>,
    refs: map<FileId, ObjectId>,
    sizes: map<FileId, nat>,
    store: map<Loc, nat>,
    tasks: map<TaskId, Task>,
    items: map<ItemId, Item>,
    workers: map<WorkerId, Pc>,
    usedKeys: set<Key>)

  // ----- steps -----

  datatype Action =
    | CreateTask(t: TaskId, actor: string, target: nat, plan: seq<nat>)
    | AddItem(i: ItemId, t: TaskId, obj: ObjectId, targetKey: Key)
    | CancelTask(t: TaskId)
    | SkipPending(t: TaskId)
    | Hire(w: WorkerId)
    | Claim(w: WorkerId, i: ItemId)
    | ReadTask(w: WorkerId, fault: bool)
    | MarkLost(w: WorkerId, works: bool)
    | Copy(w: WorkerId, effect: Option<nat>, reportsError: bool)
    | Verify(w: WorkerId, reachable: bool)
    | Swap(w: WorkerId, newObject: ObjectId, commits: bool)
    | DropTarget(w: WorkerId, removes: bool)
    | DropSource(w: WorkerId, removes: bool)
    | MarkFailed(w: WorkerId, works: bool)
    | CountFailed(w: WorkerId, works: bool)
    | MarkSkipped(w: WorkerId, works: bool)
    | CountSkipped(w: WorkerId, works: bool)
    | Finish(w: WorkerId, aggregates: bool)

  predicate At(w: World, id: WorkerId) {
    && id in w.workers && w.workers[id] != Idle && w.workers[id].item in w.items
    && w.items[w.workers[id].item].task in w.tasks && w.items[w.workers[id].item].obj in w.objects
  }

  predicate Enabled(w: World, a: Action) {
    match a
    case CreateTask(t, _, _, _) => t !in w.tasks
    case AddItem(i, t, obj, key) =>
      && i !in w.items && t in w.tasks && obj in w.objects && key !in w.usedKeys
      && w.tasks[t].added < |w.tasks[t].plan| && w.tasks[t].plan[w.tasks[t].added] == w.objects[obj].size
    case CancelTask(t) => t in w.tasks
    case SkipPending(t) => t in w.tasks
    case Hire(id) => id !in w.workers
    case Claim(id, i) => id in w.workers && w.workers[id] == Idle && i in w.items && w.items[i].status == Pending
    case ReadTask(id, _) => At(w, id) && w.workers[id].Claimed?
    case MarkLost(id, _) => At(w, id) && w.workers[id].Losing?
    case Copy(id, effect, reportsError) => At(w, id) && w.workers[id].Copying?
        && (w.items[w.workers[id].item].source !in w.store ==> effect.None? && reportsError)
    case Verify(id, _) => At(w, id) && w.workers[id].Verifying?
    case Swap(id, newObject, _) => At(w, id) && w.workers[id].Swapping? && newObject !in w.objects
    case DropTarget(id, _) => At(w, id) && w.workers[id].DroppingTarget?
    case DropSource(id, _) => At(w, id) && w.workers[id].DroppingSource?
    case MarkFailed(id, _) => At(w, id) && w.workers[id].Failing?
    case CountFailed(id, _) => At(w, id) && w.workers[id].CountingFailure?
    case MarkSkipped(id, _) => At(w, id) && w.workers[id].Skipping?
    case CountSkipped(id, _) => At(w, id) && w.workers[id].CountingSkip?
    case Finish(id, _) => At(w, id) && w.workers[id].Finishing?
  }

  function MoveTo(w: World, id: WorkerId, pc: Pc): World {
    w.(workers := w.workers[id := pc])
  }

  function SetStatus(w: World, i: ItemId, status: ItemStatus): World
    requires i in w.items
  {
    w.(items := w.items[i := w.items[i].(status := status)])
  }

  /** SwapStorageObject, MarkItemDone and IncrementProgress, in one transaction. */
  function SwapStorage(w: World, i: ItemId, newObject: ObjectId): World
    requires i in w.items && w.items[i].task in w.tasks && w.items[i].obj in w.objects
  {
    var item := w.items[i];
    var task := w.tasks[item.task];
    w.(objects := w.objects[item.obj := w.objects[item.obj].(live := false)]
                           [newObject := StorageObject(item.target, item.size, true)],
       refs := map f | f in w.refs :: if w.refs[f] == item.obj then newObject else w.refs[f],
       items := w.items[i := item.(status := Done)],
       tasks := w.tasks[item.task :=
           task.(completed := task.completed + 1, transferred := task.transferred + item.size)])
  }

  predicate Unfinished(w: World, t: TaskId) {
    exists i <- w.items :: w.items[i].task == t && w.items[i].status in {Pending, Running}
  }

  /** AggregateTaskProgressIfFinal; it overwrites whatever status the task had. */
  function Aggregate(w: World, t: TaskId): World
    requires t in w.tasks
  {
    if Unfinished(w, t) then w
    else
      var failed := exists i <- w.items :: w.items[i].task == t && w.items[i].status == Failed;
      w.(tasks := w.tasks[t := w.tasks[t].(status := if failed then TaskFailed else TaskCompleted)])
  }

  function SkipAll(items: map<ItemId, Item>, t: TaskId): map<ItemId, Item> {
    map i | i in items :: if items[i].task == t && items[i].status == Pending then items[i].(status := Skipped)
        else items[i]
  }

  function Apply(w: World, a: Action): World
    requires Enabled(w, a)
  {
    match a
    case CreateTask(t, actor, target, plan) => w.(tasks :=
        w.tasks[t := Task(actor, target, plan, 0, TaskPending, 0, 0, 0, 0)])
    case AddItem(i, t, obj, key) =>
      w.(items := w.items[i :=
          Item(t, obj, w.objects[obj].loc, Loc(w.tasks[t].target, key), w.objects[obj].size, Pending)],
         tasks := w.tasks[t := w.tasks[t].(added := w.tasks[t].added + 1)],
         usedKeys := w.usedKeys + {key})
    case CancelTask(t) => w.(tasks := w.tasks[t := w.tasks[t].(status := TaskCanceled)])
    case SkipPending(t) => w.(items := SkipAll(w.items, t))
    case Hire(id) => MoveTo(w, id, Idle)
    case Claim(id, i) => MoveTo(SetStatus(w, i, Running), id, Claimed(i))
    case ReadTask(id, fault) =>
      var i := w.workers[id].item;
      MoveTo(w, id, if fault then Losing(i) else if w.tasks[w.items[i].task].IsTerminal() then Skipping(i)
          else Copying(i))
    case MarkLost(id, works) =>
      MoveTo(if works then SetStatus(w, w.workers[id].item, Failed) else w, id, Idle)
    case Copy(id, effect, reportsError) =>
      var i := w.workers[id].item;
      var w1 := if effect.None? then w else w.(store := w.store[w.items[i].target := effect.value]);
      MoveTo(w1, id, if reportsError then Failing(i) else Verifying(i))
    case Verify(id, reachable) =>
      var i := w.workers[id].item;
      var item := w.items[i];
      MoveTo(w, id, if reachable && item.target in w.store && w.store[item.target] == item.size then Swapping(i)
          else DroppingTarget(i))
    case Swap(id, newObject, commits) =>
      var i := w.workers[id].item;
      if commits then MoveTo(SwapStorage(w, i, newObject), id, DroppingSource(i)) else MoveTo(w, id, DroppingTarget(i))
    case DropTarget(id, removes) =>
      var i := w.workers[id].item;
      MoveTo(if removes then w.(store := w.store - {w.items[i].target}) else w, id, Failing(i))
    case DropSource(id, removes) =>
      var i := w.workers[id].item;
      MoveTo(if removes then w.(store := w.store - {w.items[i].source}) else w, id, Finishing(i))
    case MarkFailed(id, works) =>
      var i := w.workers[id].item;
      MoveTo(if works then SetStatus(w, i, Failed) else w, id, CountingFailure(i))
    case CountFailed(id, works) =>
      var i := w.workers[id].item;
      var t := w.items[i].task;
      MoveTo(if works then w.(tasks := w.tasks[t := w.tasks[t].(failed := w.tasks[t].failed + 1)])
          else w, id, Finishing(i))
    case MarkSkipped(id, works) =>
      var i := w.workers[id].item;
      MoveTo(if works then SetStatus(w, i, Skipped) else w, id, CountingSkip(i))
    case CountSkipped(id, works) =>
      var i := w.workers[id].item;
      var t := w.items[i].task;
      MoveTo(if works then w.(tasks := w.tasks[t := w.tasks[t].(skipped := w.tasks[t].skipped + 1)]) else w, id, Idle)
    case Finish(id, aggregates) =>
      MoveTo(if aggregates then Aggregate(w, w.items[w.workers[id].item].task) else w, id, Idle)
  }

  // ----- the invariant -----

  /** Every file reference resolves to stored bytes of the size recorded for the file. */
  predicate RefsResolve(objects: map<ObjectId, StorageObject>, refs: map<FileId, ObjectId>, sizes: map<FileId, nat>,
        store: map<Loc, nat>) {
    forall f <- refs ::
      && refs[f] in objects && objects[refs[f]].live
      && f in sizes && sizes[f] == objects[refs[f]].size
      && objects[refs[f]].loc in store && store[objects[refs[f]].loc] == sizes[f]
  }

  /** Rows lie at distinct places under keys that are already in use. */
  predicate ObjectsOk(objects: map<ObjectId, StorageObject>, usedKeys: set<Key>) {
    && (forall o <- objects :: objects[o].loc.key in usedKeys)
    && (forall o1 <- objects, o2 <- objects :: objects[o1].loc == objects[o2].loc ==> o1 == o2)
  }

  /** An item copies its row's bytes to a place of its own, which no row names until the item is done. */
  predicate ItemOk(item: Item, tasks: map<TaskId, Task>, objects: map<ObjectId, StorageObject>, usedKeys: set<Key>) {
    && item.task in tasks && item.target.key in usedKeys
    && item.obj in objects && item.source == objects[item.obj].loc && item.size == objects[item.obj].size
    && (item.status != Done ==> forall o <- objects :: objects[o].loc != item.target)
  }

  predicate ItemsOk(items: map<ItemId, Item>, tasks: map<TaskId, Task>, objects: map<ObjectId, StorageObject>,
        usedKeys: set<Key>) {
    && (forall i <- items :: ItemOk(items[i], tasks, objects, usedKeys))
    && (forall i <- items, j <- items :: items[i].target.key == items[j].target.key ==> i == j)
  }

  predicate Holding(pc: Pc) {
    pc.Claimed? || pc.Losing? || pc.Copying? || pc.Verifying? || pc.Swapping? || pc.DroppingTarget? || pc.Failing?
        || pc.Skipping?
  }

  predicate PcOk(pc: Pc, items: map<ItemId, Item>, objects: map<ObjectId, StorageObject>, store: map<Loc, nat>) {
    pc == Idle ||
    (&& pc.item in items
     && (Holding(pc) ==> items[pc.item].status == Running)
     && (pc.CountingFailure? || pc.CountingSkip? || pc.Finishing? ==> items[pc.item].status != Pending)
     && (pc.Swapping? ==> items[pc.item].target in store && store[items[pc.item].target] == items[pc.item].size)
     && (pc.DroppingSource? ==>
           items[pc.item].status == Done && items[pc.item].obj in objects && !objects[items[pc.item].obj].live))
  }

  /** Each item is with one worker at most, and each worker is where its item's state lets it be. */
  predicate WorkersOk(workers: map<WorkerId, Pc>, items: map<ItemId, Item>, objects: map<ObjectId, StorageObject>,
        store: map<Loc, nat>) {
    && (forall id <- workers :: PcOk(workers[id], items, objects, store))
    && (forall a <- workers, b <- workers ::
          workers[a] != Idle && workers[b] != Idle && workers[a].item == workers[b].item ==> a == b)
  }

  ghost function DoneOf(items: map<ItemId, Item>, t: TaskId): set<ItemId> {
    set i | i in items && items[i].task == t && items[i].status == Done
  }

  function Sizes(items: map<ItemId, Item>): map<ItemId, nat> {
    map i | i in items :: items[i].size
  }

  ghost function TotalSize(items: map<ItemId, Item>, s: set<ItemId>): nat
    requires s <= items.Keys
  {
    Total(Sizes(items), s)
  }

  /** The progress counters of a task say exactly what its done items are. */
  ghost predicate CountersOk(tasks: map<TaskId, Task>, items: map<ItemId, Item>) {
    forall t <- tasks ::
      tasks[t].completed == |DoneOf(items, t)| && tasks[t].transferred == TotalSize(items, DoneOf(items, t))
  }

  ghost predicate Inv(w: World) {
    && RefsResolve(w.objects, w.refs, w.sizes, w.store)
    && ObjectsOk(w.objects, w.usedKeys)
    && ItemsOk(w.items, w.tasks, w.objects, w.usedKeys)
    && WorkersOk(w.workers, w.items, w.objects, w.store)
    && CountersOk(w.tasks, w.items)
  }

  /** Before any task: files on distinct, present objects. */
  predicate Initial(w: World) {
    && RefsResolve(w.objects, w.refs, w.sizes, w.store)
    && ObjectsOk(w.objects, w.usedKeys)
    && w.tasks == map[] && w.items == map[] && w.workers == map[]
  }

  // ----- adding up sizes -----

  lemma {:induction false} TotalOfNewDone(items: map<ItemId, Item>, i: ItemId)
    requires i in items && items[i].status != Done
    ensures var items' := items[i := items[i].(status := Done)];
            forall t :: if t == items[i].task
              then |DoneOf(items', t)| == |DoneOf(items, t)| + 1 &&
                   TotalSize(items', DoneOf(items', t)) == TotalSize(items, DoneOf(items, t)) + items[i].size
              else DoneOf(items', t) == DoneOf(items, t) &&
                   TotalSize(items', DoneOf(items', t)) == TotalSize(items, DoneOf(items, t))
  {
    var items' := items[i := items[i].(status := Done)];
    forall t ensures if t == items[i].task
      then |DoneOf(items', t)| == |DoneOf(items, t)| + 1 &&
           TotalSize(items', DoneOf(items', t)) == TotalSize(items, DoneOf(items, t)) + items[i].size
      else DoneOf(items', t) == DoneOf(items, t) &&
           TotalSize(items', DoneOf(items', t)) == TotalSize(items, DoneOf(items, t))
    {
      var was, now := DoneOf(items, t), DoneOf(items', t);
      TotalSame(Sizes(items), Sizes(items'), was);
      if t == items[i].task {
        assert now == was + {i};
        assert now - {i} == was;
        TotalSplit(Sizes(items'), now, i);
      } else {
        assert now == was;
      }
    }
  }

  /** Changing which items are waiting, running, failed or skipped leaves the progress sums alone. */
  lemma SameDoneSameCounts(items: map<ItemId, Item>, items': map<ItemId, Item>)
    requires items.Keys <= items'.Keys
    requires forall i <- items :: items'[i].task == items[i].task && items'[i].size == items[i].size
    requires forall i <- items' :: items'[i].status == Done <==> (i in items && items[i].status == Done)
    ensures forall t ::
              DoneOf(items', t) == DoneOf(items, t) &&
              TotalSize(items', DoneOf(items', t)) == TotalSize(items, DoneOf(items, t))
  {
    forall t ensures DoneOf(items', t) == DoneOf(items, t)
        && TotalSize(items', DoneOf(items', t)) == TotalSize(items, DoneOf(items, t)) {
      assert DoneOf(items', t) == DoneOf(items, t);
      TotalSame(Sizes(items), Sizes(items'), DoneOf(items, t));
    }
  }

  // ----- every step keeps the invariant -----

  /** A worker that moves on with the item it holds. */
  lemma MoveKeeps(workers: map<WorkerId, Pc>, items: map<ItemId, Item>, objects: map<ObjectId, StorageObject>,
        store: map<Loc, nat>,
                  id: WorkerId, pc: Pc)
    requires WorkersOk(workers, items, objects, store)
    requires id in workers && PcOk(pc, items, objects, store)
    requires pc == Idle || (workers[id] != Idle && pc.item == workers[id].item)
    ensures WorkersOk(workers[id := pc], items, objects, store)
  {
    hide PcOk;
  }

  /** Writing or removing bytes where no live row and no other copy is. */
  lemma StoreKeeps(w: World, id: WorkerId, at: Loc, store': map<Loc, nat>, pc: Pc)
    requires Inv(w) && id in w.workers && w.workers[id] != Idle
    requires forall l :: l != at ==> (l in w.store <==> l in store') && (l in w.store ==> w.store[l] == store'[l])
    requires forall o <- w.objects :: w.objects[o].live ==> w.objects[o].loc != at
    requires forall other <- w.workers ::
             other != id && w.workers[other].Swapping? ==> w.items[w.workers[other].item].target != at
    requires PcOk(pc, w.items, w.objects, store') && pc != Idle && pc.item == w.workers[id].item
    ensures RefsResolve(w.objects, w.refs, w.sizes, store')
    ensures WorkersOk(w.workers[id := pc], w.items, w.objects, store')
  {
    hide ObjectsOk, ItemsOk, CountersOk;
  }

  /** The place an item copies to is its own until the item is done. */
  lemma TargetIsPrivate(w: World, id: WorkerId)
    requires Inv(w) && id in w.workers && Holding(w.workers[id])
    ensures var at := w.items[w.workers[id].item].target;
            && (forall o <- w.objects :: w.objects[o].loc != at)
            && forall other <- w.workers ::
                 other != id && w.workers[other].Swapping? ==> w.items[w.workers[other].item].target != at
  {
    hide CountersOk, RefsResolve, ObjectsOk;
  }

  lemma CopyKeepsInv(w: World, a: Action)
    requires Inv(w) && Enabled(w, a) && a.Copy?
    ensures Inv(Apply(w, a))
  {
    hide CountersOk, RefsResolve, ObjectsOk, ItemsOk;
    var i := w.workers[a.w].item;
    TargetIsPrivate(w, a.w);
    var w' := Apply(w, a);
    StoreKeeps(w, a.w, w.items[i].target, w'.store, w'.workers[a.w]);
  }

  lemma DropTargetKeepsInv(w: World, a: Action)
    requires Inv(w) && Enabled(w, a) && a.DropTarget?
    ensures Inv(Apply(w, a))
  {
    hide CountersOk, RefsResolve, ObjectsOk, ItemsOk;
    var i := w.workers[a.w].item;
    TargetIsPrivate(w, a.w);
    var w' := Apply(w, a);
    StoreKeeps(w, a.w, w.items[i].target, w'.store, w'.workers[a.w]);
  }

  /** The source goes only when its row is dead, and no live row and no pending copy lies there. */
  lemma DropSourceKeepsInv(w: World, a: Action)
    requires Inv(w) && Enabled(w, a) && a.DropSource?
    ensures Inv(Apply(w, a))
  {
    hide CountersOk, RefsResolve;
    var i := w.workers[a.w].item;
    var w' := Apply(w, a);
    assert ItemOk(w.items[i], w.tasks, w.objects, w.usedKeys);
    forall other | other in w.workers && w.workers[other].Swapping?
        ensures w.items[w.workers[other].item].target != w.items[i].source {
      assert PcOk(w.workers[other], w.items, w.objects, w.store);
    }
    StoreKeeps(w, a.w, w.items[i].source, w'.store, w'.workers[a.w]);
  }

  /** Items that only change between waiting, running, failed and skipped. */
  predicate SameButOpen(items: map<ItemId, Item>, items': map<ItemId, Item>) {
    items'.Keys == items.Keys &&
    forall i <- items :: items'[i] == items[i].(status := items'[i].status)
        && (items'[i].status == Done <==> items[i].status == Done)
  }

  lemma OpenChangeKeepsItems(w: World, items': map<ItemId, Item>)
    requires Inv(w) && SameButOpen(w.items, items')
    ensures ItemsOk(items', w.tasks, w.objects, w.usedKeys) && CountersOk(w.tasks, items')
  {
    hide RefsResolve, ObjectsOk, WorkersOk;
    assert CountersOk(w.tasks, items') by {
      SameDoneSameCounts(w.items, items');
      hide DoneOf, TotalSize, ItemsOk;
    }
    hide CountersOk;
    forall i | i in items' ensures ItemOk(items'[i], w.tasks, w.objects, w.usedKeys) {
      assert ItemOk(w.items[i], w.tasks, w.objects, w.usedKeys);
    }
    hide ItemOk;
  }

  /** A status change of one item is seen by its own worker only. */
  lemma StatusKeepsWorkers(workers: map<WorkerId, Pc>, items: map<ItemId, Item>, objects: map<ObjectId, StorageObject>,
                           store: map<Loc, nat>, id: WorkerId, i: ItemId, item: Item, pc: Pc)
    requires WorkersOk(workers, items, objects, store) && i in items && id in workers
    requires forall other <- workers :: other != id && workers[other] != Idle ==> workers[other].item != i
    requires pc != Idle && pc.item == i && PcOk(pc, items[i := item], objects, store)
    ensures WorkersOk(workers[id := pc], items[i := item], objects, store)
  {
  }

  /** Claiming an item, or closing one without copying it. */
  lemma StatusKeeps(w: World, id: WorkerId, i: ItemId, status: ItemStatus, pc: Pc)
    requires Inv(w) && id in w.workers && i in w.items && w.items[i].status != Done && status != Done
    requires forall other <- w.workers :: other != id && w.workers[other] != Idle ==> w.workers[other].item != i
    requires pc != Idle && pc.item == i && PcOk(pc, w.items[i := w.items[i].(status := status)], w.objects, w.store)
    ensures Inv(MoveTo(SetStatus(w, i, status), id, pc))
  {
    hide RefsResolve, ObjectsOk, CountersOk, ItemsOk, WorkersOk, PcOk;
    var item := w.items[i].(status := status);
    OpenChangeKeepsItems(w, w.items[i := item]);
    StatusKeepsWorkers(w.workers, w.items, w.objects, w.store, id, i, item, pc);
  }

  lemma ClaimKeepsInv(w: World, a: Action)
    requires Inv(w) && Enabled(w, a) && a.Claim?
    ensures Inv(Apply(w, a))
  {
    hide CountersOk, RefsResolve, ObjectsOk, ItemsOk;
    StatusKeeps(w, a.w, a.i, Running, Claimed(a.i));
  }

  lemma LostKeepsInv(w: World, a: Action)
    requires Inv(w) && Enabled(w, a) && a.MarkLost?
    ensures Inv(Apply(w, a))
  {
    hide CountersOk, RefsResolve, ObjectsOk, ItemsOk;
    var i := w.workers[a.w].item;
    var w1 := w;
    if a.works {
      StatusKeeps(w, a.w, i, Failed, Finishing(i));
      w1 := MoveTo(SetStatus(w, i, Failed), a.w, Finishing(i));
    }
    MoveKeeps(w1.workers, w1.items, w1.objects, w1.store, a.w, Idle);
    assert Apply(w, a).workers == w1.workers[a.w := Idle];
    hide WorkersOk;
  }

  lemma CloseKeepsInv(w: World, a: Action)
    requires Inv(w) && Enabled(w, a) && (a.MarkFailed? || a.MarkSkipped?)
    ensures Inv(Apply(w, a))
  {
    hide CountersOk, RefsResolve, ObjectsOk, ItemsOk;
    var i := w.workers[a.w].item;
    var pc := Apply(w, a).workers[a.w];
    if a.works {
      StatusKeeps(w, a.w, i, if a.MarkFailed? then Failed else Skipped, pc);
    } else {
      MoveKeeps(w.workers, w.items, w.objects, w.store, a.w, pc);
    }
  }

  /** Moving on without touching items, rows or bytes; tasks may change but not their done counters. */
  lemma TaskChangeKeeps(w: World, w': World, id: WorkerId)
    requires Inv(w) && id in w.workers && id in w'.workers
    requires w' == w.(tasks := w'.tasks, workers := w.workers[id := w'.workers[id]])
    requires w'.tasks.Keys == w.tasks.Keys
    requires forall t <- w.tasks ::
             w'.tasks[t].completed == w.tasks[t].completed && w'.tasks[t].transferred == w.tasks[t].transferred
    requires PcOk(w'.workers[id], w.items, w.objects, w.store)
    requires w'.workers[id] == Idle || (w.workers[id] != Idle && w'.workers[id].item == w.workers[id].item)
    ensures Inv(w')
  {
    hide RefsResolve, ObjectsOk, DoneOf, TotalSize, PcOk;
  }

  lemma MoveOnKeepsInv(w: World, a: Action)
    requires Inv(w) && Enabled(w, a)
    requires a.ReadTask? || a.Verify? || (a.Swap? && !a.commits)
    ensures Inv(Apply(w, a))
  {
    hide CountersOk, RefsResolve, ObjectsOk, ItemsOk;
    TaskChangeKeeps(w, Apply(w, a), a.w);
  }

  lemma CountKeepsInv(w: World, a: Action)
    requires Inv(w) && Enabled(w, a) && (a.CountFailed? || a.CountSkipped?)
    ensures Inv(Apply(w, a))
  {
    hide CountersOk, RefsResolve, ObjectsOk, ItemsOk;
    TaskChangeKeeps(w, Apply(w, a), a.w);
  }

  lemma FinishKeepsInv(w: World, a: Action)
    requires Inv(w) && Enabled(w, a) && a.Finish?
    ensures Inv(Apply(w, a))
  {
    hide CountersOk, RefsResolve, ObjectsOk, ItemsOk, Unfinished;
    TaskChangeKeeps(w, Apply(w, a), a.w);
  }

  lemma HireKeepsInv(w: World, a: Action)
    requires Inv(w) && Enabled(w, a) && a.Hire?
    ensures Inv(Apply(w, a))
  {
    hide CountersOk, RefsResolve, ObjectsOk, ItemsOk;
  }

  lemma CreateTaskKeepsInv(w: World, a: Action)
    requires Inv(w) && Enabled(w, a) && a.CreateTask?
    ensures Inv(Apply(w, a))
  {
    hide RefsResolve, ObjectsOk, WorkersOk;
    var w' := Apply(w, a);
    assert DoneOf(w.items, a.t) == {} && TotalSize(w.items, DoneOf(w.items, a.t)) == 0 by {
      hide CountersOk;
    }
    hide DoneOf, TotalSize;
    MoreTasksKeepItems(w.items, w.tasks, w'.tasks, w.objects, w.usedKeys);
    hide ItemsOk;
  }

  lemma MoreTasksKeepItems(items: map<ItemId, Item>, tasks: map<TaskId, Task>, tasks': map<TaskId, Task>,
                           objects: map<ObjectId, StorageObject>, usedKeys: set<Key>)
    requires ItemsOk(items, tasks, objects, usedKeys) && tasks.Keys <= tasks'.Keys
    ensures ItemsOk(items, tasks', objects, usedKeys)
  {
  }

  lemma CancelKeepsInv(w: World, a: Action)
    requires Inv(w) && Enabled(w, a) && a.CancelTask?
    ensures Inv(Apply(w, a))
  {
    hide RefsResolve, ObjectsOk, WorkersOk, DoneOf, TotalSize;
  }

  lemma NewItemKeepsItems(w: World, i: ItemId, item: Item)
    requires Inv(w) && i !in w.items && item.target.key !in w.usedKeys && item.status == Pending
    requires item.task in w.tasks && item.obj in w.objects
    requires item.source == w.objects[item.obj].loc && item.size == w.objects[item.obj].size
    ensures var usedKeys' := w.usedKeys + {item.target.key};
            && ObjectsOk(w.objects, usedKeys')
            && forall tasks': map<TaskId, Task> | tasks'.Keys == w.tasks.Keys ::
               ItemsOk(w.items[i := item], tasks', w.objects, usedKeys')
  {
    hide RefsResolve, WorkersOk, CountersOk;
  }

  lemma NewItemKeepsCounters(tasks: map<TaskId, Task>, items: map<ItemId, Item>, i: ItemId, item: Item, added: nat)
    requires CountersOk(tasks, items) && i !in items && item.status == Pending && item.task in tasks
    ensures CountersOk(tasks[item.task := tasks[item.task].(added := added)], items[i := item])
  {
    SameDoneSameCounts(items, items[i := item]);
    hide DoneOf, TotalSize;
  }

  lemma NewItemKeepsWorkers(workers: map<WorkerId, Pc>, items: map<ItemId, Item>, objects: map<ObjectId, StorageObject>,
                            store: map<Loc, nat>, i: ItemId, item: Item)
    requires WorkersOk(workers, items, objects, store) && i !in items
    ensures WorkersOk(workers, items[i := item], objects, store)
  {
  }

  lemma AddItemKeepsInv(w: World, a: Action)
    requires Inv(w) && Enabled(w, a) && a.AddItem?
    ensures Inv(Apply(w, a))
  {
    hide RefsResolve, ObjectsOk, CountersOk, ItemsOk, WorkersOk;
    var item := Apply(w, a).items[a.i];
    NewItemKeepsItems(w, a.i, item);
    NewItemKeepsCounters(w.tasks, w.items, a.i, item, w.tasks[a.t].added + 1);
    NewItemKeepsWorkers(w.workers, w.items, w.objects, w.store, a.i, item);
  }

  /** Nobody holds a waiting item. */
  lemma SkipKeepsWorkers(workers: map<WorkerId, Pc>, items: map<ItemId, Item>, objects: map<ObjectId, StorageObject>,
                         store: map<Loc, nat>, t: TaskId)
    requires WorkersOk(workers, items, objects, store)
    ensures WorkersOk(workers, SkipAll(items, t), objects, store)
  {
  }

  lemma SkipPendingKeepsInv(w: World, a: Action)
    requires Inv(w) && Enabled(w, a) && a.SkipPending?
    ensures Inv(Apply(w, a))
  {
    hide RefsResolve, ObjectsOk, CountersOk, ItemsOk, WorkersOk;
    OpenChangeKeepsItems(w, SkipAll(w.items, a.t));
    SkipKeepsWorkers(w.workers, w.items, w.objects, w.store, a.t);
  }

  /** References move from the old row to the new one, whose bytes are in place. */
  lemma SwapKeepsRefs(w: World, i: ItemId, newObject: ObjectId)
    requires Inv(w) && i in w.items && w.items[i].status == Running && newObject !in w.objects
    requires w.items[i].task in w.tasks && w.items[i].obj in w.objects
    requires w.items[i].target in w.store && w.store[w.items[i].target] == w.items[i].size
    ensures var w' := SwapStorage(w, i, newObject);
            RefsResolve(w'.objects, w'.refs, w'.sizes, w'.store) && ObjectsOk(w'.objects, w'.usedKeys)
  {
    hide WorkersOk, CountersOk;
    assert ItemOk(w.items[i], w.tasks, w.objects, w.usedKeys);
    hide ItemsOk;
  }

  lemma SwapKeepsCounters(w: World, i: ItemId, newObject: ObjectId)
    requires Inv(w) && i in w.items && w.items[i].status == Running
    requires w.items[i].task in w.tasks && w.items[i].obj in w.objects
    ensures var w' := SwapStorage(w, i, newObject); CountersOk(w'.tasks, w'.items)
  {
    TotalOfNewDone(w.items, i);
    hide RefsResolve, ObjectsOk, ItemsOk, WorkersOk, DoneOf, TotalSize;
  }

  lemma SwapKeepsItems(w: World, i: ItemId, newObject: ObjectId)
    requires Inv(w) && i in w.items && w.items[i].status == Running && newObject !in w.objects
    requires w.items[i].task in w.tasks && w.items[i].obj in w.objects
    ensures var w' := SwapStorage(w, i, newObject); ItemsOk(w'.items, w'.tasks, w'.objects, w'.usedKeys)
  {
    hide RefsResolve, ObjectsOk, WorkersOk, CountersOk;
    var w' := SwapStorage(w, i, newObject);
    forall j | j in w'.items ensures ItemOk(w'.items[j], w'.tasks, w'.objects, w'.usedKeys) {
      assert ItemOk(w.items[j], w.tasks, w.objects, w.usedKeys);
    }
  }

  lemma SwapKeepsWorkers(w: World, id: WorkerId, newObject: ObjectId)
    requires Inv(w) && At(w, id) && w.workers[id].Swapping? && newObject !in w.objects
    ensures var i := w.workers[id].item;
            var w' := SwapStorage(w, i, newObject);
            WorkersOk(w.workers[id := DroppingSource(i)], w'.items, w'.objects, w'.store)
  {
    hide RefsResolve, ObjectsOk, ItemsOk, CountersOk;
  }

  lemma SwapKeepsInv(w: World, a: Action)
    requires Inv(w) && Enabled(w, a) && a.Swap? && a.commits
    ensures Inv(Apply(w, a))
  {
    var i := w.workers[a.w].item;
    assert PcOk(w.workers[a.w], w.items, w.objects, w.store);
    hide RefsResolve, ObjectsOk, CountersOk, ItemsOk, WorkersOk;
    SwapKeepsRefs(w, i, a.newObject);
    SwapKeepsCounters(w, i, a.newObject);
    SwapKeepsItems(w, i, a.newObject);
    SwapKeepsWorkers(w, a.w, a.newObject);
  }

  lemma StepKeepsInv(w: World, a: Action)
    requires Inv(w) && Enabled(w, a)
    ensures Inv(Apply(w, a))
  {
    hide Inv, Apply;
    match a
    case CreateTask(_, _, _, _) => CreateTaskKeepsInv(w, a);
    case AddItem(_, _, _, _) => AddItemKeepsInv(w, a);
    case CancelTask(_) => CancelKeepsInv(w, a);
    case SkipPending(_) => SkipPendingKeepsInv(w, a);
    case Hire(_) => HireKeepsInv(w, a);
    case Claim(_, _) => ClaimKeepsInv(w, a);
    case ReadTask(_, _) => MoveOnKeepsInv(w, a);
    case MarkLost(_, _) => LostKeepsInv(w, a);
    case Copy(_, _, _) => CopyKeepsInv(w, a);
    case Verify(_, _) => MoveOnKeepsInv(w, a);
    case Swap(_, _, commits) => if commits { SwapKeepsInv(w, a); } else { MoveOnKeepsInv(w, a); }
    case DropTarget(_, _) => DropTargetKeepsInv(w, a);
    case DropSource(_, _) => DropSourceKeepsInv(w, a);
    case MarkFailed(_, _) => CloseKeepsInv(w, a);
    case CountFailed(_, _) => CountKeepsInv(w, a);
    case MarkSkipped(_, _) => CloseKeepsInv(w, a);
    case CountSkipped(_, _) => CountKeepsInv(w, a);
    case Finish(_, _) => FinishKeepsInv(w, a);
  }

  // ----- what no step takes back -----

  /** Files keep their sizes; tasks, rows and items stay, and a done item stays done. */
  predicate Later(w: World, w': World) {
    && w'.refs.Keys == w.refs.Keys && w'.sizes == w.sizes
    && (forall t <- w.tasks :: t in w'.tasks && w'.tasks[t].plan == w.tasks[t].plan)
    && (forall o <- w.objects :: o in w'.objects && w'.objects[o] == w.objects[o].(live := w'.objects[o].live))
    && (forall i <- w.items :: i in w'.items && w'.items[i] == w.items[i].(status := w'.items[i].status))
    && (forall i <- w.items :: w.items[i].status == Done ==> w'.items[i].status == Done)
  }

  predicate SamePlanned(w: World, w': World) {
    && w'.items.Keys == w.items.Keys && w'.tasks.Keys == w.tasks.Keys
    && forall t <- w.tasks :: w'.tasks[t].plan == w.tasks[t].plan && w'.tasks[t].added == w.tasks[t].added
  }

  /** Only Enqueue adds tasks and items. */
  predicate Frame(w: World, a: Action, w': World) {
    Later(w, w') && (a.CreateTask? || a.AddItem? || SamePlanned(w, w'))
  }

  predicate Steady(w: World, w': World) {
    Later(w, w') && SamePlanned(w, w')
  }

  lemma WorkersFrame(w: World, store: map<Loc, nat>, workers: map<WorkerId, Pc>)
    ensures Steady(w, w.(store := store, workers := workers))
  {
  }

  lemma StatusFrame(w: World, i: ItemId, status: ItemStatus, workers: map<WorkerId, Pc>)
    requires i in w.items && w.items[i].status != Done
    ensures Steady(w, SetStatus(w, i, status).(workers := workers))
  {
  }

  lemma TaskFrame(w: World, tasks: map<TaskId, Task>, workers: map<WorkerId, Pc>)
    requires tasks.Keys == w.tasks.Keys
    requires forall t <- w.tasks :: tasks[t].plan == w.tasks[t].plan && tasks[t].added == w.tasks[t].added
    ensures Steady(w, w.(tasks := tasks, workers := workers))
  {
  }

  lemma SwapFrame(w: World, i: ItemId, newObject: ObjectId, workers: map<WorkerId, Pc>)
    requires i in w.items && w.items[i].task in w.tasks && w.items[i].obj in w.objects && newObject !in w.objects
    ensures Steady(w, SwapStorage(w, i, newObject).(workers := workers))
  {
  }

  lemma SkipFrame(w: World, t: TaskId)
    ensures Steady(w, w.(items := SkipAll(w.items, t)))
  {
  }

  lemma EnqueueFrame(w: World, a: Action)
    requires Enabled(w, a) && (a.CreateTask? || a.AddItem?)
    ensures Later(w, Apply(w, a))
  {
  }

  lemma PlainFrame(w: World, a: Action)
    requires Enabled(w, a) && (a.Hire? || a.ReadTask? || a.Copy? || a.Verify? || a.DropTarget? || a.DropSource?)
    ensures Steady(w, Apply(w, a))
  {
    hide Steady;
    WorkersFrame(w, Apply(w, a).store, Apply(w, a).workers);
  }

  lemma ClaimFrame(w: World, a: Action)
    requires Enabled(w, a) && a.Claim?
    ensures Steady(w, Apply(w, a))
  {
    hide Steady;
    StatusFrame(w, a.i, Running, Apply(w, a).workers);
  }

  lemma MarkFrame(w: World, a: Action)
    requires Enabled(w, a) && (a.MarkLost? || a.MarkFailed? || a.MarkSkipped?)
    requires PcOk(w.workers[a.w], w.items, w.objects, w.store)
    ensures Steady(w, Apply(w, a))
  {
    hide Steady;
    var i := w.workers[a.w].item;
    StatusFrame(w, i, if a.MarkSkipped? then Skipped else Failed, Apply(w, a).workers);
    WorkersFrame(w, w.store, Apply(w, a).workers);
  }

  lemma SwapStepFrame(w: World, a: Action)
    requires Enabled(w, a) && a.Swap?
    ensures Steady(w, Apply(w, a))
  {
    hide Steady, SwapStorage;
    SwapFrame(w, w.workers[a.w].item, a.newObject, Apply(w, a).workers);
    WorkersFrame(w, w.store, Apply(w, a).workers);
  }

  lemma CountFrame(w: World, a: Action)
    requires Enabled(w, a) && (a.CountFailed? || a.CountSkipped? || a.CancelTask?)
    ensures Steady(w, Apply(w, a))
  {
    hide Steady;
    TaskFrame(w, Apply(w, a).tasks, Apply(w, a).workers);
  }

  lemma FinishFrame(w: World, a: Action)
    requires Enabled(w, a) && a.Finish?
    ensures Steady(w, Apply(w, a))
  {
    hide Steady, Unfinished;
    TaskFrame(w, Apply(w, a).tasks, Apply(w, a).workers);
  }

  lemma HolderIsOk(w: World, id: WorkerId)
    requires Inv(w) && id in w.workers
    ensures PcOk(w.workers[id], w.items, w.objects, w.store)
  {
    hide RefsResolve, ObjectsOk, CountersOk, ItemsOk, PcOk;
  }

  lemma MarkedFrame(w: World, a: Action)
    requires Inv(w) && Enabled(w, a) && (a.MarkLost? || a.MarkFailed? || a.MarkSkipped?)
    ensures Steady(w, Apply(w, a))
  {
    hide Inv, Apply, Steady;
    HolderIsOk(w, a.w);
    MarkFrame(w, a);
  }

  lemma StepFrame(w: World, a: Action)
    requires Inv(w) && Enabled(w, a)
    ensures Frame(w, a, Apply(w, a))
  {
    if a.CreateTask? || a.AddItem? {
      hide Inv, Apply, Later, SamePlanned;
      EnqueueFrame(w, a);
    } else {
      SteadyFrame(w, a);
      hide Inv, Apply, Enabled, Later, SamePlanned;
    }
  }

  lemma SteadyFrame(w: World, a: Action)
    requires Inv(w) && Enabled(w, a) && !a.CreateTask? && !a.AddItem?
    ensures Steady(w, Apply(w, a))
  {
    if a.SkipPending? {
      SkipFrame(w, a.t);
    }
    hide Inv, Steady, Enabled;
    if a.CountFailed? || a.CountSkipped? || a.CancelTask? {
      CountFrame(w, a);
    } else if a.Finish? {
      FinishFrame(w, a);
    } else if a.Swap? {
      SwapStepFrame(w, a);
    } else if a.Claim? {
      ClaimFrame(w, a);
    } else if a.MarkLost? || a.MarkFailed? || a.MarkSkipped? {
      MarkedFrame(w, a);
    } else if !a.SkipPending? {
      PlainFrame(w, a);
    }
  }

  // ----- whole runs -----

  predicate RunEnabled(w: World, run: seq<Action>)
    decreases |run|
  {
    run == [] || (Enabled(w, run[0]) && RunEnabled(Apply(w, run[0]), run[1..]))
  }

  function Run(w: World, run: seq<Action>): World
    requires RunEnabled(w, run)
    decreases |run|
  {
    if run == [] then w else Run(Apply(w, run[0]), run[1..])
  }

  lemma {:induction false} RunKeepsInv(w: World, run: seq<Action>)
    requires Inv(w) && RunEnabled(w, run)
    ensures Inv(Run(w, run))
    decreases |run|
  {
    hide Inv, Enabled, Apply;
    if run != [] {
      StepKeepsInv(w, run[0]);
      RunKeepsInv(Apply(w, run[0]), run[1..]);
    }
  }

  // ----- what others do meanwhile -----

  /** The action is a step of this worker. */
  predicate IsWorkOf(a: Action, id: WorkerId) {
    match a
    case CreateTask(_, _, _, _) => false
    case AddItem(_, _, _, _) => false
    case CancelTask(_) => false
    case SkipPending(_) => false
    case _ => a.w == id
  }

  predicate OfOthers(run: seq<Action>, id: WorkerId) {
    forall i | 0 <= i < |run| :: !IsWorkOf(run[i], id)
  }

  /** No item is added to the task. */
  predicate Beside(run: seq<Action>, t: TaskId) {
    forall i | 0 <= i < |run| :: run[i].AddItem? ==> run[i].t != t
  }

  lemma LaterItself(w: World)
    ensures Later(w, w)
  {
  }

  lemma LaterTransitive(a: World, b: World, c: World)
    requires Later(a, b) && Later(b, c)
    ensures Later(a, c)
  {
  }

  lemma OthersStepKeeps(w: World, a: Action, id: WorkerId)
    requires Enabled(w, a) && id in w.workers && !IsWorkOf(a, id)
    ensures id in Apply(w, a).workers && Apply(w, a).workers[id] == w.workers[id]
  {
    hide Unfinished, SkipAll;
  }

  lemma StepBesideKeeps(w: World, a: Action, t: TaskId)
    requires Inv(w) && Enabled(w, a) && t in w.tasks && (a.AddItem? ==> a.t != t)
    ensures t in Apply(w, a).tasks && Apply(w, a).tasks[t].added == w.tasks[t].added
  {
    if !a.CreateTask? && !a.AddItem? {
      SteadyFrame(w, a);
      hide Inv, Apply, Enabled, Later;
    } else {
      hide Inv;
    }
  }

  /** Whatever others do, and however long: this worker stays where it is, and nothing is taken back. */
  lemma {:induction false} RunOfOthers(w: World, run: seq<Action>, id: WorkerId)
    requires Inv(w) && RunEnabled(w, run) && OfOthers(run, id) && id in w.workers
    ensures Inv(Run(w, run)) && Later(w, Run(w, run))
    ensures id in Run(w, run).workers && Run(w, run).workers[id] == w.workers[id]
    decreases |run|
  {
    hide Inv, Enabled, Apply, Later, SamePlanned, IsWorkOf;
    if run == [] {
      LaterItself(w);
    } else {
      var w1 := Apply(w, run[0]);
      StepKeepsInv(w, run[0]);
      StepFrame(w, run[0]);
      OthersStepKeeps(w, run[0], id);
      RunOfOthers(w1, run[1..], id);
      LaterTransitive(w, w1, Run(w1, run[1..]));
    }
  }

  /** Whatever others do, the task that one request fills has the items that request gave it. */
  lemma {:induction false} RunBeside(w: World, run: seq<Action>, t: TaskId)
    requires Inv(w) && RunEnabled(w, run) && Beside(run, t) && t in w.tasks
    ensures Inv(Run(w, run)) && Later(w, Run(w, run))
    ensures t in Run(w, run).tasks && Run(w, run).tasks[t].added == w.tasks[t].added
    decreases |run|
  {
    hide Inv, Enabled, Apply, Later, SamePlanned;
    if run == [] {
      LaterItself(w);
    } else {
      var w1 := Apply(w, run[0]);
      StepKeepsInv(w, run[0]);
      StepFrame(w, run[0]);
      StepBesideKeeps(w, run[0], t);
      RunBeside(w1, run[1..], t);
      LaterTransitive(w, w1, Run(w1, run[1..]));
    }
  }

  /** The bytes stored at a place. */
  function Bytes(w: World, at: Loc): Option<nat> {
    if at in w.store then Some(w.store[at]) else None
  }

  lemma {:induction false} RunKeepsFiles(w: World, run: seq<Action>)
    requires Inv(w) && RunEnabled(w, run)
    ensures Run(w, run).refs.Keys == w.refs.Keys && Run(w, run).sizes == w.sizes
    decreases |run|
  {
    hide Inv, Enabled, Apply;
    if run != [] {
      StepKeepsInv(w, run[0]);
      StepFrame(w, run[0]);
      RunKeepsFiles(Apply(w, run[0]), run[1..]);
    }
  }

  /** Whatever workers, cancellations and failures there were, every file can be read in full. */
  lemma FilesStayReadable(w: World, run: seq<Action>)
    requires Initial(w) && RunEnabled(w, run)
    ensures var w' := Run(w, run);
            forall f <- w.refs ::
              && f in w'.refs && w'.refs[f] in w'.objects
              && f in w.sizes && Some(w.sizes[f]) == Bytes(w', w'.objects[w'.refs[f]].loc)
  {
    assert Inv(w);
    RunKeepsInv(w, run);
    RunKeepsFiles(w, run);
    hide WorkersOk, ItemsOk, CountersOk, ObjectsOk;
  }

  /** The progress counters of every task are exact after any run. */
  lemma CountersAreExact(w: World, run: seq<Action>)
    requires Initial(w) && RunEnabled(w, run)
    ensures var w' := Run(w, run);
            forall t <- w'.tasks ::
              && w'.tasks[t].completed == |DoneOf(w'.items, t)|
              && w'.tasks[t].transferred == TotalSize(w'.items, DoneOf(w'.items, t))
  {
    assert Inv(w);
    RunKeepsInv(w, run);
    hide RefsResolve, WorkersOk, ItemsOk, ObjectsOk, DoneOf, TotalSize;
  }

  // ----- progress against the announced totals -----

  function Sum(sizes: seq<nat>): nat {
    if sizes == [] then 0 else Sum(sizes[..|sizes| - 1]) + sizes[|sizes| - 1]
  }

  ghost function ItemsOf(items: map<ItemId, Item>, t: TaskId): set<ItemId> {
    set i | i in items && items[i].task == t
  }

  /** The items of a task are as many, and add up to as much, as the part of the plan added so far. */
  ghost predicate PlanOk(task: Task, items: map<ItemId, Item>, t: TaskId) {
    && task.added <= |task.plan|
    && |ItemsOf(items, t)| == task.added
    && TotalSize(items, ItemsOf(items, t)) == Sum(task.plan[..task.added])
  }

  ghost predicate PlansOk(w: World) {
    && (forall t <- w.tasks :: PlanOk(w.tasks[t], w.items, t))
    && (forall i <- w.items :: w.items[i].task in w.tasks)
  }

  lemma SamePlanHere(task: Task, task': Task, items: map<ItemId, Item>, items': map<ItemId, Item>, t: TaskId)
    requires PlanOk(task, items, t) && task'.plan == task.plan && task'.added == task.added && items'.Keys == items.Keys
    requires forall i <- items :: items'[i] == items[i].(status := items'[i].status)
    ensures PlanOk(task', items', t)
  {
    assert ItemsOf(items', t) == ItemsOf(items, t);
    TotalSame(Sizes(items), Sizes(items'), ItemsOf(items, t));
  }

  lemma SamePlan(w: World, w': World)
    requires PlansOk(w) && Later(w, w') && SamePlanned(w, w')
    ensures PlansOk(w')
  {
    hide PlanOk;
    forall t | t in w'.tasks ensures PlanOk(w'.tasks[t], w'.items, t) {
      SamePlanHere(w.tasks[t], w'.tasks[t], w.items, w'.items, t);
    }
    assert forall i <- w'.items :: i in w.items && w'.items[i].task == w.items[i].task;
  }

  lemma NewItemCounts(items: map<ItemId, Item>, i: ItemId, item: Item)
    requires i !in items
    ensures var (items', t) := (items[i := item], item.task);
            && |ItemsOf(items', t)| == |ItemsOf(items, t)| + 1
            && TotalSize(items', ItemsOf(items', t)) == TotalSize(items, ItemsOf(items, t)) + item.size
  {
    var (items', t) := (items[i := item], item.task);
    var (was, now) := (ItemsOf(items, t), ItemsOf(items', t));
    assert now == was + {i} && now - {i} == was && i !in was;
    assert forall k <- was :: Sizes(items')[k] == Sizes(items)[k];
    hide ItemsOf, Total;
    TotalSame(Sizes(items), Sizes(items'), was);
    TotalSplit(Sizes(items'), now, i);
  }

  lemma NewItemInPlan(task: Task, items: map<ItemId, Item>, t: TaskId, i: ItemId, item: Item)
    requires PlanOk(task, items, t) && i !in items && item.task == t
    requires task.added < |task.plan| && task.plan[task.added] == item.size
    ensures PlanOk(task.(added := task.added + 1), items[i := item], t)
  {
    NewItemCounts(items, i, item);
    var n := task.added;
    assert task.plan[..n + 1][..n] == task.plan[..n];
    hide ItemsOf, TotalSize;
  }

  lemma NewItemElsewhere(task: Task, items: map<ItemId, Item>, t: TaskId, i: ItemId, item: Item)
    requires PlanOk(task, items, t) && i !in items && item.task != t
    ensures PlanOk(task, items[i := item], t)
  {
    TotalSame(Sizes(items), Sizes(items[i := item]), ItemsOf(items, t));
    assert ItemsOf(items[i := item], t) == ItemsOf(items, t);
  }

  lemma AddItemKeepsPlans(w: World, a: Action)
    requires PlansOk(w) && Enabled(w, a) && a.AddItem?
    ensures PlansOk(Apply(w, a))
  {
    var w' := Apply(w, a);
    var item := w'.items[a.i];
    assert item.task == a.t && item.size == w.tasks[a.t].plan[w.tasks[a.t].added];
    assert w'.items == w.items[a.i := item];
    forall t | t in w'.tasks ensures PlanOk(w'.tasks[t], w'.items, t) {
      hide PlanOk;
      if t == a.t {
        NewItemInPlan(w.tasks[t], w.items, t, a.i, item);
      } else {
        NewItemElsewhere(w.tasks[t], w.items, t, a.i, item);
      }
    }
  }

  lemma CreateTaskKeepsPlans(w: World, a: Action)
    requires PlansOk(w) && Enabled(w, a) && a.CreateTask?
    ensures PlansOk(Apply(w, a))
  {
    assert ItemsOf(w.items, a.t) == {};
    var w' := Apply(w, a);
    forall t | t in w'.tasks ensures PlanOk(w'.tasks[t], w'.items, t) {
      assert t in w.tasks ==> PlanOk(w.tasks[t], w.items, t);
    }
  }

  lemma StepKeepsPlans(w: World, a: Action)
    requires Inv(w) && PlansOk(w) && Enabled(w, a)
    ensures PlansOk(Apply(w, a))
  {
    hide Inv, Apply, PlansOk, Enabled, Later, SamePlanned;
    if a.AddItem? {
      AddItemKeepsPlans(w, a);
    } else if a.CreateTask? {
      CreateTaskKeepsPlans(w, a);
    } else {
      StepFrame(w, a);
      SamePlan(w, Apply(w, a));
    }
  }

  lemma {:induction false} RunKeepsPlans(w: World, run: seq<Action>)
    requires Inv(w) && PlansOk(w) && RunEnabled(w, run)
    ensures PlansOk(Run(w, run))
    decreases |run|
  {
    hide Inv, Enabled, Apply, PlansOk;
    if run != [] {
      StepKeepsInv(w, run[0]);
      StepKeepsPlans(w, run[0]);
      RunKeepsPlans(Apply(w, run[0]), run[1..]);
    }
  }

  lemma {:induction false} SumOfPrefix(sizes: seq<nat>, n: nat)
    requires n <= |sizes|
    ensures Sum(sizes[..n]) <= Sum(sizes)
    decreases |sizes| - n
  {
    if n < |sizes| {
      assert sizes[..n + 1][..n] == sizes[..n];
      SumOfPrefix(sizes, n + 1);
    } else {
      assert sizes[..n] == sizes;
    }
  }

  /** Progress never runs past what Enqueue announced, and a task with all its objects completed has
      transferred exactly the announced bytes. */
  lemma ProgressStaysInPlan(w: World, run: seq<Action>, t: TaskId)
    requires Initial(w) && RunEnabled(w, run) && t in Run(w, run).tasks
    ensures var task := Run(w, run).tasks[t];
            && task.completed <= |task.plan| && task.transferred <= Sum(task.plan)
            && (task.completed == |task.plan| ==> task.transferred == Sum(task.plan))
  {
    var w' := Run(w, run);
    assert Inv(w) && PlansOk(w);
    RunKeepsPlans(w, run);
    CountersAreExact(w, run);
    var task := w'.tasks[t];
    assert PlanOk(task, w'.items, t);
    TotalOfPart(Sizes(w'.items), DoneOf(w'.items, t), ItemsOf(w'.items, t));
    SumOfPrefix(task.plan, task.added);
    assert task.added == |task.plan| ==> task.plan[..task.added] == task.plan;
  }
}
