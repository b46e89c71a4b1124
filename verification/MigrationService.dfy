/** Enqueue, Cancel and the worker as the code runs them: one statement after another, with any steps
    of other workers and requests in between. Every statement that touches the database or an object
    store is one step of Migration, so what is proved there about all runs applies here. */
module MigrationService {
  import opened Fresh
  import opened GoInt
  import opened Wrappers
  import opened Migration

  /** Where one action may leave the worker that takes it. */
  predicate Moves(a: Action, pc: Pc, pc': Pc) {
    match a
    case Claim(_, i) => pc' == Claimed(i)
    case ReadTask(_, fault) =>
      pc.Claimed? && if fault then pc' == Losing(pc.item) else pc' in {Skipping(pc.item), Copying(pc.item)}
    case MarkLost(_, _) => pc' == Idle
    case Copy(_, _, reportsError) => pc.Copying? && pc' == if reportsError then Failing(pc.item) else Verifying(pc.item)
    case Verify(_, reachable) =>
      pc.Verifying? && pc' in {Swapping(pc.item), DroppingTarget(pc.item)} && (pc'.Swapping? ==> reachable)
    case Swap(_, _, commits) => pc.Swapping? && pc' == if commits then DroppingSource(pc.item)
        else DroppingTarget(pc.item)
    case DropTarget(_, _) => pc.DroppingTarget? && pc' == Failing(pc.item)
    case DropSource(_, _) => pc.DroppingSource? && pc' == Finishing(pc.item)
    case MarkFailed(_, _) => pc.Failing? && pc' == CountingFailure(pc.item)
    case CountFailed(_, _) => pc.CountingFailure? && pc' == Finishing(pc.item)
    case MarkSkipped(_, _) => pc.Skipping? && pc' == CountingSkip(pc.item)
    case CountSkipped(_, _) => pc' == Idle
    case Finish(_, _) => pc' == Idle
    case _ => false
  }

  predicate ByWorker(a: Action) {
    !a.CreateTask? && !a.AddItem? && !a.CancelTask? && !a.SkipPending? && !a.Hire?
  }

  lemma WorkMovesOn(w: World, a: Action)
    requires ByWorker(a) && Enabled(w, a) && (a.Claim? || a.ReadTask? || a.Copy? || a.Verify? || a.Swap?)
    ensures a.w in w.workers && a.w in Apply(w, a).workers && Moves(a, w.workers[a.w], Apply(w, a).workers[a.w])
  {
  }

  lemma StepMovesOn(w: World, a: Action)
    requires ByWorker(a) && Enabled(w, a)
    ensures a.w in w.workers && a.w in Apply(w, a).workers && Moves(a, w.workers[a.w], Apply(w, a).workers[a.w])
  {
    if a.Claim? || a.ReadTask? || a.Copy? || a.Verify? || a.Swap? {
      WorkMovesOn(w, a);
    } else {
      hide Unfinished;
    }
  }

  /** A worker that holds an item knows its task and its row. */
  lemma HolderIsAt(w: World, id: WorkerId)
    requires Inv(w) && id in w.workers && w.workers[id] != Idle
    ensures At(w, id)
  {
    hide RefsResolve, ObjectsOk, CountersOk;
    assert PcOk(w.workers[id], w.items, w.objects, w.store);
    assert ItemOk(w.items[w.workers[id].item], w.tasks, w.objects, w.usedKeys);
  }

  function SizesOf(objects: map<ObjectId, StorageObject>, refs: seq<ObjectId>): (sizes: seq<nat>)
    requires forall o <- refs :: o in objects
    ensures |sizes| == |refs|
  {
    seq(|refs|, k requires 0 <= k < |refs| => objects[refs[k]].size)
  }

  /** The running int64 total of Enqueue. */
  method TotalBytes(objects: map<ObjectId, StorageObject>, refs: seq<ObjectId>) returns (total: int)
    requires forall o <- refs :: o in objects
    ensures total == Wrap64(Sum(SizesOf(objects, refs)))
  {
    total := 0;
    var sizes := SizesOf(objects, refs);
    for n := 0 to |refs|
      invariant total == Wrap64(Sum(sizes[..n]))
    {
      assert sizes[..n + 1][..n] == sizes[..n];
      WrapOnce(Sum(sizes[..n]), sizes[n]);
      total := Wrap64(total + objects[refs[n]].size);
    }
    assert sizes[..|refs|] == sizes;
  }

  lemma CancelTaskCloses(w: World, t: TaskId)
    requires t in w.tasks
    ensures var w' := Apply(w, CancelTask(t));
            && t in w'.tasks && w'.tasks[t] == w.tasks[t].(status := TaskCanceled) && w'.items == w.items
  {
  }

  datatype CancelError = Refused | UpdateFailed

  datatype Processed = NothingToDo | Moved | SkippedItem | FailedItem

  /** The item is done. */
  predicate IsMoved(w: World, i: ItemId) {
    i in w.items && w.items[i].status == Done
  }

  ghost predicate StaysMoved(w: World, w': World) {
    forall i :: IsMoved(w, i) ==> IsMoved(w', i)
  }

  lemma LaterKeepsMoved(w: World, w': World)
    requires Later(w, w')
    ensures StaysMoved(w, w')
  {
  }

  lemma MovedFromStart(start: World, w: World, w': World)
    requires StaysMoved(start, w) && StaysMoved(w, w')
    ensures StaysMoved(start, w')
  {
    hide IsMoved;
  }

  lemma DroppingSourceIsMoved(w: World, id: WorkerId)
    requires Inv(w) && id in w.workers && w.workers[id].DroppingSource?
    ensures IsMoved(w, w.workers[id].item)
  {
    hide RefsResolve, ObjectsOk, CountersOk, ItemsOk;
  }

  /** Steps whose guard is only where the worker is. */
  predicate AnyTime(a: Action, pc: Pc) {
    match a
    case ReadTask(_, _) => pc.Claimed?
    case MarkLost(_, _) => pc.Losing?
    case Verify(_, _) => pc.Verifying?
    case DropTarget(_, _) => pc.DroppingTarget?
    case DropSource(_, _) => pc.DroppingSource?
    case MarkFailed(_, _) => pc.Failing?
    case CountFailed(_, _) => pc.CountingFailure?
    case MarkSkipped(_, _) => pc.Skipping?
    case CountSkipped(_, _) => pc.CountingSkip?
    case Finish(_, _) => pc.Finishing?
    case _ => false
  }

  lemma AnyTimeIsEnabled(w: World, a: Action)
    requires Inv(w) && ByWorker(a) && a.w in w.workers && AnyTime(a, w.workers[a.w])
    ensures Enabled(w, a)
  {
    HolderIsAt(w, a.w);
    hide Inv, At;
  }

  class MigrationUseCase {
    /** The tables and object stores. */
    var world: World

    constructor (w: World)
      requires Initial(w)
      ensures world == w && Inv(world)
    {
      world := w;
    }

    /** Any number of steps of other workers and requests. Callers rely on this contract alone. */
    method OthersRun(id: WorkerId)
      requires Inv(world) && id in world.workers
      modifies this
      ensures Inv(world) && StaysMoved(old(world), world)
      ensures id in world.workers && world.workers[id] == old(world.workers[id])
    {
      hide Inv, Later, Run, RunEnabled, OfOthers, StaysMoved;
      var run: seq<Action> := *;
      if RunEnabled(world, run) && OfOthers(run, id) {
        RunOfOthers(world, run, id);
        LaterKeepsMoved(world, Run(world, run));
        world := Run(world, run);
      } else {
        LaterItself(world);
        LaterKeepsMoved(world, world);
      }
    }

    /** One atomic step of this worker. */
    method Do(id: WorkerId, a: Action) returns (pc: Pc)
      requires Inv(world) && ByWorker(a) && a.w == id && Enabled(world, a)
      modifies this
      ensures Inv(world) && world == Apply(old(world), a) && StaysMoved(old(world), world)
      ensures id in world.workers && world.workers[id] == pc && Moves(a, old(world.workers[id]), pc)
    {
      hide Inv, Enabled, Apply, Moves, Later, SamePlanned, ByWorker;
      StepKeepsInv(world, a);
      StepFrame(world, a);
      LaterKeepsMoved(world, Apply(world, a));
      StepMovesOn(world, a);
      hide StaysMoved;
      world := Apply(world, a);
      pc := world.workers[id];
    }

    /** A step of this worker after any steps of others. */
    method Next(id: WorkerId, a: Action) returns (pc: Pc)
      requires Inv(world) && ByWorker(a) && a.w == id && id in world.workers && AnyTime(a, world.workers[id])
      modifies this
      ensures Inv(world) && StaysMoved(old(world), world)
      ensures id in world.workers && world.workers[id] == pc && Moves(a, old(world.workers[id]), pc)
    {
      hide Inv, Apply, Moves, AnyTime, StaysMoved;
      OthersRun(id);
      AnyTimeIsEnabled(world, a);
      label Ready:
      pc := Do(id, a);
      assert StaysMoved(old(world), world) by {
        MovedFromStart(old(world), old@Ready(world), world);
      }
    }

    /** failItem: mark the item, count the failure, close the task if this was its last item. */
    method FailItem(id: WorkerId)
      requires Inv(world) && id in world.workers && world.workers[id].Failing?
      modifies this
      ensures Inv(world) && id in world.workers && world.workers[id] == Idle
    {
      hide Inv, StaysMoved;
      var works: bool := *;
      var pc := Next(id, MarkFailed(id, works));
      works := *;
      pc := Next(id, CountFailed(id, works));
      works := *;
      pc := Next(id, Finish(id, works));
    }

    /** processItem on the item this worker has claimed. */
    method ProcessItem(id: WorkerId) returns (result: Processed)
      requires Inv(world) && id in world.workers && world.workers[id].Claimed?
      modifies this
      ensures Inv(world) && id in world.workers && world.workers[id] == Idle
      ensures result != NothingToDo
      ensures result == Moved ==> IsMoved(world, old(world.workers[id].item))
    {
      hide Inv, StaysMoved, IsMoved;
      var works: bool := *;
      var pc := Next(id, ReadTask(id, !works));
      if pc.Losing? {
        works := *;
        pc := Next(id, MarkLost(id, works));
        return FailedItem;
      }
      if pc.Skipping? {
        works := *;
        pc := Next(id, MarkSkipped(id, works));
        works := *;
        pc := Next(id, CountSkipped(id, works));
        return SkippedItem;
      }
      pc := CopyToTarget(id);
      if pc.Failing? {
        FailItem(id);
        return FailedItem;
      }
      pc := SwapAfterCheck(id);
      if pc.DroppingTarget? {
        works := *;
        pc := Next(id, DropTarget(id, works));
        FailItem(id);
        return FailedItem;
      }
      result := Moved;
      CloseItem(id);
    }

    /** Both providers, GetObject and Upload. */
    method CopyToTarget(id: WorkerId) returns (pc: Pc)
      requires Inv(world) && id in world.workers && world.workers[id].Copying?
      modifies this
      ensures Inv(world) && id in world.workers && world.workers[id] == pc
      ensures pc in {Failing(old(world.workers[id].item)), Verifying(old(world.workers[id].item))}
    {
      hide Inv, StaysMoved;
      OthersRun(id);
      var effect: Option<nat>, reportsError: bool := *, *;
      HolderIsAt(world, id);
      if world.items[world.workers[id].item].source !in world.store {
        effect, reportsError := None, true;
      }
      hide Apply;
      pc := Do(id, Copy(id, effect, reportsError));
    }

    /** StatObject, the size check and the transaction. */
    method SwapAfterCheck(id: WorkerId) returns (pc: Pc)
      requires Inv(world) && id in world.workers && world.workers[id].Verifying?
      modifies this
      ensures Inv(world) && id in world.workers && world.workers[id] == pc
      ensures pc in {DroppingTarget(old(world.workers[id].item)), DroppingSource(old(world.workers[id].item))}
      ensures pc.DroppingSource? ==> IsMoved(world, pc.item)
    {
      hide Inv, StaysMoved, IsMoved;
      var works: bool := *;
      pc := Next(id, Verify(id, works));
      if pc.Swapping? {
        OthersRun(id);
        works := *;
        FreshId(world.objects.Keys);
        var newObject :| newObject != 0 && newObject !in world.objects;
        HolderIsAt(world, id);
        hide Apply;
        pc := Do(id, Swap(id, newObject, works));
        if pc.DroppingSource? {
          DroppingSourceIsMoved(world, id);
        }
      }
    }

    /** The source is deleted, and the task closed if this was its last item. */
    method CloseItem(id: WorkerId)
      requires Inv(world) && id in world.workers && world.workers[id].DroppingSource?
      modifies this
      ensures Inv(world) && id in world.workers && world.workers[id] == Idle
      ensures IsMoved(world, old(world.workers[id].item))
    {
      hide Inv, IsMoved;
      DroppingSourceIsMoved(world, id);
      var works: bool := *;
      var pc := Next(id, DropSource(id, works));
      works := *;
      pc := Next(id, Finish(id, works));
    }

    /** Steps of others while this request is the one that fills task t. */
    method OthersRunBeside(t: TaskId)
      requires Inv(world) && t in world.tasks
      modifies this
      ensures Inv(world) && Later(old(world), world)
      ensures t in world.tasks && world.tasks[t].added == old(world.tasks[t].added)
    {
      hide Inv, Later, Run, RunEnabled, Beside;
      var run: seq<Action> := *;
      if RunEnabled(world, run) && Beside(run, t) {
        RunBeside(world, run, t);
        world := Run(world, run);
      } else {
        LaterItself(world);
      }
    }

    /** Enqueue, for the storage rows found below the node. Without a target provider, without rows and on a
        dry run nothing is written; else there is a task row and then an item row for each storage row. A
        failing insert leaves the task with the items it has. */
    method Enqueue(actor: string, target: Option<nat>, refs: seq<ObjectId>, dryRun: bool)
      returns (task: Option<TaskId>, totalObjects: int, totalBytes: int)
      requires Inv(world) && forall o <- refs :: o in world.objects
      modifies this
      ensures Inv(world)
      ensures totalObjects == Wrap32(|refs|) && totalBytes == Wrap64(Sum(SizesOf(old(world.objects), refs)))
      ensures target.None? || dryRun || totalObjects == 0 ==> task.None? && world == old(world)
      ensures task.Some? ==> task.value !in old(world.tasks) && task.value in world.tasks
      ensures task.Some? ==> world.tasks[task.value].plan == SizesOf(old(world.objects), refs)
      ensures task.Some? ==> world.tasks[task.value].added == |refs|
    {
      totalObjects := Wrap32(|refs|);
      totalBytes := TotalBytes(world.objects, refs);
      if target.None? || dryRun || totalObjects == 0 {
        return None, totalObjects, totalBytes;
      }
      hide Inv, Enabled, Apply;
      FreshId(world.tasks.Keys);
      var t :| t != 0 && t !in world.tasks;
      var plan := SizesOf(world.objects, refs);
      PlanTask(t, actor, target.value, plan);
      for n := 0 to |refs|
        invariant Inv(world) && forall o <- refs :: o in world.objects
        invariant SizesOf(world.objects, refs) == plan
        invariant t in world.tasks && world.tasks[t].plan == plan && world.tasks[t].added == n
      {
        hide Later;
        var works: bool := *;
        if !works {
          return None, totalObjects, totalBytes;
        }
        PlanNext(t, refs, n);
      }
      task := Some(t);
    }

    method PlanTask(t: TaskId, actor: string, target: nat, plan: seq<nat>)
      requires Inv(world) && t !in world.tasks
      modifies this
      ensures Inv(world) && world.objects == old(world.objects)
      ensures t in world.tasks && world.tasks[t].plan == plan && world.tasks[t].added == 0
    {
      StepKeepsInv(world, CreateTask(t, actor, target, plan));
      hide Inv;
      world := Apply(world, CreateTask(t, actor, target, plan));
    }

    /** The next item row, for refs[n]. */
    method PlanNext(t: TaskId, refs: seq<ObjectId>, n: nat)
      requires Inv(world) && n < |refs| && forall o <- refs :: o in world.objects
      requires t in world.tasks && world.tasks[t].plan == SizesOf(world.objects, refs) && world.tasks[t].added == n
      modifies this
      ensures Inv(world) && forall o <- refs :: o in world.objects
      ensures SizesOf(world.objects, refs) == old(SizesOf(world.objects, refs))
      ensures t in world.tasks && world.tasks[t].plan == old(world.tasks[t].plan) && world.tasks[t].added == n + 1
    {
      hide Inv;
      OthersRunBeside(t);
      FreshId(world.items.Keys);
      var i :| i != 0 && i !in world.items;
      FreshKey(world.usedKeys);
      var key :| key != "" && key !in world.usedKeys;
      StepKeepsInv(world, AddItem(i, t, refs[n], key));
      world := Apply(world, AddItem(i, t, refs[n], key));
    }

    /** Cancel: refused for a missing, foreign or closed task. Between the look at the task and the update of its
        status anything may happen, so the update may also overwrite a status that closed the task meanwhile. */
    method Cancel(principal: string, t: TaskId) returns (r: Result<(), CancelError>)
      requires Inv(world)
      modifies this
      ensures Inv(world)
      ensures r == Err(Refused) <==>
              t !in old(world.tasks) || old(world.tasks)[t].actor != principal || old(world.tasks)[t].IsTerminal()
      ensures r == Err(Refused) ==> world == old(world)
      ensures Later(old(world), world)
    {
      hide Inv, Apply, Later;
      if t !in world.tasks || world.tasks[t].actor != principal || world.tasks[t].IsTerminal() {
        LaterItself(world);
        return Err(Refused);
      }
      OthersRunBeside(t);
      var works: bool := *;
      if !works {
        return Err(UpdateFailed);
      }
      ghost var w1 := world;
      CloseTask(t);
      ghost var w2 := world;
      LaterTransitive(old(world), w1, w2);
      OthersRunBeside(t);
      ghost var w3 := world;
      LaterTransitive(old(world), w2, w3);
      works := *;
      if works {
        SkipWaiting(t);
        LaterTransitive(old(world), w3, world);
      }
      r := Ok(());
    }

    /** UpdateTaskStatus to canceled, whatever the status was: nothing but that status changes. */
    method CloseTask(t: TaskId)
      requires Inv(world) && t in world.tasks
      modifies this
      ensures Inv(world) && world == Apply(old(world), CancelTask(t)) && Later(old(world), world)
      ensures t in world.tasks && world.tasks[t] == old(world.tasks)[t].(status := TaskCanceled)
              && world.items == old(world.items)
    {
      hide Inv, Apply, Later;
      StepKeepsInv(world, CancelTask(t));
      StepFrame(world, CancelTask(t));
      CancelTaskCloses(world, t);
      world := Apply(world, CancelTask(t));
    }

    /** SkipPendingItemsForTask: afterwards no item of the task waits for a worker. */
    method SkipWaiting(t: TaskId)
      requires Inv(world) && t in world.tasks
      modifies this
      ensures Inv(world) && Later(old(world), world)
      ensures world == old(world).(items := SkipAll(old(world).items, t))
      ensures forall i <- world.items :: world.items[i].task == t ==> world.items[i].status != Pending
    {
      hide Inv, Later;
      StepKeepsInv(world, SkipPending(t));
      StepFrame(world, SkipPending(t));
      world := Apply(world, SkipPending(t));
    }

    /** tickOnce: claim a waiting item, if there is one, and process it. */
    method TickOnce(id: WorkerId) returns (result: Processed)
      requires Inv(world) && id in world.workers && world.workers[id] == Idle
      modifies this
      ensures Inv(world) && id in world.workers && world.workers[id] == Idle
      ensures result == NothingToDo ==> forall i <- world.items :: world.items[i].status != Pending
    {
      hide Inv, StaysMoved;
      OthersRun(id);
      if i :| i in world.items && world.items[i].status == Pending {
        hide Apply;
        var _ := Do(id, Claim(id, i));
        result := ProcessItem(id);
      } else {
        result := NothingToDo;
      }
    }
  }
}
