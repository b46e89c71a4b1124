/** Content replacement beside storage migration: both rebind a file to other bytes, each in its own way. A migration
    plans by the storage row, copies the bytes and then points the file at a new row; a replacement rewrites the row
    that it has read. Neither looks again at what the other may have done in between. Each file has a row of its own. */
module SwapRaces {
  import opened Wrappers

  type FileId = nat
  type ObjectId = nat
  type ItemId = nat
  type RequestId = nat
  type Loc = nat

  /** The bytes of one upload. */
  datatype Content = Content(id: nat, size: nat)

  datatype Row = Row(loc: Loc, live: bool)

  /** What a place was made for; it belongs to one row for good once it does to any. */
  datatype Role = RowOf(o: ObjectId) | TargetOf(i: ItemId) | UploadOf(r: RequestId) | Lost

  datatype ItemStage = Planned | Copied | Swapped | Ended | Failed

  /** The storage row as the plan of a migration found it, and the place for the copy. */
  datatype Item = Item(file: FileId, obj: ObjectId, source: Loc, target: Loc, stage: ItemStage)

  datatype RequestStage = Looked | Written | Closed

  /** A replacement that has stored its bytes at `loc` and read the row of the file, then at `old`. */
  datatype Request = Request(file: FileId, obj: ObjectId, before: Loc, loc: Loc, content: Content, stage: RequestStage)

  /** Storage rows, the row of each file, and the stored bytes. History: the last content each file was given, whose
      size is the recorded one; what was ever stored at a place; and what each place is for. */
  datatype World = World(rows: map<ObjectId, Row>, refs: map<FileId, ObjectId>, store: map<Loc, Content>,
                         latest: map<FileId, Content>, made: map<Loc, Content>, role: map<Loc, Role>,
                         items: map<ItemId, Item>, requests: map<RequestId, Request>)

  datatype Action =
    | Plan(i: ItemId, f: FileId, target: Loc)
    | CopyBytes(i: ItemId)
    | Swap(i: ItemId, newObject: ObjectId)
    | DropSource(i: ItemId, removes: bool)
    | Fail(i: ItemId, removes: bool)
    | Look(r: RequestId, f: FileId, loc: Loc, content: Content)
    | Write(r: RequestId)
    | GiveUp(r: RequestId, removes: bool)
    | DropOld(r: RequestId, removes: bool)

  // ----- the steps -----

  predicate ItemAt(w: World, i: ItemId, stage: ItemStage) {
    i in w.items && w.items[i].stage == stage
  }

  predicate RequestAt(w: World, r: RequestId, stage: RequestStage) {
    r in w.requests && w.requests[r].stage == stage
  }

  /** The row lock on the node: one replacement of a file at a time between its look and its write. */
  predicate NodeFree(w: World, f: FileId) {
    forall r <- w.requests :: w.requests[r].stage == Looked ==> w.requests[r].file != f
  }

  predicate NewContent(w: World, content: Content) {
    (forall l <- w.made :: w.made[l] != content) && (forall f <- w.latest :: w.latest[f] != content)
  }

  predicate Enabled(w: World, a: Action) {
    match a
    case Plan(i, f, target) => i !in w.items && f in w.refs && w.refs[f] in w.rows && target !in w.role
    case CopyBytes(i) => ItemAt(w, i, Planned) && w.items[i].source in w.store
    case Swap(i, newObject) => ItemAt(w, i, Copied) && w.items[i].obj in w.rows && newObject !in w.rows
    case DropSource(i, _) => ItemAt(w, i, Swapped)
    case Fail(i, _) => ItemAt(w, i, Planned) || ItemAt(w, i, Copied)
    case Look(r, f, loc, content) =>
      && r !in w.requests && f in w.refs && w.refs[f] in w.rows && w.rows[w.refs[f]].live
      && loc !in w.role && NewContent(w, content) && NodeFree(w, f)
    case Write(r) => RequestAt(w, r, Looked) && w.requests[r].obj in w.rows
    case GiveUp(r, _) => RequestAt(w, r, Looked)
    case DropOld(r, _) => RequestAt(w, r, Written)
  }

  function Without(store: map<Loc, Content>, loc: Loc, removes: bool): map<Loc, Content> {
    if removes then store - {loc} else store
  }

  /** ReplaceFileStorage: the row is updated where it is still live; the size of the file in any case. */
  function Rewritten(w: World, r: RequestId): World
    requires r in w.requests && w.requests[r].obj in w.rows
  {
    var q := w.requests[r];
    var w1 := w.(latest := w.latest[q.file := q.content], requests := w.requests[r := q.(stage := Written)]);
    if w.rows[q.obj].live then w1.(rows := w.rows[q.obj := Row(q.loc, true)], role := w.role[q.loc := RowOf(q.obj)])
    else w1.(role := w.role[q.loc := Lost])
  }

  function Apply(w: World, a: Action): World
    requires Enabled(w, a)
  {
    match a
    case Plan(i, f, target) =>
      var o := w.refs[f];
      w.(items := w.items[i := Item(f, o, w.rows[o].loc, target, Planned)], role := w.role[target := TargetOf(i)])
    case CopyBytes(i) =>
      var item := w.items[i];
      w.(items := w.items[i := item.(stage := Copied)], store := w.store[item.target := w.store[item.source]],
         made := w.made[item.target := w.store[item.source]])
    case Swap(i, newObject) =>
      var item := w.items[i];
      w.(items := w.items[i := item.(stage := Swapped)],
         rows := w.rows[item.obj := w.rows[item.obj].(live := false)][newObject := Row(item.target, true)],
         refs := map f | f in w.refs :: if w.refs[f] == item.obj then newObject else w.refs[f],
         role := w.role[item.target := RowOf(newObject)])
    case DropSource(i, removes) =>
      w.(items := w.items[i := w.items[i].(stage := Ended)], store := Without(w.store, w.items[i].source, removes))
    case Fail(i, removes) =>
      w.(items := w.items[i := w.items[i].(stage := Failed)], store := Without(w.store, w.items[i].target, removes))
    case Look(r, f, loc, content) =>
      var o := w.refs[f];
      w.(requests := w.requests[r := Request(f, o, w.rows[o].loc, loc, content, Looked)],
          store := w.store[loc := content],
         made := w.made[loc := content], role := w.role[loc := UploadOf(r)])
    case Write(r) => Rewritten(w, r)
    case GiveUp(r, removes) =>
      w.(requests := w.requests[r := w.requests[r].(stage := Closed)],
          store := Without(w.store, w.requests[r].loc, removes))
    case DropOld(r, removes) =>
      w.(requests := w.requests[r := w.requests[r].(stage := Closed)],
          store := Without(w.store, w.requests[r].before, removes))
  }

  // ----- what is to hold -----

  /** The file can be read, and what is read is what it was last given, in content and recorded size. */
  predicate Reads(w: World, f: FileId) {
    && f in w.refs && w.refs[f] in w.rows && f in w.latest
    && w.rows[w.refs[f]].loc in w.store && w.store[w.rows[w.refs[f]].loc] == w.latest[f]
  }

  predicate AllRead(w: World) {
    forall f <- w.refs :: Reads(w, f)
  }

  /** A commit finds what its side has read before: the swap a row that still names the copied bytes, unless no file
      has it any more; the replacement a row that is still live. */
  predicate Fits(w: World, a: Action) {
    match a
    case Swap(i, _) =>
      i in w.items && w.items[i].obj in w.rows &&
      ((exists f <- w.refs :: w.refs[f] == w.items[i].obj) ==> w.rows[w.items[i].obj].loc == w.items[i].source)
    case Write(r) => r in w.requests && w.requests[r].obj in w.rows && w.rows[w.requests[r].obj].live
    case _ => true
  }

  // ----- the invariant -----

  predicate PlaceIs(w: World, l: Loc, role: Role) {
    l in w.role && w.role[l] == role
  }

  predicate StoreOk(w: World) {
    && (forall l <- w.made :: l in w.role)
    && forall l <- w.store :: l in w.made && w.store[l] == w.made[l]
  }

  predicate RowsOk(w: World) {
    forall o <- w.rows :: PlaceIs(w, w.rows[o].loc, RowOf(o)) && w.rows[o].loc in w.made
  }

  predicate RefsOk(w: World) {
    && (forall f <- w.refs :: w.refs[f] in w.rows && w.rows[w.refs[f]].live && f in w.latest)
    && forall f <- w.refs, g <- w.refs :: w.refs[f] == w.refs[g] ==> f == g
  }

  /** An item copies bytes its row had; once the row has others, they are other bytes. */
  predicate ItemOk(w: World, i: ItemId) {
    i in w.items &&
    var item := w.items[i];
    && item.obj in w.rows && PlaceIs(w, item.source, RowOf(item.obj)) && item.source in w.made
    && (item.stage.Planned? || item.stage.Copied? ==> PlaceIs(w, item.target, TargetOf(i)))
    && (item.stage.Planned? ==> item.target !in w.made)
    && (item.stage.Copied?
       ==> item.target in w.store && item.target in w.made && w.made[item.target] == w.made[item.source])
    && (item.stage.Swapped? ==> !w.rows[item.obj].live)
    && (w.rows[item.obj].loc != item.source
       ==> w.rows[item.obj].loc in w.made && w.made[w.rows[item.obj].loc] != w.made[item.source])
  }

  /** A replacement under way brings bytes that nothing else has had. */
  predicate RequestOk(w: World, r: RequestId) {
    r in w.requests &&
    var q := w.requests[r];
    && q.obj in w.rows && PlaceIs(w, q.before, RowOf(q.obj))
    && (q.stage.Looked? ==>
          && PlaceIs(w, q.loc, UploadOf(r)) && q.loc in w.store && q.loc in w.made && w.made[q.loc] == q.content
          && q.file in w.refs && (w.rows[q.obj].live ==> w.refs[q.file] == q.obj)
          && w.rows[q.obj].loc == q.before && q.before in w.made && w.made[q.before] != q.content
          && q.file in w.latest && w.latest[q.file] != q.content)
    && (q.stage.Written? ==> w.rows[q.obj].live ==> w.rows[q.obj].loc != q.before)
  }

  predicate ApartFromItems(w: World, r: RequestId) {
    r in w.requests && w.requests[r].stage.Looked? ==>
      forall i <- w.items :: w.items[i].obj == w.requests[r].obj ==>
        w.items[i].source in w.made && w.made[w.items[i].source] != w.requests[r].content
  }

  predicate OneLooker(w: World) {
    forall r <- w.requests, q <- w.requests ::
      w.requests[r].stage.Looked? && w.requests[q].stage.Looked? && r != q ==>
        w.requests[r].file != w.requests[q].file && w.requests[r].obj != w.requests[q].obj
  }

  predicate Inv(w: World) {
    && StoreOk(w) && RowsOk(w) && RefsOk(w) && OneLooker(w)
    && (forall i <- w.items :: ItemOk(w, i))
    && (forall r <- w.requests :: RequestOk(w, r) && ApartFromItems(w, r))
  }

  lemma PlanRows(w: World, a: Action)
    requires StoreOk(w) && RowsOk(w) && RefsOk(w) && Enabled(w, a) && a.Plan?
    ensures var w' := Apply(w, a); StoreOk(w') && RowsOk(w') && RefsOk(w')
  {
  }

  lemma PlanLookers(w: World, a: Action)
    requires OneLooker(w) && Enabled(w, a) && a.Plan?
    ensures OneLooker(Apply(w, a))
  {
  }

  lemma PlanItem(w: World, a: Action, i: ItemId)
    requires StoreOk(w) && RowsOk(w) && Enabled(w, a) && a.Plan?
    requires i in Apply(w, a).items && (i in w.items ==> ItemOk(w, i))
    ensures ItemOk(Apply(w, a), i)
  {
  }

  lemma PlanRequest(w: World, a: Action, r: RequestId)
    requires StoreOk(w) && RowsOk(w) && RefsOk(w) && OneLooker(w) && Enabled(w, a) && a.Plan?
    requires r in Apply(w, a).requests && (r in w.requests ==> RequestOk(w, r))
    ensures RequestOk(Apply(w, a), r)
  {
  }

  lemma PlanApart(w: World, a: Action, r: RequestId)
    requires StoreOk(w) && Enabled(w, a) && a.Plan?
    requires r in Apply(w, a).requests && (r in w.requests ==> RequestOk(w, r) && ApartFromItems(w, r))
    ensures ApartFromItems(Apply(w, a), r)
  {
  }

  lemma PlanKeepsInv(w: World, a: Action)
    requires Inv(w) && Enabled(w, a) && a.Plan?
    ensures Inv(Apply(w, a))
  {
    hide StoreOk, RowsOk, RefsOk, OneLooker, ItemOk, RequestOk, ApartFromItems, Apply;
    PlanRows(w, a);
    PlanLookers(w, a);
    var w' := Apply(w, a);
    forall i | i in w'.items ensures ItemOk(w', i) {
      PlanItem(w, a, i);
    }
    forall r | r in w'.requests ensures RequestOk(w', r) && ApartFromItems(w', r) {
      PlanRequest(w, a, r);
      PlanApart(w, a, r);
    }
  }

  lemma CopyRows(w: World, a: Action)
    requires StoreOk(w) && RowsOk(w) && RefsOk(w) && Enabled(w, a) && a.CopyBytes?
    requires ItemOk(w, a.i)
    ensures var w' := Apply(w, a); StoreOk(w') && RowsOk(w') && RefsOk(w')
  {
  }

  lemma CopyLookers(w: World, a: Action)
    requires OneLooker(w) && Enabled(w, a) && a.CopyBytes?
    ensures OneLooker(Apply(w, a))
  {
  }

  lemma CopyItem(w: World, a: Action, i: ItemId)
    requires StoreOk(w) && RowsOk(w) && Enabled(w, a) && a.CopyBytes?
    requires ItemOk(w, a.i)
    requires i in Apply(w, a).items && (i in w.items ==> ItemOk(w, i))
    ensures ItemOk(Apply(w, a), i)
  {
  }

  lemma CopyRequest(w: World, a: Action, r: RequestId)
    requires StoreOk(w) && RowsOk(w) && RefsOk(w) && OneLooker(w) && Enabled(w, a) && a.CopyBytes?
    requires ItemOk(w, a.i)
    requires r in Apply(w, a).requests && (r in w.requests ==> RequestOk(w, r))
    ensures RequestOk(Apply(w, a), r)
  {
  }

  lemma CopyApart(w: World, a: Action, r: RequestId)
    requires StoreOk(w) && Enabled(w, a) && a.CopyBytes?
    requires ItemOk(w, a.i)
    requires forall i <- w.items :: ItemOk(w, i)
    requires r in Apply(w, a).requests && (r in w.requests ==> RequestOk(w, r) && ApartFromItems(w, r))
    ensures ApartFromItems(Apply(w, a), r)
  {
  }

  lemma CopyKeepsInv(w: World, a: Action)
    requires Inv(w) && Enabled(w, a) && a.CopyBytes?
    ensures Inv(Apply(w, a))
  {
    hide StoreOk, RowsOk, RefsOk, OneLooker, ItemOk, RequestOk, ApartFromItems, Apply;
    CopyRows(w, a);
    CopyLookers(w, a);
    var w' := Apply(w, a);
    forall i | i in w'.items ensures ItemOk(w', i) {
      CopyItem(w, a, i);
    }
    forall r | r in w'.requests ensures RequestOk(w', r) && ApartFromItems(w', r) {
      CopyRequest(w, a, r);
      CopyApart(w, a, r);
    }
  }

  lemma SwapPlaces(w: World, a: Action)
    requires StoreOk(w) && RowsOk(w) && Enabled(w, a) && a.Swap? && ItemOk(w, a.i)
    ensures StoreOk(Apply(w, a)) && RowsOk(Apply(w, a))
  {
  }

  lemma SwapRefs(w: World, a: Action)
    requires RefsOk(w) && Enabled(w, a) && a.Swap?
    ensures RefsOk(Apply(w, a))
  {
  }

  lemma SwapRows(w: World, a: Action)
    requires StoreOk(w) && RowsOk(w) && RefsOk(w) && Enabled(w, a) && a.Swap? && ItemOk(w, a.i)
    ensures var w' := Apply(w, a); StoreOk(w') && RowsOk(w') && RefsOk(w')
  {
    hide StoreOk, RowsOk, RefsOk, ItemOk, Apply;
    SwapPlaces(w, a);
    SwapRefs(w, a);
  }

  lemma SwapLookers(w: World, a: Action)
    requires OneLooker(w) && Enabled(w, a) && a.Swap?
    ensures OneLooker(Apply(w, a))
  {
  }

  lemma SwapItem(w: World, a: Action, i: ItemId)
    requires StoreOk(w) && RowsOk(w) && Enabled(w, a) && a.Swap?
    requires ItemOk(w, a.i)
    requires i in Apply(w, a).items && (i in w.items ==> ItemOk(w, i))
    ensures ItemOk(Apply(w, a), i)
  {
  }

  lemma SwapRequest(w: World, a: Action, r: RequestId)
    requires StoreOk(w) && RowsOk(w) && RefsOk(w) && OneLooker(w) && Enabled(w, a) && a.Swap?
    requires ItemOk(w, a.i)
    requires r in Apply(w, a).requests && (r in w.requests ==> RequestOk(w, r))
    ensures RequestOk(Apply(w, a), r)
  {
  }

  lemma SwapApart(w: World, a: Action, r: RequestId)
    requires StoreOk(w) && Enabled(w, a) && a.Swap?
    requires ItemOk(w, a.i)
    requires r in Apply(w, a).requests && (r in w.requests ==> RequestOk(w, r) && ApartFromItems(w, r))
    ensures ApartFromItems(Apply(w, a), r)
  {
  }

  lemma SwapKeepsInv(w: World, a: Action)
    requires Inv(w) && Enabled(w, a) && a.Swap?
    ensures Inv(Apply(w, a))
  {
    hide StoreOk, RowsOk, RefsOk, OneLooker, ItemOk, RequestOk, ApartFromItems, Apply;
    SwapRows(w, a);
    SwapLookers(w, a);
    var w' := Apply(w, a);
    forall i | i in w'.items ensures ItemOk(w', i) {
      SwapItem(w, a, i);
    }
    forall r | r in w'.requests ensures RequestOk(w', r) && ApartFromItems(w', r) {
      SwapRequest(w, a, r);
      SwapApart(w, a, r);
    }
  }

  lemma EndItemRows(w: World, a: Action)
    requires StoreOk(w) && RowsOk(w) && RefsOk(w) && Enabled(w, a) && (a.DropSource? || a.Fail?)
    requires ItemOk(w, a.i)
    ensures var w' := Apply(w, a); StoreOk(w') && RowsOk(w') && RefsOk(w')
  {
  }

  lemma EndItemLookers(w: World, a: Action)
    requires OneLooker(w) && Enabled(w, a) && (a.DropSource? || a.Fail?)
    ensures OneLooker(Apply(w, a))
  {
  }

  lemma EndItemItem(w: World, a: Action, i: ItemId)
    requires StoreOk(w) && RowsOk(w) && Enabled(w, a) && (a.DropSource? || a.Fail?)
    requires ItemOk(w, a.i)
    requires i in Apply(w, a).items && (i in w.items ==> ItemOk(w, i))
    ensures ItemOk(Apply(w, a), i)
  {
  }

  lemma EndItemRequest(w: World, a: Action, r: RequestId)
    requires StoreOk(w) && RowsOk(w) && RefsOk(w) && OneLooker(w) && Enabled(w, a) && (a.DropSource? || a.Fail?)
    requires ItemOk(w, a.i)
    requires r in Apply(w, a).requests && (r in w.requests ==> RequestOk(w, r))
    ensures RequestOk(Apply(w, a), r)
  {
  }

  lemma EndItemApart(w: World, a: Action, r: RequestId)
    requires StoreOk(w) && Enabled(w, a) && (a.DropSource? || a.Fail?)
    requires ItemOk(w, a.i)
    requires r in Apply(w, a).requests && (r in w.requests ==> RequestOk(w, r) && ApartFromItems(w, r))
    ensures ApartFromItems(Apply(w, a), r)
  {
  }

  lemma EndItemKeepsInv(w: World, a: Action)
    requires Inv(w) && Enabled(w, a) && (a.DropSource? || a.Fail?)
    ensures Inv(Apply(w, a))
  {
    hide StoreOk, RowsOk, RefsOk, OneLooker, ItemOk, RequestOk, ApartFromItems, Apply;
    EndItemRows(w, a);
    EndItemLookers(w, a);
    var w' := Apply(w, a);
    forall i | i in w'.items ensures ItemOk(w', i) {
      EndItemItem(w, a, i);
    }
    forall r | r in w'.requests ensures RequestOk(w', r) && ApartFromItems(w', r) {
      EndItemRequest(w, a, r);
      EndItemApart(w, a, r);
    }
  }

  lemma LookRows(w: World, a: Action)
    requires StoreOk(w) && RowsOk(w) && RefsOk(w) && Enabled(w, a) && a.Look?
    ensures var w' := Apply(w, a); StoreOk(w') && RowsOk(w') && RefsOk(w')
  {
  }

  lemma LookLookers(w: World, a: Action)
    requires OneLooker(w) && Enabled(w, a) && a.Look?
    requires RefsOk(w) && forall r <- w.requests :: RequestOk(w, r)
    ensures OneLooker(Apply(w, a))
  {
  }

  lemma LookItem(w: World, a: Action, i: ItemId)
    requires StoreOk(w) && RowsOk(w) && Enabled(w, a) && a.Look?
    requires i in Apply(w, a).items && (i in w.items ==> ItemOk(w, i))
    ensures ItemOk(Apply(w, a), i)
  {
  }

  lemma LookRequest(w: World, a: Action, r: RequestId)
    requires StoreOk(w) && RowsOk(w) && RefsOk(w) && OneLooker(w) && Enabled(w, a) && a.Look?
    requires r in Apply(w, a).requests && (r in w.requests ==> RequestOk(w, r))
    ensures RequestOk(Apply(w, a), r)
  {
  }

  lemma LookApart(w: World, a: Action, r: RequestId)
    requires StoreOk(w) && Enabled(w, a) && a.Look?
    requires forall i <- w.items :: ItemOk(w, i)
    requires r in Apply(w, a).requests && (r in w.requests ==> RequestOk(w, r) && ApartFromItems(w, r))
    ensures ApartFromItems(Apply(w, a), r)
  {
  }

  lemma LookKeepsInv(w: World, a: Action)
    requires Inv(w) && Enabled(w, a) && a.Look?
    ensures Inv(Apply(w, a))
  {
    hide StoreOk, RowsOk, RefsOk, OneLooker, ItemOk, RequestOk, ApartFromItems, Apply;
    LookRows(w, a);
    LookLookers(w, a);
    var w' := Apply(w, a);
    forall i | i in w'.items ensures ItemOk(w', i) {
      LookItem(w, a, i);
    }
    forall r | r in w'.requests ensures RequestOk(w', r) && ApartFromItems(w', r) {
      LookRequest(w, a, r);
      LookApart(w, a, r);
    }
  }

  lemma WriteRows(w: World, a: Action)
    requires StoreOk(w) && RowsOk(w) && RefsOk(w) && Enabled(w, a) && a.Write?
    requires RequestOk(w, a.r)
    ensures var w' := Apply(w, a); StoreOk(w') && RowsOk(w') && RefsOk(w')
  {
  }

  lemma WriteLookers(w: World, a: Action)
    requires OneLooker(w) && Enabled(w, a) && a.Write?
    ensures OneLooker(Apply(w, a))
  {
  }

  lemma WriteItem(w: World, a: Action, i: ItemId)
    requires StoreOk(w) && RowsOk(w) && Enabled(w, a) && a.Write?
    requires RequestOk(w, a.r)
    requires ApartFromItems(w, a.r)
    requires i in Apply(w, a).items && (i in w.items ==> ItemOk(w, i))
    ensures ItemOk(Apply(w, a), i)
  {
  }

  lemma WriteOwn(w: World, a: Action)
    requires RowsOk(w) && Enabled(w, a) && a.Write? && RequestOk(w, a.r)
    ensures RequestOk(Apply(w, a), a.r)
  {
  }

  lemma WriteOther(w: World, a: Action, r: RequestId)
    requires StoreOk(w) && OneLooker(w) && Enabled(w, a) && a.Write? && RequestOk(w, a.r)
    requires r in w.requests && r != a.r && RequestOk(w, r)
    ensures RequestOk(Apply(w, a), r)
  {
  }

  lemma WriteRequest(w: World, a: Action, r: RequestId)
    requires StoreOk(w) && RowsOk(w) && OneLooker(w) && Enabled(w, a) && a.Write? && RequestOk(w, a.r)
    requires r in Apply(w, a).requests && (r in w.requests ==> RequestOk(w, r))
    ensures RequestOk(Apply(w, a), r)
  {
    hide StoreOk, RowsOk, OneLooker, RequestOk;
    if r == a.r {
      WriteOwn(w, a);
    } else {
      WriteOther(w, a, r);
    }
  }

  lemma WriteApart(w: World, a: Action, r: RequestId)
    requires StoreOk(w) && Enabled(w, a) && a.Write?
    requires RequestOk(w, a.r)
    requires r in Apply(w, a).requests && (r in w.requests ==> RequestOk(w, r) && ApartFromItems(w, r))
    ensures ApartFromItems(Apply(w, a), r)
  {
  }

  lemma WriteKeepsInv(w: World, a: Action)
    requires Inv(w) && Enabled(w, a) && a.Write?
    ensures Inv(Apply(w, a))
  {
    hide StoreOk, RowsOk, RefsOk, OneLooker, ItemOk, RequestOk, ApartFromItems, Apply;
    WriteRows(w, a);
    WriteLookers(w, a);
    var w' := Apply(w, a);
    forall i | i in w'.items ensures ItemOk(w', i) {
      WriteItem(w, a, i);
    }
    forall r | r in w'.requests ensures RequestOk(w', r) && ApartFromItems(w', r) {
      WriteRequest(w, a, r);
      WriteApart(w, a, r);
    }
  }

  lemma EndRequestRows(w: World, a: Action)
    requires StoreOk(w) && RowsOk(w) && RefsOk(w) && Enabled(w, a) && (a.GiveUp? || a.DropOld?)
    requires RequestOk(w, a.r)
    ensures var w' := Apply(w, a); StoreOk(w') && RowsOk(w') && RefsOk(w')
  {
  }

  lemma EndRequestLookers(w: World, a: Action)
    requires OneLooker(w) && Enabled(w, a) && (a.GiveUp? || a.DropOld?)
    ensures OneLooker(Apply(w, a))
  {
  }

  lemma EndRequestItem(w: World, a: Action, i: ItemId)
    requires StoreOk(w) && RowsOk(w) && Enabled(w, a) && (a.GiveUp? || a.DropOld?)
    requires RequestOk(w, a.r)
    requires i in Apply(w, a).items && (i in w.items ==> ItemOk(w, i))
    ensures ItemOk(Apply(w, a), i)
  {
  }

  lemma EndRequestOwn(w: World, a: Action)
    requires RowsOk(w) && Enabled(w, a) && (a.GiveUp? || a.DropOld?) && RequestOk(w, a.r)
    ensures RequestOk(Apply(w, a), a.r)
  {
  }

  lemma EndRequestOther(w: World, a: Action, r: RequestId)
    requires StoreOk(w) && OneLooker(w) && Enabled(w, a) && (a.GiveUp? || a.DropOld?) && RequestOk(w, a.r)
    requires r in w.requests && r != a.r && RequestOk(w, r)
    ensures RequestOk(Apply(w, a), r)
  {
  }

  lemma EndRequestRequest(w: World, a: Action, r: RequestId)
    requires StoreOk(w) && RowsOk(w) && OneLooker(w) && Enabled(w, a) && (a.GiveUp? || a.DropOld?) && RequestOk(w, a.r)
    requires r in Apply(w, a).requests && (r in w.requests ==> RequestOk(w, r))
    ensures RequestOk(Apply(w, a), r)
  {
    hide StoreOk, RowsOk, OneLooker, RequestOk;
    if r == a.r {
      EndRequestOwn(w, a);
    } else {
      EndRequestOther(w, a, r);
    }
  }

  lemma EndRequestApart(w: World, a: Action, r: RequestId)
    requires StoreOk(w) && Enabled(w, a) && (a.GiveUp? || a.DropOld?)
    requires RequestOk(w, a.r)
    requires r in Apply(w, a).requests && (r in w.requests ==> RequestOk(w, r) && ApartFromItems(w, r))
    ensures ApartFromItems(Apply(w, a), r)
  {
  }

  lemma EndRequestKeepsInv(w: World, a: Action)
    requires Inv(w) && Enabled(w, a) && (a.GiveUp? || a.DropOld?)
    ensures Inv(Apply(w, a))
  {
    hide StoreOk, RowsOk, RefsOk, OneLooker, ItemOk, RequestOk, ApartFromItems, Apply;
    EndRequestRows(w, a);
    EndRequestLookers(w, a);
    var w' := Apply(w, a);
    forall i | i in w'.items ensures ItemOk(w', i) {
      EndRequestItem(w, a, i);
    }
    forall r | r in w'.requests ensures RequestOk(w', r) && ApartFromItems(w', r) {
      EndRequestRequest(w, a, r);
      EndRequestApart(w, a, r);
    }
  }

  lemma StepKeepsInv(w: World, a: Action)
    requires Inv(w) && Enabled(w, a)
    ensures Inv(Apply(w, a))
  {
    match a
    case Plan(_, _, _) => PlanKeepsInv(w, a);
    case CopyBytes(_) => CopyKeepsInv(w, a);
    case Swap(_, _) => SwapKeepsInv(w, a);
    case Look(_, _, _, _) => LookKeepsInv(w, a);
    case Write(_) => WriteKeepsInv(w, a);
    case DropSource(_, _) => EndItemKeepsInv(w, a);
    case Fail(_, _) => EndItemKeepsInv(w, a);
    case _ => EndRequestKeepsInv(w, a);
  }

  // ----- what a step does to the files -----

  lemma SwapReads(w: World, a: Action, f: FileId)
    requires StoreOk(w) && RowsOk(w) && Enabled(w, a) && a.Swap? && ItemOk(w, a.i) && Reads(w, f)
    ensures var item := w.items[a.i];
            Reads(Apply(w, a), f) <==> (w.refs[f] == item.obj ==> w.rows[item.obj].loc == item.source)
  {
  }

  lemma SwapDecides(w: World, a: Action)
    requires Inv(w) && Enabled(w, a) && a.Swap? && AllRead(w)
    ensures AllRead(Apply(w, a)) <==> Fits(w, a)
  {
    hide StoreOk, RowsOk, RefsOk, OneLooker, RequestOk, ApartFromItems, Reads, ItemOk;
    forall f | f in w.refs
      ensures Reads(Apply(w, a), f)
              <==> (w.refs[f] == w.items[a.i].obj ==> w.rows[w.items[a.i].obj].loc == w.items[a.i].source)
    {
      SwapReads(w, a, f);
    }
    assert Apply(w, a).refs.Keys == w.refs.Keys;
  }

  lemma WriteReads(w: World, a: Action, f: FileId)
    requires StoreOk(w) && RowsOk(w) && RefsOk(w) && Enabled(w, a) && a.Write? && RequestOk(w, a.r) && Reads(w, f)
    ensures Reads(Apply(w, a), f) <==> (f == w.requests[a.r].file ==> w.rows[w.requests[a.r].obj].live)
  {
  }

  lemma WriteKeepsRefs(w: World, a: Action)
    requires Enabled(w, a) && a.Write? && RequestOk(w, a.r)
    ensures Apply(w, a).refs == w.refs && w.requests[a.r].file in w.refs
  {
  }

  lemma WriteDecides(w: World, a: Action)
    requires Inv(w) && Enabled(w, a) && a.Write? && AllRead(w)
    ensures AllRead(Apply(w, a)) <==> Fits(w, a)
  {
    hide StoreOk, RowsOk, RefsOk, OneLooker, RequestOk, ApartFromItems, Reads, ItemOk, Apply;
    WriteKeepsRefs(w, a);
    forall f | f in w.refs
      ensures Reads(Apply(w, a), f) <==> (f == w.requests[a.r].file ==> w.rows[w.requests[a.r].obj].live)
    {
      WriteReads(w, a, f);
    }
  }

  lemma StaysRead(w: World, a: Action, f: FileId)
    requires StoreOk(w) && RowsOk(w) && RefsOk(w) && Enabled(w, a) && !a.Swap? && !a.Write? && Reads(w, f)
    requires a.DropSource? || a.Fail? || a.CopyBytes? ==> ItemOk(w, a.i)
    requires a.GiveUp? || a.DropOld? ==> RequestOk(w, a.r)
    ensures Reads(Apply(w, a), f)
  {
  }

  lemma OtherStepsKeepRead(w: World, a: Action)
    requires Inv(w) && Enabled(w, a) && !a.Swap? && !a.Write? && AllRead(w)
    ensures AllRead(Apply(w, a))
  {
    hide StoreOk, RowsOk, RefsOk, OneLooker, ItemOk, RequestOk, ApartFromItems, Reads;
    forall f | f in Apply(w, a).refs ensures Reads(Apply(w, a), f) {
      StaysRead(w, a, f);
    }
  }

  /** A step that finds all files readable leaves them so exactly when it is no commit that comes too late. */
  lemma StepDecides(w: World, a: Action)
    requires Inv(w) && Enabled(w, a) && AllRead(w)
    ensures AllRead(Apply(w, a)) <==> Fits(w, a)
  {
    if a.Swap? {
      SwapDecides(w, a);
    } else if a.Write? {
      WriteDecides(w, a);
    } else {
      OtherStepsKeepRead(w, a);
    }
  }

  // ----- whole runs -----

  predicate IsRun(ws: seq<World>, actions: seq<Action>) {
    && |ws| == |actions| + 1
    && forall i | 0 <= i < |actions| :: Enabled(ws[i], actions[i]) && ws[i + 1] == Apply(ws[i], actions[i])
  }

  /** Files that read what they were given, each on a row and a place of its own, and nobody at work. */
  predicate Initial(w: World) {
    && StoreOk(w) && RowsOk(w) && RefsOk(w) && AllRead(w)
    && w.items == map[] && w.requests == map[]
  }

  lemma {:induction false} RunKeepsInv(ws: seq<World>, actions: seq<Action>, i: nat)
    requires IsRun(ws, actions) && Initial(ws[0]) && i < |ws|
    ensures Inv(ws[i])
  {
    if i > 0 {
      hide Initial, Enabled, Apply, Inv;
      RunKeepsInv(ws, actions, i - 1);
      StepKeepsInv(ws[i - 1], actions[i - 1]);
    }
  }

  lemma {:induction false} FitsKeepRead(ws: seq<World>, actions: seq<Action>, i: nat)
    requires IsRun(ws, actions) && Initial(ws[0]) && i < |ws|
    requires forall k | 0 <= k < i :: Fits(ws[k], actions[k])
    ensures AllRead(ws[i])
  {
    if i > 0 {
      hide Initial, Enabled, Apply, Inv, Fits, AllRead;
      FitsKeepRead(ws, actions, i - 1);
      RunKeepsInv(ws, actions, i - 1);
      StepDecides(ws[i - 1], actions[i - 1]);
    }
  }

  /** Over every run of any number of migrations and replacements: all files read what they were last given, in content
      and size, at every moment if and only if every swap finds the row it has copied and every replacement a live
      one. */
  lemma ReadableWhileCommitsFit(ws: seq<World>, actions: seq<Action>)
    requires IsRun(ws, actions) && Initial(ws[0])
    ensures (forall i | 0 <= i < |ws| :: AllRead(ws[i])) <==> (forall i | 0 <= i < |actions| :: Fits(ws[i], actions[i]))
  {
    hide Initial, Enabled, Apply, Inv, Fits, AllRead;
    if forall i | 0 <= i < |actions| :: Fits(ws[i], actions[i]) {
      forall i | 0 <= i < |ws| ensures AllRead(ws[i]) {
        FitsKeepRead(ws, actions, i);
      }
    }
    if forall i | 0 <= i < |ws| :: AllRead(ws[i]) {
      forall i | 0 <= i < |actions| ensures Fits(ws[i], actions[i]) {
        RunKeepsInv(ws, actions, i);
        assert AllRead(ws[i]) && AllRead(ws[i + 1]);
        StepDecides(ws[i], actions[i]);
      }
    }
  }

  // ----- two commits that come too late -----

  ghost predicate Reachable(w: World) {
    exists ws: seq<World>, actions: seq<Action> :: IsRun(ws, actions) && Initial(ws[0]) && ws[|ws| - 1] == w
  }

  lemma RunFurther(ws: seq<World>, actions: seq<Action>, a: Action)
    requires IsRun(ws, actions) && Enabled(ws[|ws| - 1], a)
    ensures IsRun(ws + [Apply(ws[|ws| - 1], a)], actions + [a])
  {
    hide Enabled, Apply;
  }

  lemma Go(w: World, a: Action)
    requires Reachable(w) && Enabled(w, a)
    ensures Reachable(Apply(w, a))
  {
    hide Enabled, Apply, Initial;
    var ws: seq<World>, actions: seq<Action> :| IsRun(ws, actions) && Initial(ws[0]) && ws[|ws| - 1] == w;
    RunFurther(ws, actions, a);
    var (ws', actions') := (ws + [Apply(w, a)], actions + [a]);
    assert IsRun(ws', actions') && ws'[0] == ws[0] && ws'[|ws'| - 1] == Apply(w, a);
  }

  const FIRST := Content(0, 1)
  const SECOND := Content(1, 2)

  /** One file of one byte, on row 0 at place 0. */
  const START := World(map[0 := Row(0, true)], map[0 := 0], map[0 := FIRST], map[0 := FIRST], map[0 := FIRST],
                       map[0 := RowOf(0)], map[], map[])

  lemma Starts()
    ensures Reachable(START)
  {
    assert IsRun([START], []) && Initial([START][0]) && [START][|[START]| - 1] == START;
  }

  /** The file is on a live row whose place holds its first bytes, while it is said to have the size of the second. */
  predicate StaleSize(w: World) {
    && 0 in w.refs && w.refs[0] in w.rows && w.rows[w.refs[0]].live && 0 in w.latest && w.latest[0] == SECOND
    && w.rows[w.refs[0]].loc in w.store && w.store[w.rows[w.refs[0]].loc] == FIRST
    && w.latest[0].size != FIRST.size
  }

  const PLANNED := START.(items := map[0 := Item(0, 0, 0, 1, Planned)], role := START.role[1 := TargetOf(0)])

  const COPIED := PLANNED.(items := map[0 := Item(0, 0, 0, 1, Copied)], store := START.store[1 := FIRST],
                           made := START.made[1 := FIRST])

  const LOOKED := COPIED.(requests := map[0 := Request(0, 0, 0, 2, SECOND, Looked)], store := COPIED.store[2 := SECOND],
                          made := COPIED.made[2 := SECOND], role := PLANNED.role[2 := UploadOf(0)])

  /** The file has been copied, and a replacement is between its look and its write. */
  lemma Looks()
    ensures Reachable(LOOKED)
  {
    Starts();
    assert Enabled(START, Plan(0, 0, 1)) && Apply(START, Plan(0, 0, 1)) == PLANNED;
    assert Enabled(PLANNED, CopyBytes(0)) && Apply(PLANNED, CopyBytes(0)) == COPIED;
    assert Enabled(COPIED, Look(0, 0, 2, SECOND)) && Apply(COPIED, Look(0, 0, 2, SECOND)) == LOOKED;
    hide Enabled, Apply, Reachable;
    Go(START, Plan(0, 0, 1));
    Go(PLANNED, CopyBytes(0));
    Go(COPIED, Look(0, 0, 2, SECOND));
  }

  /** Then the replacement writes and the swap comes: the file is back on its old bytes, with the new size. */
  lemma StaleSwap()
    ensures exists w :: Reachable(w) && StaleSize(w) && !AllRead(w)
  {
    Looks();
    var written := Apply(LOOKED, Write(0));
    var swapped := Apply(written, Swap(0, 1));
    assert Enabled(LOOKED, Write(0)) && Enabled(written, Swap(0, 1));
    assert StaleSize(swapped) && !Reads(swapped, 0);
    hide Enabled, Apply, Reachable, StaleSize, Reads;
    Go(LOOKED, Write(0));
    Go(written, Swap(0, 1));
    StaleHasFile(swapped);
  }

  /** Or the swap comes before the write: the row to be written is deleted, and the new bytes are nobody's. */
  lemma LateWrite()
    ensures exists w :: Reachable(w) && StaleSize(w) && !AllRead(w)
  {
    Looks();
    var swapped := Apply(LOOKED, Swap(0, 1));
    var written := Apply(swapped, Write(0));
    assert Enabled(LOOKED, Swap(0, 1)) && Enabled(swapped, Write(0));
    assert StaleSize(written) && !Reads(written, 0);
    hide Enabled, Apply, Reachable, StaleSize, Reads;
    Go(LOOKED, Swap(0, 1));
    Go(swapped, Write(0));
    StaleHasFile(written);
  }

  lemma StaleHasFile(w: World)
    requires StaleSize(w)
    ensures 0 in w.refs
  {
  }
}
