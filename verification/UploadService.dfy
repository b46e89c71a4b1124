/** Complete, Abort and the janitor sweep as the code runs them: one statement after another, with
    any steps of other requests in between. Every statement that touches the database or the object
    store is one step of UploadProtocol, so what is proved there about all runs applies here. */
module UploadService {
  import opened Fresh
  import opened Wrappers
  import opened GoText
  import opened UploadProtocol

  const MAX_OPERATION_ID_LENGTH := 128

  /** The stable operation id of a completion; old clients get one derived from the upload id. It is refused
      exactly without an upload id or past the length limit. */
  function NormalizeOperationId(uploadId: string, clientOperationId: string): (r: Result<string, Error>)
    ensures r.Ok? <==>
      && TrimSpace(uploadId) != "" && |TrimSpace(clientOperationId)| <= MAX_OPERATION_ID_LENGTH
      && (TrimSpace(clientOperationId) == "" ==> |TrimSpace(uploadId)| + 7 <= MAX_OPERATION_ID_LENGTH)
    ensures r.Err? ==> r.error == InvalidArgument
    ensures r.Ok? ==> r.value == if TrimSpace(clientOperationId) == "" then "upload:" + TrimSpace(uploadId)
            else TrimSpace(clientOperationId)
  {
    if TrimSpace(uploadId) == "" then Err(InvalidArgument)
    else
      var given := TrimSpace(clientOperationId);
      var operationId := if given == "" then "upload:" + TrimSpace(uploadId) else given;
      if |operationId| > MAX_OPERATION_ID_LENGTH then Err(InvalidArgument) else Ok(operationId)
  }

  /** A derived operation id is never a cleaner's. */
  lemma DerivedIdsAreSafe(uploadId: string, id: SessionId)
    ensures NotCleaners(id, Op("upload:" + uploadId))
  {
    assert ("upload:" + uploadId)[0] == 'u' && AbortOp(id).text[0] == 'i' && JanitorOp(id).text[0] == 'i';
  }

  /** Where one action may leave a completion. */
  predicate CompleteMoves(a: CompleteAction, pc: CompletePc, pc': CompletePc) {
    match a
    case CheckSession(_) => pc'.Claiming? || pc'.Finished?
    case Claim(_, _) => pc'.Claimed? || pc'.Finished?
    case GiveUp(_) => pc'.Releasing?
    case Assemble(_, _) => pc.Claimed? && pc'.Assembled? && pc'.session == pc.session
    case Stat(_) => pc'.Creating? || pc'.Releasing? || (pc'.Finished? && pc'.result.Err?)
    case Create(_, _, _) => pc'.Releasing? || (pc'.Finished? && pc'.result.Ok?)
    case Release(_) => pc.Releasing? && pc' == Finished(Err(pc.cause))
  }

  lemma CompleteMovesOn(w: World, r: RequestId, a: CompleteAction)
    requires CompleteEnabled(w, r, a)
    ensures var w' := CompleteStep(w, r, a);
            r in w'.requests && CompleteMoves(a, w.requests[r].cpc, w'.requests[r].cpc) &&
            w'.requests[r] == w.requests[r].(cpc := w'.requests[r].cpc)
  {
    hide ClaimTakesEffect, CreateTakesEffect, OpFree;
  }

  /** Where one action may leave an abort. */
  predicate AbortMoves(a: AbortAction, pc: AbortPc, pc': AbortPc) {
    match a
    case ClaimAbort(_, _) => pc'.AbortClaimed? || pc'.AbortFinished?
    case FindProvider(found) =>
      if found then pc.AbortClaimed? && (pc'.AbortingParts? <==> pc.session.mode.Multipart?)
          && (pc'.AbortingParts? || pc'.AbortDeleting?)
      else pc'.AbortReleasing?
    case ReleaseAbort(_) => pc' == AbortFinished(false)
    case AbortParts(works) => if works then pc'.AbortDropping? else pc'.AbortDeleting?
    case DeleteObject(_, reportsError) => if reportsError then pc' == AbortFinished(false) else pc'.AbortDropping?
    case DropSession(_) => pc'.AbortFinished?
  }

  /** An abort step moves its own request and no other. */
  predicate AbortMoved(w: World, w': World, r: RequestId, a: AbortAction)
    requires AbortAt(w, r)
  {
    && r in w'.requests && w'.requests[r].Abort? && AbortMoves(a, w.requests[r].apc, w'.requests[r].apc)
    && w'.requests[r] == w.requests[r].(apc := w'.requests[r].apc)
  }

  lemma AbortClaimMoves(w: World, r: RequestId, refused: bool, tx: TxOutcome)
    requires AbortAt(w, r)
    ensures AbortMoved(w, AbortClaimStep(w, r, refused, tx), r, ClaimAbort(refused, tx))
  {
    hide AbortClaimTakesEffect, OpFree, WithOp, CanClaim;
  }

  lemma AbortProviderMoves(w: World, r: RequestId, found: bool)
    requires AbortAt(w, r) && w.requests[r].apc.AbortClaimed?
    ensures AbortMoved(w, AbortProviderStep(w, r, found), r, FindProvider(found))
  {
  }

  lemma AbortPartsMoves(w: World, r: RequestId, works: bool)
    requires AbortAt(w, r) && w.requests[r].apc.AbortingParts?
    ensures AbortMoved(w, AbortPartsStep(w, r, works), r, AbortParts(works))
  {
  }

  lemma AbortDeleteMoves(w: World, r: RequestId, removes: bool, reportsError: bool)
    requires AbortAt(w, r) && w.requests[r].apc.AbortDeleting?
    ensures AbortMoved(w, AbortDeleteStep(w, r, removes, reportsError), r, DeleteObject(removes, reportsError))
  {
  }

  lemma AbortEndMoves(w: World, r: RequestId, works: bool)
    requires AbortAt(w, r)
    ensures AbortMoved(w, AbortReleaseStep(w, r, works), r, ReleaseAbort(works))
    ensures AbortMoved(w, AbortDropStep(w, r, works), r, DropSession(works))
  {
    hide HoldsClaim, ClearOp, DropClaimed;
  }

  lemma AbortMovesOn(w: World, r: RequestId, a: AbortAction)
    requires AbortEnabled(w, r, a)
    ensures AbortMoved(w, AbortStep(w, r, a), r, a)
  {
    hide AbortMoved, AbortClaimStep, AbortProviderStep, AbortPartsStep, AbortDeleteStep, AbortReleaseStep,
         AbortDropStep;
    match a
    case ClaimAbort(refused, tx) => AbortClaimMoves(w, r, refused, tx);
    case FindProvider(found) => AbortProviderMoves(w, r, found);
    case ReleaseAbort(works) => AbortEndMoves(w, r, works);
    case AbortParts(works) => AbortPartsMoves(w, r, works);
    case DeleteObject(removes, reportsError) => AbortDeleteMoves(w, r, removes, reportsError);
    case DropSession(works) => AbortEndMoves(w, r, works);
  }

  /** Where one action may leave the sweep of one session. */
  predicate SweepMoves(a: SweepAction, pc: SweepPc, pc': SweepPc) {
    match a
    case ClaimExpired(_) => pc'.SweepClaimed? || pc'.SweepFinished?
    case FindSweepProvider(_) => pc'.SweepDeleting? || pc'.SweepFinished?
    case SweepObject(_, _) => pc'.SweepDropping? || pc'.SweepFinished?
    case SweepSession(_) => pc'.SweepFinished?
  }

  /** A sweep step moves its own request and no other. */
  predicate SweepMoved(w: World, w': World, r: RequestId, a: SweepAction)
    requires SweepAt(w, r)
  {
    && r in w'.requests && w'.requests[r].Sweep? && SweepMoves(a, w.requests[r].spc, w'.requests[r].spc)
    && w'.requests[r] == w.requests[r].(spc := w'.requests[r].spc)
  }

  lemma SweepClaimMoves(w: World, r: RequestId, refused: bool)
    requires SweepAt(w, r)
    ensures SweepMoved(w, SweepClaimStep(w, r, refused), r, ClaimExpired(refused))
  {
    hide CanClaimForCleanup;
  }

  lemma SweepProviderMoves(w: World, r: RequestId, found: bool)
    requires SweepAt(w, r) && w.requests[r].spc.SweepClaimed?
    ensures SweepMoved(w, SweepProviderStep(w, r, found), r, FindSweepProvider(found))
  {
  }

  lemma SweepDeleteMoves(w: World, r: RequestId, removes: bool, reportsError: bool)
    requires SweepAt(w, r) && w.requests[r].spc.SweepDeleting?
    ensures SweepMoved(w, SweepDeleteStep(w, r, removes, reportsError), r, SweepObject(removes, reportsError))
  {
  }

  lemma SweepDropMoves(w: World, r: RequestId, works: bool)
    requires SweepAt(w, r)
    ensures SweepMoved(w, SweepDropStep(w, r, works), r, SweepSession(works))
  {
    hide DropClaimed;
  }

  lemma SweepMovesOn(w: World, r: RequestId, a: SweepAction)
    requires SweepEnabled(w, r, a)
    ensures SweepMoved(w, SweepStep(w, r, a), r, a)
  {
    hide SweepMoved, SweepClaimStep, SweepProviderStep, SweepDeleteStep, SweepDropStep;
    match a
    case ClaimExpired(refused) => SweepClaimMoves(w, r, refused);
    case FindSweepProvider(found) => SweepProviderMoves(w, r, found);
    case SweepObject(removes, reportsError) => SweepDeleteMoves(w, r, removes, reportsError);
    case SweepSession(works) => SweepDropMoves(w, r, works);
  }

  class UploadSessionUseCase {
    /** The session table, the object store and the history of what happened to them. */
    var world: World

    constructor ()
      ensures world == EMPTY && Inv(world)
    {
      world := EMPTY;
    }

    /** Any number of steps of other requests; request r itself stays where it is. */
    method OthersRun(r: RequestId)
      requires Inv(world) && r in world.requests
      modifies this
      ensures Inv(world) && Extends(old(world), world)
      ensures r in world.requests && world.requests[r] == old(world.requests[r])
    {
      hide Inv, Extends, Run, RunEnabled, OfOthers;
      var run: seq<Action> := *;
      if RunEnabled(world, run) && OfOthers(run, r) {
        RunOfOthers(world, run, r);
        world := Run(world, run);
      } else {
        ExtendsItself(world);
      }
    }

    /** One atomic step of a completion. */
    method CompleteDo(r: RequestId, a: CompleteAction) returns (pc: CompletePc)
      requires Inv(world) && CompleteEnabled(world, r, a)
      modifies this
      ensures world == CompleteStep(old(world), r, a) && Inv(world) && Extends(old(world), world)
      ensures r in world.requests && world.requests[r] == old(world.requests[r]).(cpc := pc)
      ensures CompleteMoves(a, old(world.requests[r].cpc), pc)
    {
      hide Inv, CompleteEnabled, CompleteStep, CompleteMoves, Extends;
      CompleteStepKeepsInv(world, r, a);
      CompleteExtends(world, r, a);
      CompleteMovesOn(world, r, a);
      world := CompleteStep(world, r, a);
      pc := world.requests[r].cpc;
    }

    /** One atomic step of an abort. */
    method AbortDo(r: RequestId, a: AbortAction) returns (pc: AbortPc)
      requires Inv(world) && AbortEnabled(world, r, a)
      modifies this
      ensures world == AbortStep(old(world), r, a) && Inv(world) && Extends(old(world), world)
      ensures r in world.requests && world.requests[r] == old(world.requests[r]).(apc := pc)
      ensures AbortMoves(a, old(world.requests[r].apc), pc)
    {
      hide Inv, AbortEnabled, AbortStep, AbortMoves, Extends;
      AbortStepKeepsInv(world, r, a);
      AbortExtends(world, r, a);
      AbortMovesOn(world, r, a);
      world := AbortStep(world, r, a);
      pc := world.requests[r].apc;
    }

    /** One atomic step of the sweep of one session. */
    method SweepDo(r: RequestId, a: SweepAction) returns (pc: SweepPc)
      requires Inv(world) && SweepEnabled(world, r, a)
      modifies this
      ensures world == SweepStep(old(world), r, a) && Inv(world) && Extends(old(world), world)
      ensures r in world.requests && world.requests[r] == old(world.requests[r]).(spc := pc)
      ensures SweepMoves(a, old(world.requests[r].spc), pc)
    {
      hide Inv, SweepEnabled, SweepStep, SweepMoves, Extends;
      SweepStepKeepsInv(world, r, a);
      SweepExtends(world, r, a);
      SweepMovesOn(world, r, a);
      world := SweepStep(world, r, a);
      pc := world.requests[r].spc;
    }

    method Begin(r: RequestId, request: Request)
      requires Inv(world) && r !in world.requests && FreshRequest(request) && Safe(ByClient(Start(r, request)))
      modifies this
      ensures Inv(world) && Extends(old(world), world) && r in world.requests && world.requests[r] == request
    {
      StartKeepsInv(world, r, request);
      hide Inv;
      world := ClientStep(world, Start(r, request));
    }

    /** claimCompletion. */
    method ClaimCompletion(r: RequestId) returns (pc: CompletePc)
      requires Inv(world) && CompleteAt(world, r) && world.requests[r].cpc.Claiming?
      modifies this
      ensures Inv(world) && r in world.requests && world.requests[r] == old(world.requests[r]).(cpc := pc)
      ensures pc.Claimed? || pc.Finished?
      ensures pc.Claimed? ==>
                var q := old(world.requests[r]);
                HoldsClaim(world.rows, q.id, q.op) && pc.session == world.rows[q.id] && pc.session.actor == q.actor
    {
      hide Inv, Extends;
      OthersRun(r);
      var fault: Option<Error>, tx: TxOutcome := *, *;
      ghost var before := world;
      pc := CompleteDo(r, Claim(fault, tx));
      if pc.Claimed? { ClaimedMeans(before, r, fault, tx); }
    }

    /** The transaction that creates the node and writes the receipt. */
    method CreateNodeWithReceipt(r: RequestId) returns (pc: CompletePc)
      requires Inv(world) && CompleteAt(world, r) && world.requests[r].cpc.Creating?
      modifies this
      ensures Inv(world) && r in world.requests && world.requests[r] == old(world.requests[r]).(cpc := pc)
      ensures pc.Releasing? || (pc.Finished? && pc.result.Ok?)
      ensures pc.Finished? ==>
                var q := old(world.requests[r]);
                q.id in world.log && world.log[q.id] == Commit(pc.result.value, q.actor, q.op)
    {
      hide Inv, Extends, CompleteStep;
      OthersRun(r);
      var fault: Option<Error>, tx: TxOutcome := *, *;
      FreshId(world.nodes.Keys);
      var node :| node != 0 && node !in world.nodes;
      pc := CompleteDo(r, Create(fault, node, tx));
      if pc.Finished? { SuccessMeans(world, r); }
    }

    /** releaseOperationClaim. */
    method ReleaseOperationClaim(r: RequestId) returns (pc: CompletePc, works: bool)
      requires Inv(world) && CompleteAt(world, r) && world.requests[r].cpc.Releasing?
      modifies this
      ensures Inv(world) && r in world.requests && world.requests[r] == old(world.requests[r]).(cpc := pc)
      ensures pc == Finished(Err(old(world.requests[r].cpc.cause)))
      ensures works ==> !HoldsClaim(world.rows, old(world.requests[r].id), old(world.requests[r].op))
    {
      hide Inv, Extends;
      OthersRun(r);
      works := *;
      pc := CompleteDo(r, Release(works));
    }

    method Preflight(r: RequestId) returns (pc: CompletePc)
      requires Inv(world) && CompleteAt(world, r) && world.requests[r].cpc.Preflight?
      modifies this
      ensures Inv(world) && r in world.requests && world.requests[r] == old(world.requests[r]).(cpc := pc)
      ensures pc.Claiming? || pc.Finished?
    {
      hide Inv, Extends, CompleteStep;
      OthersRun(r);
      var fault: Option<Error> := *;
      pc := CompleteDo(r, CheckSession(fault));
    }

    /** Complete under a fresh request token. A returned node is the one node of the session, its
        object is stored, and the receipt carries this actor and operation id. */
    method Complete(r: RequestId, actor: Actor, uploadId: string, clientOperationId: string)
      returns (result: Result<NodeId, Error>)
      requires Inv(world) && r !in world.requests
      requires NotCleaners(SessionId(TrimSpace(uploadId)), Op(TrimSpace(clientOperationId)))
      modifies this
      ensures Inv(world)
      ensures match NormalizeOperationId(uploadId, clientOperationId)
              case Err(e) => result == Err(e) && world == old(world)
              case Ok(op) =>
                && r in world.requests
                && world.requests[r] ==
                   UploadProtocol.Complete(actor, SessionId(TrimSpace(uploadId)), Op(op), Finished(result))
      ensures result.Ok? ==>
                var id, op := SessionId(TrimSpace(uploadId)), NormalizeOperationId(uploadId, clientOperationId);
                && op.Ok? && id in world.log && world.log[id] == Commit(result.value, actor, Op(op.value))
                && id in world.issued && world.issued[id] in world.objects
                && result.value in world.nodes && world.nodes[result.value] == world.issued[id]
    {
      var op := NormalizeOperationId(uploadId, clientOperationId);
      if op.Err? { return Err(op.error); }
      DerivedIdsAreSafe(TrimSpace(uploadId), SessionId(TrimSpace(uploadId)));
      hide Inv, Extends, NormalizeOperationId, NotCleaners;
      Begin(r, UploadProtocol.Complete(actor, SessionId(TrimSpace(uploadId)), Op(op.value), CompletePc.Preflight));
      var pc := Preflight(r);
      if pc.Claiming? { pc := ClaimCompletion(r); }
      if pc.Claimed? { pc := FinishObject(r); }
      if pc.Creating? { pc := CreateNodeWithReceipt(r); }
      if pc.Releasing? {
        var released: bool;
        pc, released := ReleaseOperationClaim(r);
      }
      result := pc.result;
      if result.Ok? { SuccessMeans(world, r); }
    }

    /** The part of Complete that touches the object store. It goes on only with the object stored at the
        recorded size; only a multipart upload whose assembly failed may end here with its claim kept; every
        other exit goes through the release. */
    method FinishObject(r: RequestId) returns (pc: CompletePc)
      requires Inv(world) && CompleteAt(world, r) && world.requests[r].cpc.Claimed?
      modifies this
      ensures Inv(world) && r in world.requests && world.requests[r] == old(world.requests[r]).(cpc := pc)
      ensures pc.Creating? || pc.Releasing? || pc == Finished(Err(Failure))
      ensures var session := old(world.requests[r].cpc.session);
              && (pc.Creating? ==>
                    && pc.session == session && session.key in world.objects
                    && world.objects[session.key] == session.size)
              && (pc.Finished? ==> session.mode.Multipart?)
    {
      hide Inv, Extends;
      OthersRun(r);
      var refusal: Option<Error> := *;
      if refusal.Some? {
        pc := CompleteDo(r, GiveUp(refusal.value));
        return;
      }
      var effect: Option<nat>, reportsError: bool := *, *;
      if world.requests[r].cpc.session.mode.Single? { effect := None; }
      pc := CompleteDo(r, Assemble(effect, reportsError));
      OthersRun(r);
      var reachable: bool := *;
      pc := CompleteDo(r, Stat(reachable));
    }

    /** Abort under a fresh request token. It reports success only for a session that was committed
        (and is left alone) or whose row is gone for good. */
    method Abort(r: RequestId, actor: Actor, id: SessionId) returns (ok: bool)
      requires Inv(world) && r !in world.requests
      modifies this
      ensures Inv(world)
      ensures r in world.requests && world.requests[r] == UploadProtocol.Abort(actor, id, AbortFinished(ok))
      ensures ok ==> id in world.log || (id in world.cleaning && id !in world.rows)
    {
      hide Inv, Extends, AbortStep;
      Begin(r, UploadProtocol.Abort(actor, id, AbortClaiming));
      OthersRun(r);
      var refused: bool, tx: TxOutcome := *, *;
      var pc := AbortDo(r, ClaimAbort(refused, tx));
      if pc.AbortClaimed? { pc := CleanUp(r); }
      ok := pc.ok;
      if ok { AbortMeans(world, r); }
    }

    /** What Abort does with the claim it owns. */
    method CleanUp(r: RequestId) returns (pc: AbortPc)
      requires Inv(world) && AbortAt(world, r) && world.requests[r].apc.AbortClaimed?
      modifies this
      ensures Inv(world) && r in world.requests && world.requests[r] == old(world.requests[r]).(apc := pc)
      ensures pc.AbortFinished?
    {
      hide Inv, Extends, AbortStep;
      OthersRun(r);
      var found: bool := *;
      pc := AbortDo(r, FindProvider(found));
      var works: bool := *;
      OthersRun(r);
      if pc.AbortReleasing? {
        pc := AbortDo(r, ReleaseAbort(works));
        return;
      }
      if pc.AbortingParts? {
        pc := AbortDo(r, AbortParts(works));
        OthersRun(r);
      }
      if pc.AbortDeleting? {
        var removes: bool, reportsError: bool := *, *;
        pc := AbortDo(r, DeleteObject(removes, reportsError));
        OthersRun(r);
      }
      if pc.AbortDropping? {
        var dropped: bool := *;
        pc := AbortDo(r, DropSession(dropped));
      }
    }

    /** One atomic step of a sweep after any steps of other requests. */
    method SweepStage(r: RequestId, a: SweepAction, ghost start: World) returns (pc: SweepPc)
      requires Inv(world) && SweepEnabled(world, r, a) && Extends(start, world)
      modifies this
      ensures Inv(world) && Extends(start, world)
      ensures r in world.requests && world.requests[r] == old(world.requests[r]).(spc := pc)
      ensures SweepMoves(a, old(world.requests[r].spc), pc)
    {
      hide Inv, Extends, SweepStep, SweepMoves;
      ghost var before := world;
      OthersRun(r);
      ExtendsTransitive(start, before, world);
      ghost var between := world;
      pc := SweepDo(r, a);
      ExtendsTransitive(start, between, world);
    }

    /** The janitor's work on one session that was listed as pending. */
    method SweepPending(id: SessionId) returns (r: RequestId)
      requires Inv(world)
      modifies this
      ensures Inv(world) && Extends(old(world), world)
      ensures r !in old(world.requests) && r in world.requests && world.requests[r] == Sweep(id, SweepFinished)
    {
      hide Inv, Extends;
      ghost var start := world;
      FreshId(world.requests.Keys);
      r :| r !in world.requests;
      Begin(r, Sweep(id, SweepClaiming));
      var refused: bool, found: bool, removes: bool, reportsError: bool, works: bool := *, *, *, *, *;
      var pc := SweepStage(r, ClaimExpired(refused), start);
      if pc.SweepClaimed? { pc := SweepStage(r, FindSweepProvider(found), start); }
      if pc.SweepDeleting? { pc := SweepStage(r, SweepObject(removes, reportsError), start); }
      if pc.SweepDropping? { pc := SweepStage(r, SweepSession(works), start); }
    }

    /** The janitor's work on one session that was listed as committed: the guard looks again. */
    method SweepCommitted(id: SessionId)
      requires Inv(world)
      modifies this
      ensures Inv(world) && Extends(old(world), world)
      ensures world == old(world).(rows := if id in old(world.rows) && old(world.rows)[id].status.Committed?
                                           then old(world.rows) - {id} else old(world.rows))
    {
      if id in world.rows && world.rows[id].status.Committed? {
        ExpireReceiptKeepsInv(world, id);
        hide Inv;
        world := world.(rows := world.rows - {id});
      }
    }

    /** sweepExpired over a listing that may be out of date by the time each entry is handled.
        Whatever was committed before keeps its node and its object. */
    method SweepExpired(listed: seq<(SessionId, bool)>)
      requires Inv(world)
      modifies this
      ensures Inv(world)
      ensures forall id <- old(world.log) ::
                && id in world.log && world.log[id] == old(world.log[id])
                && id in world.issued && world.issued[id] == old(world).issued[id] && world.issued[id] in world.objects
    {
      ghost var start := world;
      for i := 0 to |listed|
        invariant Inv(world) && Extends(start, world)
      {
        hide Inv, Extends;
        ghost var before := world;
        if listed[i].1 { SweepCommitted(listed[i].0); } else { var _ := SweepPending(listed[i].0); }
        ExtendsTransitive(start, before, world);
      }
      forall id <- start.log ensures id in start.issued && id in world.issued && world.issued[id] in world.objects {
        assert ViewOk(id, ViewOf(world, id)) by { hide RequestsOk, OneHolder, IndexOk; }
      }
    }
  }

  /** Claimed: the row now carries this actor's operation id. */
  lemma ClaimedMeans(w: World, r: RequestId, fault: Option<Error>, tx: TxOutcome)
    requires CompleteEnabled(w, r, Claim(fault, tx)) && ClaimStep(w, r, fault, tx).requests[r].cpc.Claimed?
    ensures var (q, w') := (w.requests[r], ClaimStep(w, r, fault, tx));
            && HoldsClaim(w'.rows, q.id, q.op) && w'.rows[q.id].actor == q.actor
            && w'.requests[r].cpc.session == w'.rows[q.id]
  {
    hide OpFree;
  }

  lemma AbortMeans(w: World, r: RequestId)
    requires Inv(w) && AbortAt(w, r) && w.requests[r].apc == AbortFinished(true)
    ensures w.requests[r].id in w.log || (w.requests[r].id in w.cleaning && w.requests[r].id !in w.rows)
  {
    hide RequestsOk, OneHolder, IndexOk, NodesOk;
    AtSession(w, r);
  }

  lemma SuccessMeans(w: World, r: RequestId)
    requires Inv(w) && CompleteAt(w, r) && w.requests[r].cpc.Finished? && w.requests[r].cpc.result.Ok?
    ensures var q, node := w.requests[r], w.requests[r].cpc.result.value;
            && q.id in w.log && w.log[q.id] == Commit(node, q.actor, q.op)
            && q.id in w.issued && w.issued[q.id] in w.objects
            && node in w.nodes && w.nodes[node] == w.issued[q.id]
  {
    hide RequestsOk, OneHolder, IndexOk;
    AtSession(w, r);
  }
}
