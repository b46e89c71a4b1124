/** The upload session protocol as an interleaved step system.

  One World holds the rows of the session table, the object store, the file nodes that
  completions created, and one program counter per request. Every transaction body, every
  single SQL statement and every object store call is one atomic step; between two of them
  any other request may run. No clock is modelled: an expiry check may go either way, so the
  janitor may claim any pending row at any moment.

  `log`, `cleaning`, `issued` and `keys` are history: they only record what happened. */
module UploadProtocol {
  import opened Wrappers

  datatype SessionId = SessionId(uuid: string)
  datatype Key = Key(path: string)
  datatype Actor = Actor(id: string)
  type NodeId = nat
  type RequestId = nat

  /** What client_operation_id holds: the text that says who owns a claim. */
  datatype Op = Op(text: string)

  datatype Error = InvalidArgument | NotFound | Conflict | Expired | Failure

  datatype Mode = Single | Multipart

  /** A committed row stores the node id twice: in a column and inside the receipt document. */
  datatype Status = Pending | Committed(completedNodeId: NodeId, receiptNodeId: NodeId)

  /** One row of upload_sessions; `op` is client_operation_id. */
  datatype Row = Row(actor: Actor, key: Key, size: nat, mode: Mode, status: Status, op: Option<Op>)

  /** What a completion wrote, kept after the receipt row is gone. */
  datatype Commit = Commit(node: NodeId, actor: Actor, op: Op)

  /** How a transaction ends. LostAck: the commit took effect but an error was reported. */
  datatype TxOutcome = Acked | LostAck | RolledBack

  /** Program counter of Complete. */
  datatype CompletePc =
    | Preflight
    | Claiming
    | Claimed(session: Row)
    | Assembled(session: Row, completeErr: bool)
    | Creating(session: Row)
    | Releasing(cause: Error)
    | Finished(result: Result<NodeId, Error>)

  /** Program counter of Abort. */
  datatype AbortPc =
    | AbortClaiming
    | AbortClaimed(session: Row)
    | AbortReleasing
    | AbortingParts(session: Row)
    | AbortDeleting(session: Row)
    | AbortDropping
    | AbortFinished(ok: bool)

  /** Program counter of the janitor's work on one listed pending session. */
  datatype SweepPc =
    | SweepClaiming
    | SweepClaimed(session: Row)
    | SweepDeleting(session: Row)
    | SweepDropping
    | SweepFinished

  datatype Request =
    | Complete(actor: Actor, id: SessionId, op: Op, cpc: CompletePc)
    | Abort(actor: Actor, id: SessionId, apc: AbortPc)
    | Sweep(id: SessionId, spc: SweepPc)

  datatype World = World(
    rows: map<SessionId, Row>,
    objects: map<Key, nat>,
    nodes: map<NodeId, Key>,
    requests: map<RequestId, Request>,
    issued: map<SessionId, Key>,
    keys: map<Key, SessionId>,
    log: map<SessionId, Commit>,
    cleaning: set<SessionId>)

  const EMPTY: World := World(map[], map[], map[], map[], map[], map[], map[], {})

  // ----- operation ids -----

  /** The text Abort claims a session with. */
  function AbortOp(id: SessionId): Op {
    Op("internal:abort:" + id.uuid)
  }

  /** The text the janitor claims a session with. */
  function JanitorOp(id: SessionId): (op: Op)
    ensures op != AbortOp(id)
  {
    assert ("internal:janitor:" + id.uuid)[9] == 'j' && ("internal:abort:" + id.uuid)[9] == 'a';
    Op("internal:janitor:" + id.uuid)
  }

  /** The text is not one that a cleaner of this session uses. The code does not check this of a client. */
  predicate NotCleaners(id: SessionId, op: Op) {
    op != AbortOp(id) && op != JanitorOp(id)
  }

  /** Cleaners of different sessions, and of different kinds, use different texts. */
  lemma OpTextsStayApart(a: SessionId, b: SessionId)
    ensures AbortOp(a) == AbortOp(b) <==> a == b
    ensures JanitorOp(a) == JanitorOp(b) <==> a == b
    ensures AbortOp(a) != JanitorOp(b)
  {
    assert AbortOp(a).text[15..] == a.uuid && AbortOp(b).text[15..] == b.uuid;
    assert JanitorOp(a).text[17..] == a.uuid && JanitorOp(b).text[17..] == b.uuid;
    assert AbortOp(a).text[9] == 'a' && JanitorOp(b).text[9] == 'j';
  }

  /** Exactly the texts under these two prefixes are some cleaner's. */
  lemma SafeClientTexts(text: string)
    ensures (forall id: SessionId :: NotCleaners(id, Op(text)))
      <==> !("internal:abort:" <= text) && !("internal:janitor:" <= text)
  {
    if "internal:abort:" <= text {
      assert AbortOp(SessionId(text[15..])) == Op(text);
      assert !NotCleaners(SessionId(text[15..]), Op(text));
    }
    if "internal:janitor:" <= text {
      assert JanitorOp(SessionId(text[17..])) == Op(text);
      assert !NotCleaners(SessionId(text[17..]), Op(text));
    }
  }

  // ----- the session table: single statements with their WHERE clauses -----

  /** The unique index on (actor_id, client_operation_id). */
  predicate OpFree(rows: map<SessionId, Row>, id: SessionId, actor: Actor, op: Op) {
    forall other <- rows :: other != id ==> rows[other].actor != actor || rows[other].op != Some(op)
  }

  predicate CanClaim(rows: map<SessionId, Row>, id: SessionId, op: Op) {
    id in rows && rows[id].status == Pending && rows[id].op == None && OpFree(rows, id, rows[id].actor, op)
  }

  predicate CanClaimForCleanup(rows: map<SessionId, Row>, id: SessionId, op: Op) {
    id in rows && rows[id].status == Pending && OpFree(rows, id, rows[id].actor, op)
  }

  predicate HoldsClaim(rows: map<SessionId, Row>, id: SessionId, op: Op) {
    id in rows && rows[id].status == Pending && rows[id].op == Some(op)
  }

  function WithOp(rows: map<SessionId, Row>, id: SessionId, op: Option<Op>): map<SessionId, Row>
    requires id in rows
  {
    rows[id := rows[id].(op := op)]
  }

  function ClearOp(rows: map<SessionId, Row>, id: SessionId, op: Op): map<SessionId, Row> {
    if HoldsClaim(rows, id, op) then WithOp(rows, id, None) else rows
  }

  function DropClaimed(rows: map<SessionId, Row>, id: SessionId, op: Op): map<SessionId, Row> {
    if HoldsClaim(rows, id, op) then rows - {id} else rows
  }

  /** The receipt is replayed only when its document and its column name the same nonzero node. */
  function DecodeReceipt(row: Row): Result<NodeId, Error> {
    if !row.status.Committed? then Err(Conflict)
    else if row.status.receiptNodeId == 0 || row.status.receiptNodeId != row.status.completedNodeId then Err(Conflict)
    else Ok(row.status.receiptNodeId)
  }

  // ----- steps -----

  datatype ClientAction =
    | Init(newId: SessionId, actor: Actor, newKey: Key, size: nat, mode: Mode)
    | Put(id: SessionId, putSize: nat)
    | Start(r: RequestId, request: Request)

  datatype CompleteAction =
    | CheckSession(fault: Option<Error>)
    | Claim(fault: Option<Error>, tx: TxOutcome)
    | GiveUp(cause: Error)
    | Assemble(effect: Option<nat>, reportsError: bool)
    | Stat(reachable: bool)
    | Create(fault: Option<Error>, node: NodeId, tx: TxOutcome)
    | Release(works: bool)

  datatype AbortAction =
    | ClaimAbort(refused: bool, tx: TxOutcome)
    | FindProvider(found: bool)
    | ReleaseAbort(works: bool)
    | AbortParts(works: bool)
    | DeleteObject(removes: bool, reportsError: bool)
    | DropSession(works: bool)

  datatype SweepAction =
    | ClaimExpired(refused: bool)
    | FindSweepProvider(found: bool)
    | SweepObject(removes: bool, reportsError: bool)
    | SweepSession(works: bool)

  datatype Action =
    | ByClient(client: ClientAction)
    | ByComplete(r: RequestId, complete: CompleteAction)
    | ByAbort(r: RequestId, abort: AbortAction)
    | BySweep(r: RequestId, sweep: SweepAction)
    | ExpireReceipt(id: SessionId)

  predicate CompleteAt(w: World, r: RequestId) {
    r in w.requests && w.requests[r].Complete?
  }

  predicate AbortAt(w: World, r: RequestId) {
    r in w.requests && w.requests[r].Abort?
  }

  predicate SweepAt(w: World, r: RequestId) {
    r in w.requests && w.requests[r].Sweep?
  }

  predicate FreshRequest(req: Request) {
    match req
    case Complete(_, _, _, pc) => pc.Preflight?
    case Abort(_, _, pc) => pc.AbortClaiming?
    case Sweep(_, pc) => pc.SweepClaiming?
  }

  predicate ClientEnabled(w: World, a: ClientAction) {
    match a
    case Init(id, _, key, _, _) => id !in w.issued && key !in w.keys
    case Put(id, _) => id in w.issued
    case Start(r, request) => r !in w.requests && FreshRequest(request)
  }

  predicate CompleteEnabled(w: World, r: RequestId, a: CompleteAction) {
    CompleteAt(w, r) &&
    match a
    case CheckSession(_) => w.requests[r].cpc.Preflight?
    case Claim(_, _) => w.requests[r].cpc.Claiming?
    case GiveUp(_) => w.requests[r].cpc.Claimed?
    case Assemble(effect, _) => w.requests[r].cpc.Claimed? && (w.requests[r].cpc.session.mode.Single? ==> effect.None?)
    case Stat(_) => w.requests[r].cpc.Assembled?
    case Create(_, node, _) => w.requests[r].cpc.Creating? && node != 0 && node !in w.nodes
    case Release(_) => w.requests[r].cpc.Releasing?
  }

  predicate AbortEnabled(w: World, r: RequestId, a: AbortAction) {
    AbortAt(w, r) &&
    match a
    case ClaimAbort(_, _) => w.requests[r].apc.AbortClaiming?
    case FindProvider(_) => w.requests[r].apc.AbortClaimed?
    case ReleaseAbort(_) => w.requests[r].apc.AbortReleasing?
    case AbortParts(_) => w.requests[r].apc.AbortingParts?
    case DeleteObject(_, _) => w.requests[r].apc.AbortDeleting?
    case DropSession(_) => w.requests[r].apc.AbortDropping?
  }

  predicate SweepEnabled(w: World, r: RequestId, a: SweepAction) {
    SweepAt(w, r) &&
    match a
    case ClaimExpired(_) => w.requests[r].spc.SweepClaiming?
    case FindSweepProvider(_) => w.requests[r].spc.SweepClaimed?
    case SweepObject(_, _) => w.requests[r].spc.SweepDeleting?
    case SweepSession(_) => w.requests[r].spc.SweepDropping?
  }

  predicate Enabled(w: World, a: Action) {
    match a
    case ByClient(c) => ClientEnabled(w, c)
    case ByComplete(r, c) => CompleteEnabled(w, r, c)
    case ByAbort(r, b) => AbortEnabled(w, r, b)
    case BySweep(r, b) => SweepEnabled(w, r, b)
    case ExpireReceipt(id) => id in w.rows && w.rows[id].status.Committed?
  }

  /** A new request is no Complete that comes with a cleaner's text of its own session. */
  predicate Safe(a: Action) {
    a.ByClient? && a.client.Start? && a.client.request.Complete? ==>
      NotCleaners(a.client.request.id, a.client.request.op)
  }

  function AtC(w: World, r: RequestId, pc: CompletePc): World
    requires CompleteAt(w, r)
  {
    w.(requests := w.requests[r := w.requests[r].(cpc := pc)])
  }

  function AtA(w: World, r: RequestId, pc: AbortPc): World
    requires AbortAt(w, r)
  {
    w.(requests := w.requests[r := w.requests[r].(apc := pc)])
  }

  function AtS(w: World, r: RequestId, pc: SweepPc): World
    requires SweepAt(w, r)
  {
    w.(requests := w.requests[r := w.requests[r].(spc := pc)])
  }

  /** No request but r has moved. */
  predicate OnlyMoves(w: World, w': World, r: RequestId) {
    r in w'.requests && w'.requests == w.requests[r := w'.requests[r]]
  }

  /** Request r has moved; history is as before, except that cleaning may have begun. */
  predicate QuietStep(w: World, w': World, r: RequestId) {
    && OnlyMoves(w, w', r)
    && w'.issued == w.issued && w'.log == w.log && w'.nodes == w.nodes && w.cleaning <= w'.cleaning
  }

  /** loadOwnedSession and the checks that precede the claim. */
  function PreflightStep(w: World, r: RequestId, fault: Option<Error>): (w': World)
    requires CompleteAt(w, r)
    ensures QuietStep(w, w', r)
  {
    var q := w.requests[r];
    AtC(w, r,
        if fault.Some? then Finished(Err(fault.value))
        else if q.id !in w.rows || w.rows[q.id].actor != q.actor then Finished(Err(NotFound))
        else if w.rows[q.id].status.Committed? then
          if w.rows[q.id].op != Some(q.op) then Finished(Err(Conflict)) else Finished(DecodeReceipt(w.rows[q.id]))
        else Claiming)
  }

  /** The branch of claimCompletion whose UPDATE takes effect (a repeated claim rewrites nothing). */
  predicate ClaimTakesEffect(w: World, q: Request, fault: Option<Error>, tx: TxOutcome) {
    && q.Complete? && fault.None? && tx != RolledBack
    && q.id in w.rows && w.rows[q.id].actor == q.actor && w.rows[q.id].status.Pending?
    && (w.rows[q.id].op == Some(q.op) || CanClaim(w.rows, q.id, q.op))
  }

  /** Where claimCompletion leaves the request. */
  function ClaimVerdict(w: World, q: Request, fault: Option<Error>, tx: TxOutcome): CompletePc
    requires q.Complete?
  {
    if fault.Some? then Finished(Err(fault.value))
    else if q.id !in w.rows || w.rows[q.id].actor != q.actor then Finished(Err(NotFound))
    else
      var row := w.rows[q.id];
      if row.status.Committed? && row.op != Some(q.op) then Finished(Err(Conflict))
      else if row.status.Committed? then if tx == Acked then Finished(DecodeReceipt(row)) else Finished(Err(Failure))
      else if row.op.Some? && row.op != Some(q.op) then Finished(Err(Conflict))
      else if row.op.None? && !CanClaim(w.rows, q.id, q.op) then Finished(Err(Conflict))
      else if tx == Acked then Claimed(row.(op := Some(q.op)))
      else Finished(Err(Failure))
  }

  /** claimCompletion: one transaction around GetForUpdate and ClaimOperation. */
  function ClaimStep(w: World, r: RequestId, fault: Option<Error>, tx: TxOutcome): (w': World)
    requires CompleteAt(w, r)
    ensures QuietStep(w, w', r)
  {
    var q := w.requests[r];
    var w1 := if ClaimTakesEffect(w, q, fault, tx) then w.(rows := WithOp(w.rows, q.id, Some(q.op))) else w;
    AtC(w1, r, ClaimVerdict(w, q, fault, tx))
  }

  /** CompleteMultipartUpload: it may create the object and still report an error. */
  function AssembleStep(w: World, r: RequestId, effect: Option<nat>, reportsError: bool): (w': World)
    requires CompleteAt(w, r) && w.requests[r].cpc.Claimed?
    ensures QuietStep(w, w', r)
  {
    var session := w.requests[r].cpc.session;
    var w1 := if effect.Some? then w.(objects := w.objects[session.key := effect.value]) else w;
    AtC(w1, r, Assembled(session, session.mode.Multipart? && reportsError))
  }

  /** StatObject: the size check that decides whether the object is there. */
  function StatStep(w: World, r: RequestId, reachable: bool): (w': World)
    requires CompleteAt(w, r) && w.requests[r].cpc.Assembled?
    ensures QuietStep(w, w', r)
  {
    var pc := w.requests[r].cpc;
    AtC(w, r,
        if !reachable || pc.session.key !in w.objects then
          if pc.completeErr then Finished(Err(Failure)) else Releasing(InvalidArgument)
        else if w.objects[pc.session.key] != pc.session.size then Releasing(InvalidArgument)
        else Creating(pc.session))
  }

  /** The branch of the second transaction that creates the node and the receipt. */
  predicate CreateTakesEffect(w: World, q: Request, fault: Option<Error>, tx: TxOutcome) {
    && q.Complete? && fault.None? && tx != RolledBack
    && q.id in w.rows && w.rows[q.id].actor == q.actor && w.rows[q.id].op == Some(q.op) && w.rows[q.id].status.Pending?
  }

  /** Where the second transaction leaves the request. */
  function CreateVerdict(w: World, q: Request, fault: Option<Error>, node: NodeId, tx: TxOutcome): CompletePc
    requires q.Complete?
  {
    if q.id !in w.rows || w.rows[q.id].actor != q.actor then Releasing(NotFound)
    else if w.rows[q.id].op != Some(q.op) then Releasing(Conflict)
    else if w.rows[q.id].status.Committed? then
      match DecodeReceipt(w.rows[q.id])
      case Err(e) => Releasing(e)
      case Ok(n) => if tx == Acked then Finished(Ok(n)) else Releasing(Failure)
    else if fault.Some? then Releasing(fault.value)
    else if tx == Acked then Finished(Ok(node))
    else Releasing(Failure)
  }

  /** The second transaction: create the node and turn the row into a receipt. */
  function CreateStep(w: World, r: RequestId, fault: Option<Error>, node: NodeId, tx: TxOutcome): (w': World)
    requires CompleteAt(w, r) && w.requests[r].cpc.Creating?
    ensures OnlyMoves(w, w', r)
  {
    var q := w.requests[r];
    var w1 :=
      if CreateTakesEffect(w, q, fault, tx) then
        w.(rows := w.rows[q.id := w.rows[q.id].(status := Committed(node, node))],
           nodes := w.nodes[node := q.cpc.session.key],
           log := w.log[q.id := Commit(node, q.actor, q.op)])
      else w;
    AtC(w1, r, CreateVerdict(w, q, fault, node, tx))
  }

  function ReleaseStep(w: World, r: RequestId, works: bool): (w': World)
    requires CompleteAt(w, r) && w.requests[r].cpc.Releasing?
    ensures QuietStep(w, w', r)
  {
    var q := w.requests[r];
    var w1 := if works then w.(rows := ClearOp(w.rows, q.id, q.op)) else w;
    AtC(w1, r, Finished(Err(q.cpc.cause)))
  }

  /** The branch of claimAbort whose UPDATE takes effect. */
  predicate AbortClaimTakesEffect(w: World, q: Request, refused: bool, tx: TxOutcome) {
    && q.Abort? && !refused && tx != RolledBack
    && q.id in w.rows && w.rows[q.id].actor == q.actor && CanClaim(w.rows, q.id, AbortOp(q.id))
  }

  /** Where claimAbort leaves the request: a committed session is left alone and reported as success. */
  function AbortClaimVerdict(w: World, q: Request, refused: bool, tx: TxOutcome): AbortPc
    requires q.Abort?
  {
    if refused || q.id !in w.rows || w.rows[q.id].actor != q.actor then AbortFinished(false)
    else if w.rows[q.id].status.Committed? then AbortFinished(tx == Acked)
    else if !CanClaim(w.rows, q.id, AbortOp(q.id)) then AbortFinished(false)
    else if tx == Acked then AbortClaimed(w.rows[q.id].(op := Some(AbortOp(q.id))))
    else AbortFinished(false)
  }

  function AbortClaimStep(w: World, r: RequestId, refused: bool, tx: TxOutcome): (w': World)
    requires AbortAt(w, r)
    ensures QuietStep(w, w', r)
  {
    var q := w.requests[r];
    var w1 := if AbortClaimTakesEffect(w, q, refused, tx) then w.(rows := WithOp(w.rows, q.id, Some(AbortOp(q.id))))
        else w;
    AtA(w1, r, AbortClaimVerdict(w, q, refused, tx))
  }

  function AbortProviderStep(w: World, r: RequestId, found: bool): (w': World)
    requires AbortAt(w, r) && w.requests[r].apc.AbortClaimed?
    ensures QuietStep(w, w', r)
  {
    var q := w.requests[r];
    if !found then AtA(w, r, AbortReleasing)
    else
      AtA(w.(cleaning := w.cleaning + {q.id}), r,
          if q.apc.session.mode.Multipart? then AbortingParts(q.apc.session) else AbortDeleting(q.apc.session))
  }

  function AbortReleaseStep(w: World, r: RequestId, works: bool): (w': World)
    requires AbortAt(w, r)
    ensures QuietStep(w, w', r)
  {
    var q := w.requests[r];
    AtA(if works then w.(rows := ClearOp(w.rows, q.id, AbortOp(q.id))) else w, r, AbortFinished(false))
  }

  function AbortPartsStep(w: World, r: RequestId, works: bool): (w': World)
    requires AbortAt(w, r) && w.requests[r].apc.AbortingParts?
    ensures QuietStep(w, w', r)
  {
    AtA(w, r, if works then AbortDropping else AbortDeleting(w.requests[r].apc.session))
  }

  function AbortDeleteStep(w: World, r: RequestId, removes: bool, reportsError: bool): (w': World)
    requires AbortAt(w, r) && w.requests[r].apc.AbortDeleting?
    ensures QuietStep(w, w', r)
  {
    var key := w.requests[r].apc.session.key;
    AtA(if removes then w.(objects := w.objects - {key}) else w, r,
        if reportsError then AbortFinished(false) else AbortDropping)
  }

  function AbortDropStep(w: World, r: RequestId, works: bool): (w': World)
    requires AbortAt(w, r)
    ensures QuietStep(w, w', r)
  {
    var q := w.requests[r];
    AtA(if works then w.(rows := DropClaimed(w.rows, q.id, AbortOp(q.id))) else w, r,
        AbortFinished(works && HoldsClaim(w.rows, q.id, AbortOp(q.id))))
  }

  /** ClaimExpiredForCleanup overrides any claim on a pending row. */
  function SweepClaimStep(w: World, r: RequestId, refused: bool): (w': World)
    requires SweepAt(w, r)
    ensures QuietStep(w, w', r)
  {
    var q := w.requests[r];
    if refused || !CanClaimForCleanup(w.rows, q.id, JanitorOp(q.id)) then AtS(w, r, SweepFinished)
    else
      var claimed := w.rows[q.id].(op := Some(JanitorOp(q.id)));
      AtS(w.(rows := w.rows[q.id := claimed]), r, SweepClaimed(claimed))
  }

  function SweepProviderStep(w: World, r: RequestId, found: bool): (w': World)
    requires SweepAt(w, r) && w.requests[r].spc.SweepClaimed?
    ensures QuietStep(w, w', r)
  {
    var q := w.requests[r];
    if !found then AtS(w, r, SweepFinished)
    else AtS(w.(cleaning := w.cleaning + {q.id}), r, SweepDeleting(q.spc.session))
  }

  function SweepDeleteStep(w: World, r: RequestId, removes: bool, reportsError: bool): (w': World)
    requires SweepAt(w, r) && w.requests[r].spc.SweepDeleting?
    ensures QuietStep(w, w', r)
  {
    var key := w.requests[r].spc.session.key;
    AtS(if removes then w.(objects := w.objects - {key}) else w, r,
        if reportsError then SweepFinished else SweepDropping)
  }

  function SweepDropStep(w: World, r: RequestId, works: bool): (w': World)
    requires SweepAt(w, r)
    ensures QuietStep(w, w', r)
  {
    var q := w.requests[r];
    AtS(if works then w.(rows := DropClaimed(w.rows, q.id, JanitorOp(q.id))) else w, r, SweepFinished)
  }

  function ClientStep(w: World, a: ClientAction): World
    requires ClientEnabled(w, a)
  {
    match a
    case Init(id, actor, key, size, mode) =>
      w.(rows := w.rows[id := Row(actor, key, size, mode, Pending, None)],
         issued := w.issued[id := key],
         keys := w.keys[key := id])
    case Put(id, size) => w.(objects := w.objects[w.issued[id] := size])
    case Start(r, request) => w.(requests := w.requests[r := request])
  }

  function CompleteStep(w: World, r: RequestId, a: CompleteAction): (w': World)
    requires CompleteEnabled(w, r, a)
    ensures OnlyMoves(w, w', r)
  {
    match a
    case CheckSession(fault) => PreflightStep(w, r, fault)
    case Claim(fault, tx) => ClaimStep(w, r, fault, tx)
    case GiveUp(cause) => AtC(w, r, Releasing(cause))
    case Assemble(effect, reportsError) => AssembleStep(w, r, effect, reportsError)
    case Stat(reachable) => StatStep(w, r, reachable)
    case Create(fault, node, tx) => CreateStep(w, r, fault, node, tx)
    case Release(works) => ReleaseStep(w, r, works)
  }

  function AbortStep(w: World, r: RequestId, a: AbortAction): (w': World)
    requires AbortEnabled(w, r, a)
    ensures OnlyMoves(w, w', r)
  {
    match a
    case ClaimAbort(refused, tx) => AbortClaimStep(w, r, refused, tx)
    case FindProvider(found) => AbortProviderStep(w, r, found)
    case ReleaseAbort(works) => AbortReleaseStep(w, r, works)
    case AbortParts(works) => AbortPartsStep(w, r, works)
    case DeleteObject(removes, reportsError) => AbortDeleteStep(w, r, removes, reportsError)
    case DropSession(works) => AbortDropStep(w, r, works)
  }

  function SweepStep(w: World, r: RequestId, a: SweepAction): (w': World)
    requires SweepEnabled(w, r, a)
    ensures OnlyMoves(w, w', r)
  {
    match a
    case ClaimExpired(refused) => SweepClaimStep(w, r, refused)
    case FindSweepProvider(found) => SweepProviderStep(w, r, found)
    case SweepObject(removes, reportsError) => SweepDeleteStep(w, r, removes, reportsError)
    case SweepSession(works) => SweepDropStep(w, r, works)
  }

  function Apply(w: World, a: Action): World
    requires Enabled(w, a)
  {
    match a
    case ByClient(c) => ClientStep(w, c)
    case ByComplete(r, c) => CompleteStep(w, r, c)
    case ByAbort(r, b) => AbortStep(w, r, b)
    case BySweep(r, b) => SweepStep(w, r, b)
    case ExpireReceipt(id) => w.(rows := w.rows - {id})
  }

  // ----- the invariant -----

  /** Everything the protocol knows about one session. */
  datatype View = View(key: Key, row: Option<Row>, entry: Option<Commit>, cleaning: bool, stored: bool)

  function ViewOf(w: World, id: SessionId): View
    requires id in w.issued
  {
    View(w.issued[id],
         if id in w.rows then Some(w.rows[id]) else None,
         if id in w.log then Some(w.log[id]) else None,
         id in w.cleaning,
         w.issued[id] in w.objects)
  }

  /** No Complete can ever commit this session: its row is gone, or a cleaner owns the claim. */
  predicate OutOfReach(id: SessionId, v: View) {
    v.entry == None &&
    (v.row.Some? ==> v.row.value.status == Pending && v.row.value.op in {Some(AbortOp(id)), Some(JanitorOp(id))})
  }

  predicate OwnedByJanitor(id: SessionId, v: View) {
    v.row.Some? ==> v.row.value.op == Some(JanitorOp(id))
  }

  predicate ViewOk(id: SessionId, v: View) {
    && (v.row.Some? ==>
          var row := v.row.value;
          && row.key == v.key
          && (row.status == Pending <==> v.entry == None)
          && (v.entry.Some? ==>
                && row.status == Committed(v.entry.value.node, v.entry.value.node)
                && row.op == Some(v.entry.value.op) && row.actor == v.entry.value.actor))
    && (v.entry.Some? ==> v.stored && !v.cleaning && v.entry.value.node != 0 && NotCleaners(id, v.entry.value.op))
    && (v.cleaning ==> OutOfReach(id, v))
  }

  /** An Abort that owns its claim and may still give it back. */
  predicate MayRelease(q: Request) {
    q.Abort? && (q.apc.AbortClaimed? || q.apc.AbortReleasing?)
  }

  /** What a request may rely on about its own session. */
  predicate Fits(q: Request, v: View) {
    match q
    case Complete(actor, id, op, pc) =>
      && NotCleaners(id, op)
      && (pc.Claimed? || pc.Assembled? || pc.Creating? ==> pc.session.key == v.key)
      && (pc.Creating? ==> v.cleaning || v.stored)
      && (pc.Finished? && pc.result.Ok? ==> v.entry == Some(Commit(pc.result.value, actor, op)))
    case Abort(_, id, pc) =>
      && (MayRelease(q) ==> OutOfReach(id, v) && (v.cleaning ==> OwnedByJanitor(id, v)))
      && (pc.AbortingParts? || pc.AbortDeleting? || pc.AbortDropping? ==> v.cleaning)
      && (pc == AbortFinished(true) ==> v.entry.Some? || (v.cleaning && v.row == None))
      && (pc.AbortClaimed? || pc.AbortingParts? || pc.AbortDeleting? ==> pc.session.key == v.key)
    case Sweep(id, pc) =>
      && (pc.SweepClaimed? ==> OutOfReach(id, v) && OwnedByJanitor(id, v))
      && (pc.SweepDeleting? ==> v.cleaning)
      && (pc.SweepClaimed? || pc.SweepDeleting? ==> pc.session.key == v.key)
  }

  /** A request whose session was never issued has not got past its first reads. */
  predicate Harmless(q: Request) {
    match q
    case Complete(_, id, op, pc) =>
      NotCleaners(id, op) && (pc.Preflight? || pc.Claiming? || pc.Releasing? || (pc.Finished? && pc.result.Err?))
    case Abort(_, _, pc) => pc.AbortClaiming? || pc == AbortFinished(false)
    case Sweep(_, pc) => pc.SweepClaiming? || pc.SweepFinished?
  }

  predicate RequestOk(w: World, q: Request) {
    if q.id in w.issued then Fits(q, ViewOf(w, q.id)) else Harmless(q)
  }

  predicate TablesOk(w: World) {
    && w.rows.Keys <= w.issued.Keys && w.log.Keys <= w.issued.Keys && w.cleaning <= w.issued.Keys
    && (forall id <- w.issued :: w.issued[id] in w.keys && w.keys[w.issued[id]] == id)
  }

  predicate ViewsOk(w: World) {
    forall id <- w.issued :: ViewOk(id, ViewOf(w, id))
  }

  predicate RequestsOk(w: World) {
    forall r <- w.requests :: RequestOk(w, w.requests[r])
  }

  /** At most one Abort of a session may still give its claim back. */
  predicate OneHolder(requests: map<RequestId, Request>) {
    forall r1 <- requests, r2 <- requests ::
      MayRelease(requests[r1]) && MayRelease(requests[r2]) && requests[r1].id == requests[r2].id ==> r1 == r2
  }

  /** Completion nodes and committed sessions correspond one to one. */
  predicate NodesOk(nodes: map<NodeId, Key>, keys: map<Key, SessionId>, log: map<SessionId, Commit>,
        issued: map<SessionId, Key>) {
    && (forall n <- nodes :: nodes[n] in keys && keys[nodes[n]] in log && log[keys[nodes[n]]].node == n)
    && (forall id <- log :: id in issued && log[id].node in nodes && nodes[log[id].node] == issued[id])
  }

  predicate IndexOk(rows: map<SessionId, Row>) {
    forall i <- rows, j <- rows ::
      rows[i].op.Some? && rows[i].actor == rows[j].actor && rows[i].op == rows[j].op ==> i == j
  }

  predicate Inv(w: World) {
    TablesOk(w) && ViewsOk(w) && RequestsOk(w) && OneHolder(w.requests) && NodesOk(w.nodes, w.keys, w.log, w.issued)
        && IndexOk(w.rows)
  }

  // ----- one step, seen from one session -----

  /** What every step guarantees to the other requests of the session it touches. */
  predicate Evolves(id: SessionId, v: View, v': View) {
    && v'.key == v.key
    && (v.entry.Some? ==> v'.entry == v.entry)
    && (v.cleaning ==> v'.cleaning)
    && (v.row == None ==> v'.row == None)
    && (v.stored && !v'.stored ==> v.cleaning)
    && (OutOfReach(id, v) && OwnedByJanitor(id, v) ==> OutOfReach(id, v') && OwnedByJanitor(id, v'))
  }

  /** A step of anyone but the claim holder itself leaves an Abort's claim intact. */
  predicate KeepsHolder(id: SessionId, v: View, v': View) {
    OutOfReach(id, v) && (v.cleaning ==> OwnedByJanitor(id, v)) ==>
      OutOfReach(id, v') && (v'.cleaning ==> OwnedByJanitor(id, v'))
  }

  predicate SameElsewhere(w: World, w': World, id: SessionId) {
    && w'.issued == w.issued && w'.keys == w.keys
    && w'.rows.Keys <= w.issued.Keys && w'.log.Keys <= w.issued.Keys && w'.cleaning <= w.issued.Keys
    && (forall other <- w.issued :: other != id ==> ViewOf(w', other) == ViewOf(w, other))
  }

  lemma OthersStillFit(q: Request, id: SessionId, v: View, v': View)
    requires q.id == id && Fits(q, v) && Evolves(id, v, v')
    requires MayRelease(q) ==> KeepsHolder(id, v, v')
    ensures Fits(q, v')
  {
  }

  /** The other requests still fit the session that request r has changed. */
  lemma OthersStep(w: World, w': World, r: RequestId, id: SessionId, s: RequestId)
    requires Inv(w) && r in w.requests && w.requests[r].id == id && id in w.issued && s in w.requests && s != r
    requires SameElsewhere(w, w', id)
    requires Evolves(id, ViewOf(w, id), ViewOf(w', id))
    requires KeepsHolder(id, ViewOf(w, id), ViewOf(w', id)) || MayRelease(w.requests[r])
    ensures RequestOk(w', w.requests[s])
  {
    assert RequestOk(w, w.requests[s]);
    hide TablesOk, ViewsOk, RequestsOk, NodesOk, IndexOk, Fits, Evolves, KeepsHolder, Harmless, MayRelease;
    if w.requests[s].id == id {
      assert MayRelease(w.requests[s]) ==> KeepsHolder(id, ViewOf(w, id), ViewOf(w', id));
      OthersStillFit(w.requests[s], id, ViewOf(w, id), ViewOf(w', id));
    }
  }

  /** A request that starts to hold a claim finds no other holder. */
  lemma HolderStep(w: World, requests': map<RequestId, Request>, r: RequestId, id: SessionId)
    requires Inv(w) && r in w.requests && w.requests[r].id == id && id in w.issued
    requires r in requests' && requests' == w.requests[r := requests'[r]] && requests'[r].id == id
    requires MayRelease(requests'[r]) && !MayRelease(w.requests[r]) ==> !OutOfReach(id, ViewOf(w, id))
    ensures OneHolder(requests')
  {
    hide TablesOk, ViewsOk, NodesOk, IndexOk, OutOfReach;
    forall s | s in w.requests && s != r && MayRelease(requests'[r]) && !MayRelease(w.requests[r])
        && w.requests[s].id == id
      ensures !MayRelease(w.requests[s])
    {
      assert RequestOk(w, w.requests[s]);
    }
    hide RequestsOk, MayRelease;
  }

  /** A step of request r on its own session keeps the session-by-session part of the invariant. */
  lemma LocalStep(w: World, w': World, r: RequestId, id: SessionId)
    requires Inv(w) && r in w.requests && w.requests[r].id == id && id in w.issued
    requires r in w'.requests && w'.requests == w.requests[r := w'.requests[r]] && w'.requests[r].id == id
    requires SameElsewhere(w, w', id)
    requires Evolves(id, ViewOf(w, id), ViewOf(w', id))
    requires KeepsHolder(id, ViewOf(w, id), ViewOf(w', id)) || MayRelease(w.requests[r])
    requires MayRelease(w'.requests[r]) && !MayRelease(w.requests[r]) ==> !OutOfReach(id, ViewOf(w, id))
    requires ViewOk(id, ViewOf(w', id)) && Fits(w'.requests[r], ViewOf(w', id))
    ensures TablesOk(w') && ViewsOk(w') && RequestsOk(w') && OneHolder(w'.requests)
  {
    forall s | s in w.requests && s != r ensures RequestOk(w', w.requests[s]) {
      OthersStep(w, w', r, id, s);
    }
    HolderStep(w, w'.requests, r, id);
    hide RequestOk, NodesOk, IndexOk, OneHolder, Evolves, KeepsHolder, MayRelease, OutOfReach, ViewOk, Fits;
    assert RequestOk(w', w'.requests[r]) by {
      FitsIsOk(w', w'.requests[r]);
    }
  }

  lemma FitsIsOk(w: World, q: Request)
    requires q.id in w.issued && Fits(q, ViewOf(w, q.id))
    ensures RequestOk(w, q)
  {
  }

  lemma OnlyRequestsMoved(w: World, requests': map<RequestId, Request>)
    requires TablesOk(w) && ViewsOk(w)
    ensures var w' := w.(requests := requests');
            TablesOk(w') && ViewsOk(w') && forall q: Request :: RequestOk(w', q) <==> RequestOk(w, q)
  {
    var w' := w.(requests := requests');
    assert forall id <- w.issued :: ViewOf(w', id) == ViewOf(w, id);
    hide ViewOf, ViewOk, Fits, Harmless;
  }

  lemma OneMoved(w: World, r: RequestId, q: Request)
    requires RequestsOk(w) && RequestOk(w, q)
    requires forall p: Request :: RequestOk(w.(requests := w.requests[r := q]), p) <==> RequestOk(w, p)
    ensures RequestsOk(w.(requests := w.requests[r := q]))
  {
    hide RequestOk;
  }

  lemma OneHolderMoved(requests: map<RequestId, Request>, r: RequestId, q: Request)
    requires OneHolder(requests) && r in requests && q.id == requests[r].id
             && (MayRelease(q) ==> MayRelease(requests[r]))
    ensures OneHolder(requests[r := q])
  {
    hide MayRelease;
  }

  /** A step that only moves a program counter. */
  lemma PcStep(w: World, r: RequestId, q: Request)
    requires Inv(w) && r in w.requests && q.id == w.requests[r].id && RequestOk(w, q)
    requires MayRelease(q) ==> MayRelease(w.requests[r])
    ensures Inv(w.(requests := w.requests[r := q]))
  {
    hide TablesOk, ViewsOk, RequestsOk, RequestOk, OneHolder, NodesOk, IndexOk, MayRelease;
    OnlyRequestsMoved(w, w.requests[r := q]);
    OneMoved(w, r, q);
    OneHolderMoved(w.requests, r, q);
  }

  /** The invariant at one session, restated for callers that do not need the rest. */
  lemma AtSession(w: World, r: RequestId)
    requires Inv(w) && r in w.requests
    ensures RequestOk(w, w.requests[r])
    ensures w.requests[r].id in w.rows || w.requests[r].id in w.log || w.requests[r].id in w.cleaning ==>
              w.requests[r].id in w.issued
    ensures w.requests[r].id in w.issued ==> ViewOk(w.requests[r].id, ViewOf(w, w.requests[r].id))
  {
  }

  /** What a step must show about its own session to keep the invariant. */
  predicate LocallyOk(id: SessionId, q: Request, v: View, q': Request, v': View) {
    && q.id == id && q'.id == id
    && Evolves(id, v, v') && ViewOk(id, v') && Fits(q', v')
    && (KeepsHolder(id, v, v') || MayRelease(q))
    && (MayRelease(q') && !MayRelease(q) ==> !OutOfReach(id, v))
  }

  /** A step that rewrites the claim of its session's row. */
  lemma RewriteRow(w: World, r: RequestId, op: Option<Op>, q: Request)
    requires Inv(w) && r in w.requests && w.requests[r].id in w.rows && w.requests[r].id in w.issued
    requires op.None? || op == w.rows[w.requests[r].id].op
             || OpFree(w.rows, w.requests[r].id, w.rows[w.requests[r].id].actor, op.value)
    requires var id := w.requests[r].id;
             LocallyOk(id, w.requests[r], ViewOf(w, id), q, ViewOf(w, id).(row := Some(w.rows[id].(op := op))))
    ensures Inv(w.(rows := WithOp(w.rows, w.requests[r].id, op), requests := w.requests[r := q]))
  {
    hide ViewsOk, RequestsOk, OneHolder, NodesOk, Evolves, Fits, ViewOk, KeepsHolder, MayRelease, OutOfReach;
    var id := w.requests[r].id;
    var w' := w.(rows := WithOp(w.rows, id, op), requests := w.requests[r := q]);
    assert ViewOf(w', id) == ViewOf(w, id).(row := Some(w.rows[id].(op := op)));
    LocalStep(w, w', r, id);
  }

  /** A step that deletes its session's row. */
  lemma DropRow(w: World, r: RequestId, q: Request)
    requires Inv(w) && r in w.requests && w.requests[r].id in w.rows && w.requests[r].id in w.issued
    requires var id := w.requests[r].id;
             LocallyOk(id, w.requests[r], ViewOf(w, id), q, ViewOf(w, id).(row := None))
    ensures Inv(w.(rows := w.rows - {w.requests[r].id}, requests := w.requests[r := q]))
  {
    hide ViewsOk, RequestsOk, OneHolder, NodesOk, Evolves, Fits, ViewOk, KeepsHolder, MayRelease, OutOfReach;
    var id := w.requests[r].id;
    var w' := w.(rows := w.rows - {id}, requests := w.requests[r := q]);
    assert ViewOf(w', id) == ViewOf(w, id).(row := None);
    LocalStep(w, w', r, id);
  }

  /** A step that announces that cleaning of its session starts. */
  lemma StartCleaning(w: World, r: RequestId, q: Request)
    requires Inv(w) && r in w.requests && w.requests[r].id in w.issued
    requires var id := w.requests[r].id;
             LocallyOk(id, w.requests[r], ViewOf(w, id), q, ViewOf(w, id).(cleaning := true))
    ensures Inv(w.(cleaning := w.cleaning + {w.requests[r].id}, requests := w.requests[r := q]))
  {
    hide ViewsOk, RequestsOk, OneHolder, NodesOk, IndexOk, Evolves, Fits, ViewOk, KeepsHolder, MayRelease, OutOfReach;
    var id := w.requests[r].id;
    var w' := w.(cleaning := w.cleaning + {id}, requests := w.requests[r := q]);
    assert ViewOf(w', id) == ViewOf(w, id).(cleaning := true);
    LocalStep(w, w', r, id);
  }

  /** A step that writes or deletes its session's object. */
  lemma ChangeObject(w: World, objects: map<Key, nat>, r: RequestId, q: Request)
    requires Inv(w) && r in w.requests && w.requests[r].id in w.issued
    requires forall k | k != w.issued[w.requests[r].id] :: k in objects <==> k in w.objects
    requires var id := w.requests[r].id;
             LocallyOk(id, w.requests[r], ViewOf(w, id), q, ViewOf(w, id).(stored := w.issued[id] in objects))
    ensures Inv(w.(objects := objects, requests := w.requests[r := q]))
  {
    hide ViewsOk, RequestsOk, OneHolder, NodesOk, IndexOk, Evolves, Fits, ViewOk, KeepsHolder, MayRelease, OutOfReach;
    var id := w.requests[r].id;
    var w' := w.(objects := objects, requests := w.requests[r := q]);
    assert ViewOf(w', id) == ViewOf(w, id).(stored := w.issued[id] in objects);
    LocalStep(w, w', r, id);
  }

  lemma NewNodeKept(w: World, id: SessionId, node: NodeId, entry: Commit)
    requires NodesOk(w.nodes, w.keys, w.log, w.issued) && id in w.issued && id !in w.log && node !in w.nodes
    requires w.issued[id] in w.keys && w.keys[w.issued[id]] == id && entry.node == node
    requires forall other <- w.issued :: w.issued[other] in w.keys && w.keys[w.issued[other]] == other
    ensures NodesOk(w.nodes[node := w.issued[id]], w.keys, w.log[id := entry], w.issued)
  {
  }

  lemma IndexKept(rows: map<SessionId, Row>, id: SessionId, row: Row)
    requires IndexOk(rows) && id in rows && row.actor == rows[id].actor && row.op == rows[id].op
    ensures IndexOk(rows[id := row])
  {
  }

  /** The second transaction of Complete: node, receipt and history in one step. */
  lemma CommitSession(w: World, r: RequestId, node: NodeId, entry: Commit, q: Request)
    requires Inv(w) && r in w.requests && w.requests[r].id in w.rows && w.requests[r].id in w.issued
    requires entry.node == node && node !in w.nodes && w.requests[r].id !in w.log
    requires var id := w.requests[r].id;
             LocallyOk(id, w.requests[r], ViewOf(w, id), q,
                       ViewOf(w, id).(row := Some(w.rows[id].(status := Committed(node, node))), entry := Some(entry)))
    ensures var id := w.requests[r].id;
            Inv(w.(rows := w.rows[id := w.rows[id].(status := Committed(node, node))],
                   nodes := w.nodes[node := w.issued[id]],
                   log := w.log[id := entry],
                   requests := w.requests[r := q]))
  {
    hide ViewsOk, RequestsOk, OneHolder, NodesOk, IndexOk, Evolves, Fits, ViewOk, KeepsHolder, MayRelease, OutOfReach;
    var id := w.requests[r].id;
    var w' := w.(rows := w.rows[id := w.rows[id].(status := Committed(node, node))],
                 nodes := w.nodes[node := w.issued[id]],
                 log := w.log[id := entry],
                 requests := w.requests[r := q]);
    assert ViewOf(w', id) == ViewOf(w, id).(row := Some(w'.rows[id]), entry := Some(entry));
    LocalStep(w, w', r, id);
    NewNodeKept(w, id, node, entry);
    IndexKept(w.rows, id, w'.rows[id]);
  }

  lemma HarmlessFits(q: Request, v: View)
    requires Harmless(q)
    ensures Fits(q, v)
  {
  }

  lemma NewSessionTables(w: World, id: SessionId, key: Key, row: Row)
    requires Inv(w) && id !in w.issued && key !in w.keys && row.op == None
    ensures TablesOk(w.(rows := w.rows[id := row], issued := w.issued[id := key], keys := w.keys[key := id]))
    ensures NodesOk(w.nodes, w.keys[key := id], w.log, w.issued[id := key])
    ensures IndexOk(w.rows[id := row])
  {
    hide ViewsOk, RequestsOk, OneHolder;
  }

  lemma NewSessionViews(w: World, id: SessionId, key: Key, row: Row)
    requires TablesOk(w) && ViewsOk(w) && id !in w.issued && row.key == key && row.status == Pending
    ensures var w' := w.(rows := w.rows[id := row], issued := w.issued[id := key], keys := w.keys[key := id]);
            ViewsOk(w') && forall other <- w.issued :: ViewOf(w', other) == ViewOf(w, other)
  {
    var w' := w.(rows := w.rows[id := row], issued := w.issued[id := key], keys := w.keys[key := id]);
    assert ViewOk(id, ViewOf(w', id));
    hide ViewOk;
    forall other <- w.issued ensures ViewOf(w', other) == ViewOf(w, other) {}
  }

  lemma NewSessionKeepsInv(w: World, id: SessionId, actor: Actor, key: Key, size: nat, mode: Mode)
    requires Inv(w) && ClientEnabled(w, Init(id, actor, key, size, mode))
    ensures Inv(ClientStep(w, Init(id, actor, key, size, mode)))
  {
    hide OneHolder, Fits, Harmless, ViewOk, NodesOk, IndexOk, TablesOk, ViewsOk, ViewOf;
    var w' := ClientStep(w, Init(id, actor, key, size, mode));
    NewSessionTables(w, id, key, w'.rows[id]);
    NewSessionViews(w, id, key, w'.rows[id]);
    forall r <- w'.requests ensures RequestOk(w', w'.requests[r]) {
      AtSession(w, r);
      if w.requests[r].id == id { HarmlessFits(w.requests[r], ViewOf(w', id)); }
    }
  }

  /** A step of no request, after which every session has only evolved. */
  lemma OutsideStep(w: World, w': World)
    requires Inv(w) && w'.requests == w.requests && w'.issued == w.issued
    requires forall id <- w.issued ::
             Evolves(id, ViewOf(w, id), ViewOf(w', id)) && KeepsHolder(id, ViewOf(w, id), ViewOf(w', id))
    ensures RequestsOk(w')
  {
    hide ViewsOk, OneHolder, NodesOk, IndexOk, Evolves, Fits, ViewOk, KeepsHolder, MayRelease, OutOfReach, Harmless,
         ViewOf;
    forall r <- w'.requests ensures RequestOk(w', w'.requests[r]) {
      AtSession(w, r);
      var id := w.requests[r].id;
      if id in w.issued { OthersStillFit(w.requests[r], id, ViewOf(w, id), ViewOf(w', id)); }
    }
  }

  lemma PutViews(w: World, id: SessionId, size: nat)
    requires TablesOk(w) && ViewsOk(w) && id in w.issued
    ensures var w' := w.(objects := w.objects[w.issued[id] := size]);
            ViewsOk(w') && forall other <- w.issued ::
              Evolves(other, ViewOf(w, other), ViewOf(w', other))
                  && KeepsHolder(other, ViewOf(w, other), ViewOf(w', other))
  {
    var w' := w.(objects := w.objects[w.issued[id] := size]);
    forall other <- w.issued
      ensures ViewOk(other, ViewOf(w', other)) && Evolves(other, ViewOf(w, other), ViewOf(w', other)) &&
              KeepsHolder(other, ViewOf(w, other), ViewOf(w', other))
    {
      assert ViewOk(other, ViewOf(w, other));
      assert ViewOf(w', other) == ViewOf(w, other).(stored := ViewOf(w', other).stored);
    }
  }

  lemma PutKeepsInv(w: World, id: SessionId, size: nat)
    requires Inv(w) && ClientEnabled(w, Put(id, size))
    ensures Inv(ClientStep(w, Put(id, size)))
  {
    hide ViewsOk, RequestsOk, OneHolder, NodesOk, IndexOk, Fits, Evolves, KeepsHolder, ViewOf;
    PutViews(w, id, size);
    OutsideStep(w, w.(objects := w.objects[w.issued[id] := size]));
  }

  /** Losing the receipt of a committed session. */
  lemma ExpireViews(w: World, id: SessionId)
    requires TablesOk(w) && ViewsOk(w) && id in w.rows && w.rows[id].status.Committed?
    ensures var w' := w.(rows := w.rows - {id});
            TablesOk(w') && ViewsOk(w') && forall other <- w.issued ::
              Evolves(other, ViewOf(w, other), ViewOf(w', other))
                  && KeepsHolder(other, ViewOf(w, other), ViewOf(w', other))
  {
    var w' := w.(rows := w.rows - {id});
    forall other <- w.issued
      ensures ViewOk(other, ViewOf(w', other)) && Evolves(other, ViewOf(w, other), ViewOf(w', other)) &&
              KeepsHolder(other, ViewOf(w, other), ViewOf(w', other))
    {
      assert ViewOk(other, ViewOf(w, other));
      assert ViewOf(w', other) == if other == id then ViewOf(w, id).(row := None) else ViewOf(w, other);
    }
  }

  lemma ExpireReceiptKeepsInv(w: World, id: SessionId)
    requires Inv(w) && id in w.rows && w.rows[id].status.Committed?
    ensures Inv(w.(rows := w.rows - {id}))
  {
    var w' := w.(rows := w.rows - {id});
    assert IndexOk(w'.rows);
    hide TablesOk, ViewsOk, RequestsOk, OneHolder, NodesOk, IndexOk, Fits, Evolves, KeepsHolder, ViewOf;
    ExpireViews(w, id);
    OutsideStep(w, w');
  }

  lemma StartKeepsInv(w: World, r: RequestId, request: Request)
    requires Inv(w) && ClientEnabled(w, Start(r, request)) && Safe(ByClient(Start(r, request)))
    ensures Inv(ClientStep(w, Start(r, request)))
  {
    hide NodesOk, IndexOk, ViewOk, OneHolder;
    var w' := ClientStep(w, Start(r, request));
    assert forall id <- w.issued :: ViewOf(w', id) == ViewOf(w, id);
    assert TablesOk(w') && ViewsOk(w');
    hide TablesOk, ViewsOk, ViewOf;
    StartHoldsNothing(w.requests, r, request);
    StartFits(w, w', r, request);
  }

  lemma StartHoldsNothing(requests: map<RequestId, Request>, r: RequestId, request: Request)
    requires OneHolder(requests) && r !in requests && FreshRequest(request)
    ensures OneHolder(requests[r := request])
  {
  }

  lemma StartFits(w: World, w': World, r: RequestId, request: Request)
    requires RequestsOk(w) && r !in w.requests && FreshRequest(request)
             && w' == w.(requests := w.requests[r := request])
    requires request.Complete? ==> NotCleaners(request.id, request.op)
    ensures RequestsOk(w')
  {
    forall s | s in w'.requests ensures RequestOk(w', w'.requests[s]) {
      assert s != r ==> RequestOk(w, w.requests[s]);
      assert w'.requests[s].id in w.issued ==> ViewOf(w', w'.requests[s].id) == ViewOf(w, w'.requests[s].id);
    }
  }

  // ----- every step -----

  lemma ClaimLocallyOk(id: SessionId, q: Request, v: View, pc: CompletePc)
    requires q.Complete? && q.id == id && q.cpc.Claiming? && ViewOk(id, v) && Fits(q, v)
    requires v.row.Some? && v.row.value.status == Pending && v.row.value.op in {None, Some(q.op)}
    requires (pc.Claimed? && pc.session.key == v.key) || pc == Finished(Err(Failure))
    ensures LocallyOk(id, q, v, q.(cpc := pc), v.(row := Some(v.row.value.(op := Some(q.op)))))
  {
  }

  lemma CommitLocallyOk(id: SessionId, q: Request, v: View, node: NodeId, pc: CompletePc)
    requires q.Complete? && q.id == id && q.cpc.Creating? && ViewOk(id, v) && Fits(q, v) && node != 0
    requires v.row.Some? && v.row.value.status == Pending && v.row.value.op == Some(q.op)
             && v.row.value.actor == q.actor
    requires pc == Finished(Ok(node)) || pc == Releasing(Failure)
    ensures LocallyOk(id, q, v, q.(cpc := pc),
                      v.(row := Some(v.row.value.(status := Committed(node, node))),
                          entry := Some(Commit(node, q.actor, q.op))))
  {
  }

  lemma AbortClaimLocallyOk(id: SessionId, q: Request, v: View, pc: AbortPc)
    requires q.Abort? && q.id == id && q.apc.AbortClaiming? && ViewOk(id, v) && Fits(q, v)
    requires v.row.Some? && v.row.value.status == Pending && v.row.value.op == None
    requires (pc.AbortClaimed? && pc.session.key == v.key) || pc == AbortFinished(false)
    ensures LocallyOk(id, q, v, q.(apc := pc), v.(row := Some(v.row.value.(op := Some(AbortOp(id))))))
  {
  }

  lemma PreflightKeepsInv(w: World, r: RequestId, fault: Option<Error>)
    requires Inv(w) && CompleteEnabled(w, r, CheckSession(fault))
    ensures Inv(PreflightStep(w, r, fault))
  {
    hide TablesOk, ViewsOk, RequestsOk, OneHolder, NodesOk, IndexOk;
    AtSession(w, r);
    PcStep(w, r, PreflightStep(w, r, fault).requests[r]);
  }

  lemma ClaimRefusedKeepsInv(w: World, r: RequestId, fault: Option<Error>, tx: TxOutcome)
    requires Inv(w) && CompleteEnabled(w, r, Claim(fault, tx)) && !ClaimTakesEffect(w, w.requests[r], fault, tx)
    ensures Inv(ClaimStep(w, r, fault, tx))
  {
    hide TablesOk, ViewsOk, RequestsOk, OneHolder, NodesOk, IndexOk, OpFree;
    AtSession(w, r);
    PcStep(w, r, ClaimStep(w, r, fault, tx).requests[r]);
  }

  lemma ClaimTakenKeepsInv(w: World, r: RequestId, fault: Option<Error>, tx: TxOutcome)
    requires Inv(w) && CompleteEnabled(w, r, Claim(fault, tx)) && ClaimTakesEffect(w, w.requests[r], fault, tx)
    ensures Inv(ClaimStep(w, r, fault, tx))
  {
    hide TablesOk, ViewsOk, RequestsOk, OneHolder, NodesOk, IndexOk, OpFree, LocallyOk, Evolves, KeepsHolder;
    AtSession(w, r);
    var q := w.requests[r];
    var w' := ClaimStep(w, r, fault, tx);
    assert w' == w.(rows := WithOp(w.rows, q.id, Some(q.op)), requests := w.requests[r := w'.requests[r]]);
    ClaimLocallyOk(q.id, q, ViewOf(w, q.id), w'.requests[r].cpc);
    RewriteRow(w, r, Some(q.op), w'.requests[r]);
  }

  lemma AssembleKeepsInv(w: World, r: RequestId, effect: Option<nat>, reportsError: bool)
    requires Inv(w) && CompleteEnabled(w, r, Assemble(effect, reportsError))
    ensures Inv(AssembleStep(w, r, effect, reportsError))
  {
    hide TablesOk, ViewsOk, RequestsOk, OneHolder, NodesOk, IndexOk;
    AtSession(w, r);
    var w' := AssembleStep(w, r, effect, reportsError);
    ChangeObject(w, w'.objects, r, w'.requests[r]);
  }

  lemma StatKeepsInv(w: World, r: RequestId, reachable: bool)
    requires Inv(w) && CompleteEnabled(w, r, Stat(reachable))
    ensures Inv(StatStep(w, r, reachable))
  {
    hide TablesOk, ViewsOk, RequestsOk, OneHolder, NodesOk, IndexOk;
    AtSession(w, r);
    PcStep(w, r, StatStep(w, r, reachable).requests[r]);
  }

  lemma CreateRefusedKeepsInv(w: World, r: RequestId, fault: Option<Error>, node: NodeId, tx: TxOutcome)
    requires Inv(w) && CompleteEnabled(w, r, Create(fault, node, tx)) && !CreateTakesEffect(w, w.requests[r], fault, tx)
    ensures Inv(CreateStep(w, r, fault, node, tx))
  {
    hide TablesOk, ViewsOk, RequestsOk, OneHolder, NodesOk, IndexOk;
    AtSession(w, r);
    PcStep(w, r, CreateStep(w, r, fault, node, tx).requests[r]);
  }

  lemma CreateTakenKeepsInv(w: World, r: RequestId, fault: Option<Error>, node: NodeId, tx: TxOutcome)
    requires Inv(w) && CompleteEnabled(w, r, Create(fault, node, tx)) && CreateTakesEffect(w, w.requests[r], fault, tx)
    ensures Inv(CreateStep(w, r, fault, node, tx))
  {
    hide TablesOk, ViewsOk, RequestsOk, OneHolder, NodesOk, IndexOk, LocallyOk, Evolves, KeepsHolder;
    AtSession(w, r);
    var q := w.requests[r];
    CommitLocallyOk(q.id, q, ViewOf(w, q.id), node, CreateStep(w, r, fault, node, tx).requests[r].cpc);
    CommitSession(w, r, node, Commit(node, q.actor, q.op), CreateStep(w, r, fault, node, tx).requests[r]);
  }

  lemma ReleaseKeepsInv(w: World, r: RequestId, works: bool)
    requires Inv(w) && CompleteEnabled(w, r, Release(works))
    ensures Inv(ReleaseStep(w, r, works))
  {
    hide TablesOk, ViewsOk, RequestsOk, OneHolder, NodesOk, IndexOk;
    AtSession(w, r);
    var q := w.requests[r];
    var w' := ReleaseStep(w, r, works);
    if works && HoldsClaim(w.rows, q.id, q.op) {
      RewriteRow(w, r, None, w'.requests[r]);
    } else {
      PcStep(w, r, w'.requests[r]);
    }
  }

  lemma CompleteStepKeepsInv(w: World, r: RequestId, a: CompleteAction)
    requires Inv(w) && CompleteEnabled(w, r, a)
    ensures Inv(CompleteStep(w, r, a))
  {
    hide Inv, PreflightStep, ClaimStep, AssembleStep, StatStep, CreateStep, ReleaseStep, ClaimTakesEffect,
         CreateTakesEffect;
    match a
    case CheckSession(fault) => PreflightKeepsInv(w, r, fault);
    case Claim(fault, tx) =>
      if ClaimTakesEffect(w, w.requests[r], fault, tx) {
        ClaimTakenKeepsInv(w, r, fault, tx);
      } else {
        ClaimRefusedKeepsInv(w, r, fault, tx);
      }
    case GiveUp(cause) => AtSession(w, r); PcStep(w, r, w.requests[r].(cpc := Releasing(cause)));
    case Assemble(effect, reportsError) => AssembleKeepsInv(w, r, effect, reportsError);
    case Stat(reachable) => StatKeepsInv(w, r, reachable);
    case Create(fault, node, tx) =>
      if CreateTakesEffect(w, w.requests[r], fault, tx) {
        CreateTakenKeepsInv(w, r, fault, node, tx);
      } else {
        CreateRefusedKeepsInv(w, r, fault, node, tx);
      }
    case Release(works) => ReleaseKeepsInv(w, r, works);
  }

  lemma AbortRefusedKeepsInv(w: World, r: RequestId, refused: bool, tx: TxOutcome)
    requires Inv(w) && AbortEnabled(w, r, ClaimAbort(refused, tx))
             && !AbortClaimTakesEffect(w, w.requests[r], refused, tx)
    ensures Inv(AbortClaimStep(w, r, refused, tx))
  {
    hide TablesOk, ViewsOk, RequestsOk, OneHolder, NodesOk, IndexOk, OpFree;
    AtSession(w, r);
    PcStep(w, r, AbortClaimStep(w, r, refused, tx).requests[r]);
  }

  lemma AbortTakenKeepsInv(w: World, r: RequestId, refused: bool, tx: TxOutcome)
    requires Inv(w) && AbortEnabled(w, r, ClaimAbort(refused, tx))
             && AbortClaimTakesEffect(w, w.requests[r], refused, tx)
    ensures Inv(AbortClaimStep(w, r, refused, tx))
  {
    hide TablesOk, ViewsOk, RequestsOk, OneHolder, NodesOk, IndexOk, OpFree, LocallyOk, Evolves, KeepsHolder;
    AtSession(w, r);
    var q := w.requests[r];
    var w' := AbortClaimStep(w, r, refused, tx);
    assert w' == w.(rows := WithOp(w.rows, q.id, Some(AbortOp(q.id))), requests := w.requests[r := w'.requests[r]]);
    AbortClaimLocallyOk(q.id, q, ViewOf(w, q.id), w'.requests[r].apc);
    RewriteRow(w, r, Some(AbortOp(q.id)), w'.requests[r]);
  }

  lemma AbortProviderKeepsInv(w: World, r: RequestId, found: bool)
    requires Inv(w) && AbortEnabled(w, r, FindProvider(found))
    ensures Inv(AbortProviderStep(w, r, found))
  {
    hide TablesOk, ViewsOk, RequestsOk, OneHolder, NodesOk, IndexOk;
    AtSession(w, r);
    var w' := AbortProviderStep(w, r, found);
    if found {
      StartCleaning(w, r, w'.requests[r]);
    } else {
      PcStep(w, r, w'.requests[r]);
    }
  }

  lemma AbortReleaseKeepsInv(w: World, r: RequestId, works: bool)
    requires Inv(w) && AbortEnabled(w, r, ReleaseAbort(works))
    ensures Inv(AbortReleaseStep(w, r, works))
  {
    hide TablesOk, ViewsOk, RequestsOk, OneHolder, NodesOk, IndexOk;
    AtSession(w, r);
    var q := w.requests[r];
    var w' := AbortReleaseStep(w, r, works);
    if works && HoldsClaim(w.rows, q.id, AbortOp(q.id)) {
      RewriteRow(w, r, None, w'.requests[r]);
    } else {
      PcStep(w, r, w'.requests[r]);
    }
  }

  lemma AbortDeleteKeepsInv(w: World, r: RequestId, removes: bool, reportsError: bool)
    requires Inv(w) && AbortEnabled(w, r, DeleteObject(removes, reportsError))
    ensures Inv(AbortDeleteStep(w, r, removes, reportsError))
  {
    hide TablesOk, ViewsOk, RequestsOk, OneHolder, NodesOk, IndexOk;
    AtSession(w, r);
    var w' := AbortDeleteStep(w, r, removes, reportsError);
    if removes {
      ChangeObject(w, w'.objects, r, w'.requests[r]);
    } else {
      PcStep(w, r, w'.requests[r]);
    }
  }

  lemma AbortDropKeepsInv(w: World, r: RequestId, works: bool)
    requires Inv(w) && AbortEnabled(w, r, DropSession(works))
    ensures Inv(AbortDropStep(w, r, works))
  {
    hide TablesOk, ViewsOk, RequestsOk, OneHolder, NodesOk, IndexOk;
    AtSession(w, r);
    var q := w.requests[r];
    var w' := AbortDropStep(w, r, works);
    if works && HoldsClaim(w.rows, q.id, AbortOp(q.id)) {
      DropRow(w, r, w'.requests[r]);
    } else {
      PcStep(w, r, w'.requests[r]);
    }
  }

  lemma AbortStepKeepsInv(w: World, r: RequestId, a: AbortAction)
    requires Inv(w) && AbortEnabled(w, r, a)
    ensures Inv(AbortStep(w, r, a))
  {
    hide Inv, AbortClaimTakesEffect, AbortClaimStep, AbortProviderStep, AbortReleaseStep, AbortDeleteStep,
         AbortDropStep;
    match a
    case ClaimAbort(refused, tx) =>
      if AbortClaimTakesEffect(w, w.requests[r], refused, tx) {
        AbortTakenKeepsInv(w, r, refused, tx);
      } else {
        AbortRefusedKeepsInv(w, r, refused, tx);
      }
    case FindProvider(found) => AbortProviderKeepsInv(w, r, found);
    case ReleaseAbort(works) => AbortReleaseKeepsInv(w, r, works);
    case AbortParts(works) => AtSession(w, r); PcStep(w, r, AbortPartsStep(w, r, works).requests[r]);
    case DeleteObject(removes, reportsError) => AbortDeleteKeepsInv(w, r, removes, reportsError);
    case DropSession(works) => AbortDropKeepsInv(w, r, works);
  }

  lemma SweepClaimLocallyOk(id: SessionId, q: Request, v: View, pc: SweepPc)
    requires q.Sweep? && q.id == id && ViewOk(id, v) && Fits(q, v)
    requires v.row.Some? && v.row.value.status == Pending && pc.SweepClaimed? && pc.session.key == v.key
    ensures LocallyOk(id, q, v, q.(spc := pc), v.(row := Some(v.row.value.(op := Some(JanitorOp(id))))))
  {
    hide AbortOp, JanitorOp;
  }

  lemma SweepClaimKeepsInv(w: World, r: RequestId, refused: bool)
    requires Inv(w) && SweepEnabled(w, r, ClaimExpired(refused))
    ensures Inv(SweepClaimStep(w, r, refused))
  {
    hide TablesOk, ViewsOk, RequestsOk, OneHolder, NodesOk, IndexOk, OpFree, LocallyOk, AbortOp, JanitorOp;
    AtSession(w, r);
    var q := w.requests[r];
    var w' := SweepClaimStep(w, r, refused);
    if refused || !CanClaimForCleanup(w.rows, q.id, JanitorOp(q.id)) {
      PcStep(w, r, w'.requests[r]);
    } else {
      assert w' == w.(rows := WithOp(w.rows, q.id, Some(JanitorOp(q.id))), requests := w.requests[r := w'.requests[r]]);
      SweepClaimLocallyOk(q.id, q, ViewOf(w, q.id), w'.requests[r].spc);
      RewriteRow(w, r, Some(JanitorOp(q.id)), w'.requests[r]);
    }
  }

  lemma SweepDeleteKeepsInv(w: World, r: RequestId, removes: bool, reportsError: bool)
    requires Inv(w) && SweepEnabled(w, r, SweepObject(removes, reportsError))
    ensures Inv(SweepDeleteStep(w, r, removes, reportsError))
  {
    hide TablesOk, ViewsOk, RequestsOk, OneHolder, NodesOk, IndexOk;
    AtSession(w, r);
    var w' := SweepDeleteStep(w, r, removes, reportsError);
    if removes {
      ChangeObject(w, w'.objects, r, w'.requests[r]);
    } else {
      PcStep(w, r, w'.requests[r]);
    }
  }

  lemma SweepProviderKeepsInv(w: World, r: RequestId, found: bool)
    requires Inv(w) && SweepEnabled(w, r, FindSweepProvider(found))
    ensures Inv(SweepProviderStep(w, r, found))
  {
    hide TablesOk, ViewsOk, RequestsOk, OneHolder, NodesOk, IndexOk;
    AtSession(w, r);
    var w' := SweepProviderStep(w, r, found);
    if found {
      StartCleaning(w, r, w'.requests[r]);
    } else {
      PcStep(w, r, w'.requests[r]);
    }
  }

  lemma SweepDropKeepsInv(w: World, r: RequestId, works: bool)
    requires Inv(w) && SweepEnabled(w, r, SweepSession(works))
    ensures Inv(SweepDropStep(w, r, works))
  {
    hide TablesOk, ViewsOk, RequestsOk, OneHolder, NodesOk, IndexOk;
    AtSession(w, r);
    var q := w.requests[r];
    var w' := SweepDropStep(w, r, works);
    if works && HoldsClaim(w.rows, q.id, JanitorOp(q.id)) {
      DropRow(w, r, w'.requests[r]);
    } else {
      PcStep(w, r, w'.requests[r]);
    }
  }

  lemma SweepStepKeepsInv(w: World, r: RequestId, a: SweepAction)
    requires Inv(w) && SweepEnabled(w, r, a)
    ensures Inv(SweepStep(w, r, a))
  {
    hide Inv, SweepClaimStep, SweepProviderStep, SweepDeleteStep, SweepDropStep;
    match a
    case ClaimExpired(refused) => SweepClaimKeepsInv(w, r, refused);
    case FindSweepProvider(found) => SweepProviderKeepsInv(w, r, found);
    case SweepObject(removes, reportsError) => SweepDeleteKeepsInv(w, r, removes, reportsError);
    case SweepSession(works) => SweepDropKeepsInv(w, r, works);
  }

  lemma StepKeepsInv(w: World, a: Action)
    requires Inv(w) && Enabled(w, a) && Safe(a)
    ensures Inv(Apply(w, a))
  {
    hide Inv, CompleteStep, AbortStep, SweepStep;
    match a
    case ByClient(Init(id, actor, key, size, mode)) => NewSessionKeepsInv(w, id, actor, key, size, mode);
    case ByClient(Put(id, size)) => PutKeepsInv(w, id, size);
    case ByClient(Start(r, request)) => StartKeepsInv(w, r, request);
    case ByComplete(r, c) => CompleteStepKeepsInv(w, r, c);
    case ByAbort(r, b) => AbortStepKeepsInv(w, r, b);
    case BySweep(r, b) => SweepStepKeepsInv(w, r, b);
    case ExpireReceipt(id) => ExpireReceiptKeepsInv(w, id);
  }

  // ----- whole runs -----

  /** A run: any number of requests, interleaved in any way. */
  predicate IsRun(ws: seq<World>, actions: seq<Action>) {
    && |ws| == |actions| + 1 && ws[0] == EMPTY
    && (forall i | 0 <= i < |actions| :: Enabled(ws[i], actions[i]) && ws[i + 1] == Apply(ws[i], actions[i]))
  }

  /** No client uses a cleaner's text of the session it completes. */
  predicate SafeRun(actions: seq<Action>) {
    forall i | 0 <= i < |actions| :: Safe(actions[i])
  }

  lemma {:induction false} RunKeepsInv(ws: seq<World>, actions: seq<Action>, i: nat)
    requires IsRun(ws, actions) && SafeRun(actions) && i < |ws|
    ensures Inv(ws[i])
  {
    if i > 0 {
      hide Inv, Enabled, Apply, Safe;
      RunKeepsInv(ws, actions, i - 1);
      StepKeepsInv(ws[i - 1], actions[i - 1]);
    }
  }

  /** History is never rewritten and completion nodes are never taken back. */
  predicate Extends(w: World, w': World) {
    && (forall id <- w.issued :: id in w'.issued && w'.issued[id] == w.issued[id])
    && (forall id <- w.log :: id in w'.log && w'.log[id] == w.log[id])
    && w.cleaning <= w'.cleaning
    && (forall n <- w.nodes :: n in w'.nodes && w'.nodes[n] == w.nodes[n])
  }

  /** Steps that leave the history alone. */
  lemma SameHistoryExtends(w: World, w': World)
    requires w'.issued == w.issued && w'.log == w.log && w.cleaning <= w'.cleaning && w'.nodes == w.nodes
    ensures Extends(w, w')
  {
  }

  lemma PendingIsUnlogged(w: World, r: RequestId)
    requires Inv(w) && CompleteAt(w, r) && w.requests[r].id in w.rows && w.rows[w.requests[r].id].status.Pending?
    ensures w.requests[r].id !in w.log
  {
    hide RequestsOk, OneHolder, NodesOk, IndexOk;
    var id := w.requests[r].id;
    assert id in w.issued;
    assert ViewOk(id, ViewOf(w, id));
  }

  lemma CommitExtends(w: World, w': World, id: SessionId, node: NodeId)
    requires node !in w.nodes && id !in w.log && w'.issued == w.issued && w'.cleaning == w.cleaning
    requires node in w'.nodes && w'.nodes == w.nodes[node := w'.nodes[node]]
    requires id in w'.log && w'.log == w.log[id := w'.log[id]]
    ensures Extends(w, w')
  {
  }

  /** The one step that adds to the log. */
  lemma CreateExtends(w: World, r: RequestId, fault: Option<Error>, node: NodeId, tx: TxOutcome)
    requires Inv(w) && CompleteAt(w, r) && w.requests[r].cpc.Creating? && node !in w.nodes
    ensures Extends(w, CreateStep(w, r, fault, node, tx))
  {
    hide Inv, CreateVerdict, Extends;
    if CreateTakesEffect(w, w.requests[r], fault, tx) {
      PendingIsUnlogged(w, r);
      CommitExtends(w, CreateStep(w, r, fault, node, tx), w.requests[r].id, node);
    } else {
      hide CreateTakesEffect;
      SameHistoryExtends(w, CreateStep(w, r, fault, node, tx));
    }
  }

  lemma CompleteExtends(w: World, r: RequestId, a: CompleteAction)
    requires Inv(w) && CompleteEnabled(w, r, a)
    ensures Extends(w, CompleteStep(w, r, a))
  {
    hide Inv, Extends, PreflightStep, ClaimStep, AssembleStep, StatStep, CreateStep, ReleaseStep;
    if a.Create? {
      CreateExtends(w, r, a.fault, a.node, a.tx);
    } else {
      SameHistoryExtends(w, CompleteStep(w, r, a));
    }
  }

  lemma AbortExtends(w: World, r: RequestId, a: AbortAction)
    requires AbortEnabled(w, r, a)
    ensures Extends(w, AbortStep(w, r, a))
  {
    hide Extends, AbortClaimStep, AbortProviderStep, AbortPartsStep, AbortDeleteStep, AbortReleaseStep, AbortDropStep;
    SameHistoryExtends(w, AbortStep(w, r, a));
  }

  lemma SweepExtends(w: World, r: RequestId, a: SweepAction)
    requires SweepEnabled(w, r, a)
    ensures Extends(w, SweepStep(w, r, a))
  {
    hide Extends, SweepClaimStep, SweepProviderStep, SweepDeleteStep, SweepDropStep;
    SameHistoryExtends(w, SweepStep(w, r, a));
  }

  lemma ClientExtends(w: World, c: ClientAction)
    requires ClientEnabled(w, c)
    ensures Extends(w, ClientStep(w, c))
  {
  }

  lemma StepExtends(w: World, a: Action)
    requires Inv(w) && Enabled(w, a)
    ensures Extends(w, Apply(w, a))
  {
    hide Inv, Extends, CompleteStep, AbortStep, SweepStep, ClientStep, CompleteEnabled, AbortEnabled, SweepEnabled,
         ClientEnabled;
    match a
    case ByClient(c) => ClientExtends(w, c);
    case ByComplete(r, c) => CompleteExtends(w, r, c);
    case ByAbort(r, b) => AbortExtends(w, r, b);
    case BySweep(r, b) => SweepExtends(w, r, b);
    case ExpireReceipt(id) => SameHistoryExtends(w, Apply(w, a));
  }

  lemma ExtendsItself(w: World)
    ensures Extends(w, w)
  {
  }

  lemma ExtendsTransitive(a: World, b: World, c: World)
    requires Extends(a, b) && Extends(b, c)
    ensures Extends(a, c)
  {
  }

  lemma {:induction false} RunExtends(ws: seq<World>, actions: seq<Action>, i: nat, j: nat)
    requires IsRun(ws, actions) && SafeRun(actions) && i <= j < |ws|
    ensures Extends(ws[i], ws[j])
    decreases j
  {
    hide Inv, Extends, Enabled, Apply;
    if i == j {
      ExtendsItself(ws[i]);
    } else {
      RunExtends(ws, actions, i, j - 1);
      RunKeepsInv(ws, actions, j - 1);
      StepExtends(ws[j - 1], actions[j - 1]);
      ExtendsTransitive(ws[i], ws[j - 1], ws[j]);
    }
  }

  // ----- what other requests do meanwhile -----

  predicate RunEnabled(w: World, run: seq<Action>)
    decreases |run|
  {
    run == [] || (Enabled(w, run[0]) && RunEnabled(Apply(w, run[0]), run[1..]))
  }

  function Run(w: World, run: seq<Action>): World
    requires RunEnabled(w, run)
    decreases |run|
  {
    if run == [] then w else Run(Apply(w, run[0]), run[1..])
  }

  /** The action starts or moves request r. */
  predicate IsOf(a: Action, r: RequestId) {
    match a
    case ByClient(Start(s, _)) => s == r
    case ByComplete(s, _) => s == r
    case ByAbort(s, _) => s == r
    case BySweep(s, _) => s == r
    case _ => false
  }

  /** Safe actions, none of them of request r. */
  predicate OfOthers(run: seq<Action>, r: RequestId) {
    SafeRun(run) && forall i | 0 <= i < |run| :: !IsOf(run[i], r)
  }

  lemma OthersStepKeeps(w: World, a: Action, r: RequestId)
    requires Enabled(w, a) && r in w.requests && !IsOf(a, r)
    ensures r in Apply(w, a).requests && Apply(w, a).requests[r] == w.requests[r]
  {
    hide CompleteStep, AbortStep, SweepStep, CompleteEnabled, AbortEnabled, SweepEnabled;
  }

  /** Whatever other requests do, and however long: request r stays where it is, the invariant holds and
      history only grows. */
  lemma {:induction false} RunOfOthers(w: World, run: seq<Action>, r: RequestId)
    requires Inv(w) && RunEnabled(w, run) && OfOthers(run, r) && r in w.requests
    ensures Inv(Run(w, run)) && Extends(w, Run(w, run))
    ensures r in Run(w, run).requests && Run(w, run).requests[r] == w.requests[r]
    decreases |run|
  {
    hide Inv, Extends, Enabled, Apply, Safe, IsOf;
    if run == [] {
      ExtendsItself(w);
    } else {
      var w1 := Apply(w, run[0]);
      StepKeepsInv(w, run[0]);
      StepExtends(w, run[0]);
      OthersStepKeeps(w, run[0], r);
      RunOfOthers(w1, run[1..], r);
      ExtendsTransitive(w, w1, Run(w1, run[1..]));
    }
  }

  // ----- what holds over whole runs -----

  /** From the moment a session is committed, its node stays bound to an object that exists. */
  lemma CommittedObjectsAreNeverDeleted(ws: seq<World>, actions: seq<Action>, i: nat, j: nat, id: SessionId)
    requires IsRun(ws, actions) && SafeRun(actions) && i <= j < |ws| && id in ws[i].log
    ensures id in ws[j].log && ws[j].log[id] == ws[i].log[id]
    ensures id in ws[j].issued && ws[j].issued[id] in ws[j].objects
    ensures ws[i].log[id].node in ws[j].nodes && ws[j].nodes[ws[i].log[id].node] == ws[j].issued[id]
  {
    RunExtends(ws, actions, i, j);
    RunKeepsInv(ws, actions, j);
    hide RequestsOk, OneHolder, IndexOk, IsRun;
    assert ViewOk(id, ViewOf(ws[j], id));
  }

  /** Once an Abort or the janitor has started to delete, the session never commits, before or after. */
  lemma CleaningExcludesCommit(ws: seq<World>, actions: seq<Action>, i: nat, j: nat, id: SessionId)
    requires IsRun(ws, actions) && SafeRun(actions) && i < |ws| && j < |ws| && id in ws[i].cleaning
    ensures id !in ws[j].log
  {
    var last := if i <= j then j else i;
    RunExtends(ws, actions, i, last);
    RunExtends(ws, actions, j, last);
    RunKeepsInv(ws, actions, last);
    hide RequestsOk, OneHolder, IndexOk, NodesOk, IsRun;
    assert ViewOk(id, ViewOf(ws[last], id));
  }

  /** Two completion nodes never share an object, so a session has at most one node. */
  lemma OneNodePerSession(ws: seq<World>, actions: seq<Action>, i: nat, n1: NodeId, n2: NodeId)
    requires IsRun(ws, actions) && SafeRun(actions) && i < |ws| && n1 in ws[i].nodes && n2 in ws[i].nodes
    requires ws[i].nodes[n1] == ws[i].nodes[n2]
    ensures n1 == n2
  {
    RunKeepsInv(ws, actions, i);
  }

  predicate Succeeded(w: World, r: RequestId, id: SessionId, node: NodeId) {
    r in w.requests && w.requests[r].Complete? && w.requests[r].id == id && w.requests[r].cpc == Finished(Ok(node))
  }

  /** All successful Completes of a session, at any two moments, return the same node and carry the
      operation id under which the session was committed. */
  lemma CompletesAgree(ws: seq<World>, actions: seq<Action>, i: nat, r1: RequestId, n1: NodeId,
                       j: nat, r2: RequestId, n2: NodeId, id: SessionId)
    requires IsRun(ws, actions) && SafeRun(actions) && i <= j < |ws|
    requires Succeeded(ws[i], r1, id, n1) && Succeeded(ws[j], r2, id, n2)
    ensures n1 == n2 && ws[i].requests[r1].op == ws[j].requests[r2].op
    ensures id in ws[j].log && ws[j].log[id] == Commit(n1, ws[i].requests[r1].actor, ws[i].requests[r1].op)
  {
    RunExtends(ws, actions, i, j);
    RunKeepsInv(ws, actions, i);
    RunKeepsInv(ws, actions, j);
    AtSession(ws[i], r1);
    AtSession(ws[j], r2);
  }

  /** A Complete under another operation id finds a claimed or committed session closed, and changes nothing. */
  lemma ForeignCompleteRefused(w: World, r: RequestId, fault: Option<Error>, tx: TxOutcome)
    requires Inv(w) && CompleteEnabled(w, r, Claim(fault, tx)) && w.requests[r].id in w.rows
    requires w.rows[w.requests[r].id].op !in {None, Some(w.requests[r].op)}
    ensures var w' := ClaimStep(w, r, fault, tx);
            w'.requests[r].cpc.Finished? && w'.requests[r].cpc.result.Err? && w' == w.(requests := w'.requests)
  {
  }

  // ----- reconciliation -----

  datatype Reconciled = Unknown | CommittedAs(node: NodeId) | Broken(error: Error)

  function RowAnswer(row: Row, expired: bool): Reconciled {
    if expired || row.status.Pending? then Unknown
    else match DecodeReceipt(row) case Ok(n) => CommittedAs(n) case Err(e) => Broken(e)
  }

  /** ReconcileCompletion: the row is whichever row the query by actor and operation id returns. */
  predicate ReconcileAnswers(rows: map<SessionId, Row>, actor: Actor, op: Op, expired: bool, answer: Reconciled) {
    if exists id <- rows :: rows[id].actor == actor && rows[id].op == Some(op) then
      exists id <- rows :: rows[id].actor == actor && rows[id].op == Some(op) && answer == RowAnswer(rows[id], expired)
    else
      answer == Unknown
  }

  /** "committed" is answered only with the node that a Complete of this actor and operation created;
      while the receipt is there and not expired it is the only answer; a broken receipt never shows. */
  lemma ReconcileIsTruthful(w: World, actor: Actor, op: Op, expired: bool, answer: Reconciled)
    requires Inv(w) && ReconcileAnswers(w.rows, actor, op, expired, answer)
    ensures !answer.Broken?
    ensures answer.CommittedAs? ==> exists id <- w.log :: w.log[id] == Commit(answer.node, actor, op)
    ensures forall id <- w.rows | w.rows[id].actor == actor && w.rows[id].op == Some(op) && !expired && id in w.log ::
              answer == CommittedAs(w.log[id].node)
  {
    hide RequestsOk, OneHolder, NodesOk;
    forall id <- w.rows ensures id in w.issued && ViewOk(id, ViewOf(w, id)) {}
  }
}
