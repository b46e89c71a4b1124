/** Replacing a file's content in place: upload under a new key, rebind the node in a transaction,
    delete the object that lost. Any number of updates run interleaved, and a commit may take effect
    although it reports an error. Each node has an object of its own. */
module ContentReplacement {
  import opened Fresh
  import opened Wrappers

  type Key = string
  type NodeId = nat
  type RequestId = nat

  datatype Loc = Loc(provider: nat, key: Key)

  /** The storage_objects row of a node, with the file size recorded for it. */
  datatype Binding = Binding(loc: Loc, size: nat)

  /** Unread: the write took effect, but reading the node back for the answer failed. The caller sees an
      error like any other. */
  datatype Outcome = Replaced | Unread | Failed | CommitUnknown | Previewed

  /** How a transaction ends. */
  datatype TxEnd = CallbackFails | Commits | ErrorRolledBack | ErrorCommitted

  datatype Pc =
    | Checking
    | Locating(bound: bool)
    | Uploading(provider: nat)
    | Rebinding(loc: Loc)
    | DroppingNew(loc: Loc)
    | DroppingOld(loc: Loc, previous: Key)
    | ReadingBack
    | Finished(outcome: Outcome)

  /** `committed` is history: whether this request's transaction took effect. */
  datatype Request = Request(node: NodeId, expected: Option<Key>, size: nat, pc: Pc, committed: bool)

  /** `everBound` is history: every key that was ever some node's key. */
  datatype World = World(
    bound: map<NodeId, Binding>,
    store: map<Loc, nat>,
    requests: map<RequestId, Request>,
    usedKeys: set<Key>,
    everBound: set<Key>)

  datatype Action =
    | Start(r: RequestId, node: NodeId, expected: Option<Key>, size: nat)
    | Check(r: RequestId, fault: bool)
    | Locate(r: RequestId, fault: bool, choice: nat)
    | Preview(r: RequestId)
    | Upload(r: RequestId, key: Key, fault: bool, left: Option<nat>)
    | Rebind(r: RequestId, end: TxEnd)
    | DropNew(r: RequestId, removes: bool)
    | DropOld(r: RequestId, removes: bool)
    | ReadBack(r: RequestId, fault: bool)

  /** The storage key of a node; empty when nothing is bound. */
  function KeyOf(bound: map<NodeId, Binding>, node: NodeId): Key {
    if node in bound then bound[node].loc.key else ""
  }

  predicate PcAllows(a: Action, pc: Pc) {
    match a
    case Start(_, _, _, _) => false
    case Check(_, _) => pc.Checking?
    case Locate(_, _, _) => pc.Locating?
    case Preview(_) => pc.Uploading?
    case Upload(_, _, _, _) => pc.Uploading?
    case Rebind(_, _) => pc.Rebinding?
    case DropNew(_, _) => pc.DroppingNew?
    case DropOld(_, _) => pc.DroppingOld?
    case ReadBack(_, _) => pc.ReadingBack?
  }

  predicate Enabled(w: World, a: Action) {
    if a.Start? then a.r !in w.requests
    else
      && a.r in w.requests && PcAllows(a, w.requests[a.r].pc)
      && (a.Upload? ==> a.key != "" && a.key !in w.usedKeys)
  }

  function At(w: World, r: RequestId, pc: Pc): World
    requires r in w.requests
  {
    w.(requests := w.requests[r := w.requests[r].(pc := pc)])
  }

  predicate ExpectationHolds(bound: map<NodeId, Binding>, req: Request) {
    req.expected.None? || req.expected.value == KeyOf(bound, req.node)
  }

  /** The write that the transaction makes visible. */
  function Bound(w: World, r: RequestId): World
    requires r in w.requests && w.requests[r].pc.Rebinding?
  {
    var req := w.requests[r];
    w.(bound := w.bound[req.node := Binding(req.pc.loc, req.size)],
       requests := w.requests[r := req.(committed := true)],
       everBound := w.everBound + {req.pc.loc.key})
  }

  /** Where the request goes after the transaction, from what the caller of WithinTx can see. */
  function AfterRebind(w: World, r: RequestId, end: TxEnd): Pc
    requires r in w.requests && w.requests[r].pc.Rebinding?
  {
    var req := w.requests[r];
    var previous := KeyOf(w.bound, req.node);
    if end.CallbackFails? || !ExpectationHolds(w.bound, req) then DroppingNew(req.pc.loc)
    else if !end.Commits? then Finished(CommitUnknown)
    else if previous != "" && previous != req.pc.loc.key then DroppingOld(req.pc.loc, previous)
    else ReadingBack
  }

  predicate TakesEffect(w: World, r: RequestId, end: TxEnd)
    requires r in w.requests && w.requests[r].pc.Rebinding?
  {
    (end.Commits? || end.ErrorCommitted?) && ExpectationHolds(w.bound, w.requests[r])
  }

  function Apply(w: World, a: Action): World
    requires Enabled(w, a)
  {
    match a
    case Start(r, node, expected, size) => w.(requests :=
        w.requests[r := Request(node, expected, size, Checking, false)])
    case Check(r, fault) =>
      var req := w.requests[r];
      At(w, r, if fault || !ExpectationHolds(w.bound, req) then Finished(Failed) else Locating(req.node in w.bound))
    case Locate(r, fault, choice) =>
      var req := w.requests[r];
      At(w, r, if fault || (req.pc.bound && req.node !in w.bound) then Finished(Failed)
               else Uploading(if req.pc.bound then w.bound[req.node].loc.provider else choice))
    case Preview(r) => At(w, r, Finished(Previewed))
    case Upload(r, key, fault, left) =>
      var loc := Loc(w.requests[r].pc.provider, key);
      var w1 := w.(usedKeys := w.usedKeys + {key});
      if fault then At(if left.Some? then w1.(store := w1.store[loc := left.value]) else w1, r, Finished(Failed))
      else At(w1.(store := w1.store[loc := w1.requests[r].size]), r, Rebinding(loc))
    case Rebind(r, end) =>
      var pc := AfterRebind(w, r, end);
      At(if TakesEffect(w, r, end) then Bound(w, r) else w, r, pc)
    case DropNew(r, removes) =>
      At(if removes then w.(store := w.store - {w.requests[r].pc.loc}) else w, r, Finished(Failed))
    case DropOld(r, removes) =>
      var pc := w.requests[r].pc;
      At(if removes then w.(store := w.store - {Loc(pc.loc.provider, pc.previous)}) else w, r, ReadingBack)
    case ReadBack(r, fault) => At(w, r, Finished(if fault then Unread else Replaced))
  }

  // ----- the invariant -----

  /** Every bound key is in the store with the recorded size, and no two nodes share a key. */
  predicate BoundOk(bound: map<NodeId, Binding>, store: map<Loc, nat>) {
    && (forall n <- bound :: bound[n].loc in store && store[bound[n].loc] == bound[n].size)
    && (forall m <- bound, n <- bound :: bound[m].loc.key == bound[n].loc.key ==> m == n)
  }

  predicate KeysOk(w: World) {
    && w.everBound <= w.usedKeys && "" !in w.everBound
    && (forall l <- w.store :: l.key in w.usedKeys)
    && (forall n <- w.bound :: w.bound[n].loc.key in w.everBound)
  }

  /** The key is no node's key now. */
  predicate Unbound(bound: map<NodeId, Binding>, key: Key) {
    forall n <- bound :: bound[n].loc.key != key
  }

  /** A key named as expected by a committed update is gone for good. */
  predicate Spent(bound: map<NodeId, Binding>, everBound: set<Key>, node: NodeId, key: Key) {
    if key == "" then node in bound else key in everBound && Unbound(bound, key)
  }

  predicate PcOk(req: Request, bound: map<NodeId, Binding>, store: map<Loc, nat>, usedKeys: set<Key>,
        everBound: set<Key>) {
    match req.pc
    case Rebinding(loc) =>
      !req.committed && loc.key != "" && loc.key in usedKeys - everBound && loc in store && store[loc] == req.size
    case DroppingNew(loc) => !req.committed && loc.key in usedKeys - everBound
    case DroppingOld(_, previous) => req.committed && previous in everBound && Unbound(bound, previous)
    case ReadingBack => req.committed
    case Finished(outcome) => (outcome.Replaced? || outcome.Unread? ==> req.committed)
        && (outcome.Failed? || outcome.Previewed? ==> !req.committed)
    case _ => !req.committed
  }

  predicate Pending(pc: Pc) {
    pc.Rebinding? || pc.DroppingNew?
  }

  predicate RequestOk(req: Request, bound: map<NodeId, Binding>, store: map<Loc, nat>, usedKeys: set<Key>,
        everBound: set<Key>) {
    && PcOk(req, bound, store, usedKeys, everBound)
    && (req.committed && req.expected.Some? ==> Spent(bound, everBound, req.node, req.expected.value))
  }

  predicate RequestsOk(w: World) {
    forall r <- w.requests :: RequestOk(w.requests[r], w.bound, w.store, w.usedKeys, w.everBound)
  }

  predicate PendingApart(requests: map<RequestId, Request>) {
    forall r <- requests, s <- requests ::
      Pending(requests[r].pc) && Pending(requests[s].pc) && requests[r].pc.loc.key == requests[s].pc.loc.key ==> r == s
  }

  /** Committed updates that name the same expected key of the same node are one update. */
  predicate OnePerExpectation(requests: map<RequestId, Request>) {
    forall r <- requests, s <- requests ::
      (&& requests[r].committed && requests[s].committed && requests[r].expected.Some?
       && requests[r].expected == requests[s].expected && requests[r].node == requests[s].node) ==> r == s
  }

  predicate Inv(w: World) {
    && BoundOk(w.bound, w.store) && KeysOk(w) && RequestsOk(w)
    && PendingApart(w.requests) && OnePerExpectation(w.requests)
  }

  /** Before any update: each bound node has an object of its own. */
  predicate Initial(w: World) {
    BoundOk(w.bound, w.store) && KeysOk(w) && w.requests == map[]
  }

  // ----- every step keeps the invariant -----

  /** A request that moves on while nothing else changes. */
  lemma MoveKeeps(w: World, r: RequestId, pc: Pc)
    requires Inv(w) && r in w.requests && PcOk(w.requests[r].(pc := pc), w.bound, w.store, w.usedKeys, w.everBound)
    requires Pending(pc) ==> Pending(w.requests[r].pc) && pc.loc == w.requests[r].pc.loc
    ensures Inv(At(w, r, pc))
  {
    hide BoundOk, PcOk, Spent;
  }

  lemma StartKeepsInv(w: World, a: Action)
    requires Inv(w) && Enabled(w, a) && a.Start?
    ensures Inv(Apply(w, a))
  {
    hide BoundOk, Spent;
  }

  lemma CheckKeepsInv(w: World, a: Action)
    requires Inv(w) && Enabled(w, a) && (a.Check? || a.Locate? || a.Preview? || a.ReadBack?)
    ensures Inv(Apply(w, a))
  {
    assert RequestOk(w.requests[a.r], w.bound, w.store, w.usedKeys, w.everBound);
    hide Inv, Spent;
    MoveKeeps(w, a.r, Apply(w, a).requests[a.r].pc);
  }

  lemma UploadKeepsRequests(w: World, a: Action)
    requires Inv(w) && Enabled(w, a) && a.Upload?
    ensures RequestsOk(Apply(w, a))
  {
    hide BoundOk, PendingApart, OnePerExpectation, Spent;
    var w' := Apply(w, a);
    forall r | r in w'.requests ensures RequestOk(w'.requests[r], w'.bound, w'.store, w'.usedKeys, w'.everBound) {
      assert RequestOk(w.requests[r], w.bound, w.store, w.usedKeys, w.everBound);
    }
  }

  lemma UploadKeepsApart(w: World, a: Action)
    requires Inv(w) && Enabled(w, a) && a.Upload?
    ensures PendingApart(Apply(w, a).requests) && OnePerExpectation(Apply(w, a).requests)
  {
    hide BoundOk, Spent;
    forall r | r in w.requests && Pending(w.requests[r].pc) ensures w.requests[r].pc.loc.key in w.usedKeys {
      assert RequestOk(w.requests[r], w.bound, w.store, w.usedKeys, w.everBound);
    }
    hide RequestsOk, KeysOk;
  }

  lemma UploadKeepsInv(w: World, a: Action)
    requires Inv(w) && Enabled(w, a) && a.Upload?
    ensures Inv(Apply(w, a))
  {
    UploadKeepsRequests(w, a);
    UploadKeepsApart(w, a);
    hide RequestsOk, PendingApart, OnePerExpectation;
  }

  lemma DropNewKeepsInv(w: World, a: Action)
    requires Inv(w) && Enabled(w, a) && a.DropNew?
    ensures Inv(Apply(w, a))
  {
    var w' := Apply(w, a);
    assert RequestOk(w.requests[a.r], w.bound, w.store, w.usedKeys, w.everBound);
    hide Spent;
    forall r | r in w'.requests ensures RequestOk(w'.requests[r], w'.bound, w'.store, w'.usedKeys, w'.everBound) {
      assert RequestOk(w.requests[r], w.bound, w.store, w.usedKeys, w.everBound);
    }
  }

  lemma DropOldKeepsInv(w: World, a: Action)
    requires Inv(w) && Enabled(w, a) && a.DropOld?
    ensures Inv(Apply(w, a))
  {
    var w' := Apply(w, a);
    assert RequestOk(w.requests[a.r], w.bound, w.store, w.usedKeys, w.everBound);
    hide Spent;
    forall r | r in w'.requests ensures RequestOk(w'.requests[r], w'.bound, w'.store, w'.usedKeys, w'.everBound) {
      assert RequestOk(w.requests[r], w.bound, w.store, w.usedKeys, w.everBound);
    }
  }

  /** What a rebinding does to the other requests: keys that were gone stay gone. */
  lemma BoundKeepsOthers(w: World, r: RequestId, other: RequestId)
    requires Inv(w) && r in w.requests && w.requests[r].pc.Rebinding? && other in w.requests && other != r
    ensures var w' := Bound(w, r); RequestOk(w.requests[other], w'.bound, w'.store, w'.usedKeys, w'.everBound)
  {
    assert RequestOk(w.requests[r], w.bound, w.store, w.usedKeys, w.everBound);
    assert RequestOk(w.requests[other], w.bound, w.store, w.usedKeys, w.everBound);
    hide BoundOk, OnePerExpectation;
  }

  lemma RebindKeepsInv(w: World, a: Action)
    requires Inv(w) && Enabled(w, a) && a.Rebind?
    ensures Inv(Apply(w, a))
  {
    var w' := Apply(w, a);
    var req := w.requests[a.r];
    assert RequestOk(req, w.bound, w.store, w.usedKeys, w.everBound);
    if TakesEffect(w, a.r, a.end) {
      CommitKeepsInv(w, a);
    } else {
      hide Inv, Spent;
      MoveKeeps(w, a.r, w'.requests[a.r].pc);
    }
  }

  lemma CommitKeepsInv(w: World, a: Action)
    requires Inv(w) && Enabled(w, a) && a.Rebind? && TakesEffect(w, a.r, a.end)
    ensures Inv(Apply(w, a))
  {
    var w' := Apply(w, a);
    var req := w.requests[a.r];
    assert RequestOk(req, w.bound, w.store, w.usedKeys, w.everBound);
    forall r | r in w'.requests ensures RequestOk(w'.requests[r], w'.bound, w'.store, w'.usedKeys, w'.everBound) {
      if r != a.r {
        BoundKeepsOthers(w, a.r, r);
      }
    }
    forall r | r in w.requests && r != a.r && w.requests[r].committed && w.requests[r].expected.Some?
      ensures !(w.requests[r].expected == req.expected && w.requests[r].node == req.node)
    {
      assert RequestOk(w.requests[r], w.bound, w.store, w.usedKeys, w.everBound);
    }
  }

  lemma StepKeepsInv(w: World, a: Action)
    requires Inv(w) && Enabled(w, a)
    ensures Inv(Apply(w, a))
  {
    hide Inv, Apply, Enabled;
    match a
    case Start(_, _, _, _) => StartKeepsInv(w, a);
    case Check(_, _) => CheckKeepsInv(w, a);
    case Locate(_, _, _) => CheckKeepsInv(w, a);
    case Preview(_) => CheckKeepsInv(w, a);
    case Upload(_, _, _, _) => UploadKeepsInv(w, a);
    case Rebind(_, _) => RebindKeepsInv(w, a);
    case DropNew(_, _) => DropNewKeepsInv(w, a);
    case DropOld(_, _) => DropOldKeepsInv(w, a);
    case ReadBack(_, _) => CheckKeepsInv(w, a);
  }

  // ----- whole runs -----

  predicate RunEnabled(w: World, run: seq<Action>)
    decreases |run|
  {
    run == [] || (Enabled(w, run[0]) && RunEnabled(Apply(w, run[0]), run[1..]))
  }

  function Run(w: World, run: seq<Action>): World
    requires RunEnabled(w, run)
    decreases |run|
  {
    if run == [] then w else Run(Apply(w, run[0]), run[1..])
  }

  lemma {:induction false} RunKeepsInv(w: World, run: seq<Action>)
    requires Inv(w) && RunEnabled(w, run)
    ensures Inv(Run(w, run))
    decreases |run|
  {
    hide Inv, Enabled, Apply;
    if run != [] {
      StepKeepsInv(w, run[0]);
      RunKeepsInv(Apply(w, run[0]), run[1..]);
    }
  }

  /** Whatever other updates do, and however long: this one stays where it is. */
  lemma {:induction false} RunOfOthers(w: World, run: seq<Action>, r: RequestId)
    requires Inv(w) && RunEnabled(w, run) && OfOthers(run, r) && r in w.requests
    ensures Inv(Run(w, run)) && r in Run(w, run).requests && Run(w, run).requests[r] == w.requests[r]
    decreases |run|
  {
    hide Inv;
    if run != [] {
      StepKeepsInv(w, run[0]);
      OthersStepKeeps(w, run[0], r);
      hide Enabled, Apply;
      RunOfOthers(Apply(w, run[0]), run[1..], r);
    }
  }

  predicate OfOthers(run: seq<Action>, r: RequestId) {
    forall i | 0 <= i < |run| :: run[i].r != r
  }

  lemma OthersStepKeeps(w: World, a: Action, r: RequestId)
    requires Enabled(w, a) && r in w.requests && a.r != r
    ensures r in Apply(w, a).requests && Apply(w, a).requests[r] == w.requests[r]
  {
  }

  /** After any run of updates, whatever their transactions did, the key of every bound node is in the
      store with the size recorded for the file. */
  lemma BoundKeysArePresent(w: World, run: seq<Action>, n: NodeId)
    requires Initial(w) && RunEnabled(w, run) && n in Run(w, run).bound
    ensures var w' := Run(w, run); w'.bound[n].loc in w'.store && w'.store[w'.bound[n].loc] == w'.bound[n].size
  {
    assert Inv(w);
    RunKeepsInv(w, run);
    hide KeysOk, RequestsOk, PendingApart, OnePerExpectation;
  }

  /** Of all updates of a node that name the same expected key, at most one takes effect. */
  lemma OneCommitPerExpectedKey(w: World, run: seq<Action>, r: RequestId, s: RequestId)
    requires Initial(w) && RunEnabled(w, run) && r in Run(w, run).requests && s in Run(w, run).requests
    requires var (p, q) := (Run(w, run).requests[r], Run(w, run).requests[s]);
             p.committed && q.committed && p.node == q.node && p.expected == q.expected && p.expected.Some?
    ensures r == s
  {
    assert Inv(w);
    RunKeepsInv(w, run);
    hide KeysOk, RequestsOk, PendingApart, BoundOk;
  }

  /** What a request answers is what happened: with success, or an error only in reading the node back, the
      new content took effect; with any other plain failure it did not. */
  lemma AnswersAreTruthful(w: World, run: seq<Action>, r: RequestId)
    requires Initial(w) && RunEnabled(w, run) && r in Run(w, run).requests && Run(w, run).requests[r].pc.Finished?
    ensures var req := Run(w, run).requests[r];
            && (req.pc.outcome.Replaced? || req.pc.outcome.Unread? ==> req.committed)
            && (req.pc.outcome.Failed? || req.pc.outcome.Previewed? ==> !req.committed)
  {
    assert Inv(w);
    RunKeepsInv(w, run);
    var w' := Run(w, run);
    hide KeysOk, PendingApart, BoundOk, OnePerExpectation;
    assert RequestOk(w'.requests[r], w'.bound, w'.store, w'.usedKeys, w'.everBound);
  }

  /** Deleting the new object after an unknown commit would be wrong: here the node is bound to it. */
  lemma UnknownMayBeCommitted()
    ensures exists w: World ::
      && Inv(w) && Enabled(w, Rebind(0, ErrorCommitted))
      && var w' := Apply(w, Rebind(0, ErrorCommitted));
         w'.requests[0].pc == Finished(CommitUnknown) && 0 in w'.bound && w'.bound[0].loc == w.requests[0].pc.loc
  {
    var loc := Loc(0, "k");
    var w := World(map[], map[loc := 1], map[0 := Request(0, None, 1, Rebinding(loc), false)], {"k"}, {});
    assert RequestOk(w.requests[0], w.bound, w.store, w.usedKeys, w.everBound);
    assert Inv(w) && Enabled(w, Rebind(0, ErrorCommitted));
  }

  /** The same update, however far it has got. */
  predicate SameUpdate(req: Request, req': Request) {
    req'.node == req.node && req'.expected == req.expected && req'.size == req.size
  }

  // ----- the code -----

  class DirectoryUseCase {
    /** The node and storage rows, the object store and the requests under way. */
    var world: World

    constructor (w: World)
      requires Initial(w)
      ensures world == w && Inv(world)
    {
      world := w;
    }

    /** Any number of steps of other requests. Callers rely on this contract alone. */
    method OthersRun(r: RequestId)
      requires Inv(world) && r in world.requests
      modifies this
      ensures Inv(world) && r in world.requests && world.requests[r] == old(world.requests[r])
    {
      hide Inv, Run, RunEnabled, OfOthers;
      var run: seq<Action> := *;
      if RunEnabled(world, run) && OfOthers(run, r) {
        RunOfOthers(world, run, r);
        world := Run(world, run);
      }
    }

    /** One atomic step of request r. */
    method Do(r: RequestId, a: Action) returns (pc: Pc)
      requires Inv(world) && a.r == r && Enabled(world, a)
      modifies this
      ensures Inv(world) && world == Apply(old(world), a)
      ensures r in world.requests && world.requests[r].pc == pc
      ensures !a.Start? ==> SameUpdate(old(world.requests[r]), world.requests[r])
    {
      StepKeepsInv(world, a);
      hide Inv;
      world := Apply(world, a);
      pc := world.requests[r].pc;
    }

    /** A finished request answers what happened to its write. */
    lemma AnswerIsTruthful(r: RequestId)
      requires Inv(world) && r in world.requests && world.requests[r].pc.Finished?
      ensures var req := world.requests[r];
              && (req.pc.outcome.Replaced? || req.pc.outcome.Unread? ==> req.committed)
              && (req.pc.outcome.Failed? || req.pc.outcome.Previewed? ==> !req.committed)
    {
      hide BoundOk, KeysOk, PendingApart, OnePerExpectation;
      assert RequestOk(world.requests[r], world.bound, world.store, world.usedKeys, world.everBound);
    }

    /** UpdateFileContent */
    method UpdateFileContent(r: RequestId, node: NodeId, expected: Option<Key>, size: nat, dryRun: bool)
      returns (outcome: Outcome)
      requires Inv(world) && r !in world.requests
      modifies this
      ensures Inv(world) && r in world.requests
      ensures world.requests[r] == Request(node, expected, size, Finished(outcome), world.requests[r].committed)
      ensures outcome.Replaced? || outcome.Unread? ==> world.requests[r].committed
      ensures outcome.Failed? || outcome.Previewed? ==> !world.requests[r].committed
      ensures dryRun ==> outcome in {Failed, Previewed}
    {
      hide Inv;
      var pc := Do(r, Start(r, node, expected, size));
      OthersRun(r);
      var fault: bool := *;
      pc := Do(r, Check(r, fault));
      if pc.Locating? {
        OthersRun(r);
        var choice: nat := *;
        fault := *;
        pc := Do(r, Locate(r, fault, choice));
      }
      if pc.Uploading? {
        if dryRun {
          pc := Do(r, Preview(r));
        } else {
          pc := UploadAndRebind(r);
        }
      }
      outcome := pc.outcome;
      AnswerIsTruthful(r);
    }

    /** From the upload to the last delete. */
    method UploadAndRebind(r: RequestId) returns (pc: Pc)
      requires Inv(world) && r in world.requests && world.requests[r].pc.Uploading?
      modifies this
      ensures Inv(world) && r in world.requests && world.requests[r].pc == pc && pc.Finished?
      ensures SameUpdate(old(world.requests[r]), world.requests[r])
      ensures pc.outcome.Replaced? || pc.outcome.Unread? ==> world.requests[r].committed
      ensures pc.outcome.Failed? ==> !world.requests[r].committed
      ensures !pc.outcome.Previewed?
    {
      hide Inv;
      OthersRun(r);
      FreshKey(world.usedKeys);
      var key :| key != "" && key !in world.usedKeys;
      var fault: bool, left: Option<nat> := *, *;
      pc := Do(r, Upload(r, key, fault, left));
      if pc.Finished? {
        AnswerIsTruthful(r);
        return;
      }
      OthersRun(r);
      var end: TxEnd := *;
      pc := Do(r, Rebind(r, end));
      OthersRun(r);
      var removes: bool := *;
      if pc.DroppingNew? {
        pc := Do(r, DropNew(r, removes));
      } else if pc.DroppingOld? {
        pc := Do(r, DropOld(r, removes));
      }
      if pc.ReadingBack? {
        OthersRun(r);
        fault := *;
        pc := Do(r, ReadBack(r, fault));
      }
      AnswerIsTruthful(r);
    }
  }
}
