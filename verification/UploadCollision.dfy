/** What a client text that equals a cleaner's does to the upload protocol: it is the one thing that can lose
    the object of a committed session. */
module UploadCollision {
  import opened Wrappers
  import opened UploadProtocol

  /** A committed session has lost its object. */
  ghost predicate Loses(ws: seq<World>, i: nat, j: nat) {
    i <= j < |ws| && exists s <- ws[i].log :: s in ws[i].issued && ws[i].issued[s] !in ws[j].objects
  }

  /** Completes of session `id` may come with `op`; every other Complete keeps clear of the cleaners' texts. */
  predicate SafeBut(actions: seq<Action>, id: SessionId, op: Op) {
    forall i | 0 <= i < |actions| ::
      Safe(actions[i]) || (actions[i].client.request.id == id && actions[i].client.request.op == op)
  }

  ghost predicate SomeRunLoses(id: SessionId, op: Op) {
    exists ws: seq<World>, actions: seq<Action>, i: nat, j: nat ::
      IsRun(ws, actions) && SafeBut(actions, id, op) && Loses(ws, i, j)
  }

  // ----- the run -----

  const ACTOR := Actor("a")
  const KEY := Key("k")

  function Claimed(op: Option<Op>): Row {
    Row(ACTOR, KEY, 1, Single, Pending, op)
  }

  /** One session, with its row, object, requests and history. */
  function At(id: SessionId, row: Row, stored: bool, requests: map<RequestId, Request>, committed: Option<Op>,
        cleaning: bool): World {
    World(map[id := row], if stored then map[KEY := 1] else map[], if committed.Some? then map[1 := KEY]
        else map[], requests,
          map[id := KEY], map[KEY := id], if committed.Some? then map[id := Commit(1, ACTOR, committed.value)]
              else map[],
          if cleaning then {id} else {})
  }

  /** A Complete under `op`, at some point of its course. */
  function Client(id: SessionId, op: Op, pc: CompletePc): Request {
    Complete(ACTOR, id, op, pc)
  }

  /** While a cleaner is about to delete, a Complete under the same text is at `pc`. */
  function Midway(id: SessionId, op: Op, cleaner: Request, pc: CompletePc): World {
    At(id, Claimed(Some(op)), true, map[0 := cleaner, 1 := Client(id, op, pc)], None, true)
  }

  /** The Complete has committed. */
  function Done(id: SessionId, op: Op, cleaner: Request, stored: bool): World {
    At(id, Claimed(Some(op)).(status := Committed(1, 1)), stored,
        map[0 := cleaner, 1 := Client(id, op, Finished(Ok(1)))], Some(op), true)
  }

  predicate Step(w: World, a: Action, w': World) {
    Enabled(w, a) && Apply(w, a) == w'
  }

  predicate Allowed(a: Action, id: SessionId, op: Op) {
    Safe(a) || (a.client.request.id == id && a.client.request.op == op)
  }

  ghost predicate IsRunTo(ws: seq<World>, actions: seq<Action>, id: SessionId, op: Op, w: World) {
    IsRun(ws, actions) && SafeBut(actions, id, op) && ws[|ws| - 1] == w
  }

  /** Some run leads to w. */
  ghost predicate Reachable(id: SessionId, op: Op, w: World) {
    exists ws: seq<World>, actions: seq<Action> :: IsRunTo(ws, actions, id, op, w)
  }

  lemma RunFurther(ws: seq<World>, actions: seq<Action>, id: SessionId, op: Op, w: World, a: Action, w': World)
    requires IsRunTo(ws, actions, id, op, w) && Step(w, a, w') && Allowed(a, id, op)
    ensures IsRunTo(ws + [w'], actions + [a], id, op, w')
  {
    hide Enabled, Apply, Safe;
  }

  lemma Go(id: SessionId, op: Op, w: World, a: Action, w': World)
    requires Reachable(id, op, w) && Step(w, a, w') && Allowed(a, id, op)
    ensures Reachable(id, op, w')
  {
    hide IsRunTo, Step, Allowed;
    var ws: seq<World>, actions: seq<Action> :| IsRunTo(ws, actions, id, op, w);
    RunFurther(ws, actions, id, op, w, a, w');
  }

  /** A new session gets its object. */
  lemma Uploads(id: SessionId, op: Op)
    ensures Reachable(id, op, At(id, Claimed(None), true, map[], None, false))
  {
    assert IsRunTo([EMPTY], [], id, op, EMPTY);
    hide Reachable;
    Go(id, op, EMPTY, ByClient(Init(id, ACTOR, KEY, 1, Single)), At(id, Claimed(None), false, map[], None, false));
    Go(id, op, At(id, Claimed(None), false, map[], None, false), ByClient(Put(id, 1)),
        At(id, Claimed(None), true, map[], None, false));
  }

  /** The janitor claims the session and is about to delete. */
  lemma JanitorClaims(id: SessionId)
    ensures Reachable(id, JanitorOp(id),
            At(id, Claimed(Some(JanitorOp(id))), true, map[0 := Sweep(id, SweepDeleting(Claimed(Some(JanitorOp(id)))))],
            None, true))
  {
    var (op, row, free) := (JanitorOp(id), Claimed(Some(JanitorOp(id))), Claimed(None));
    Uploads(id, op);
    hide Reachable;
    assert Step(At(id, free, true, map[], None, false), ByClient(Start(0, Sweep(id, SweepClaiming))),
                At(id, free, true, map[0 := Sweep(id, SweepClaiming)], None, false));
    Go(id, op, At(id, free, true, map[], None, false), ByClient(Start(0, Sweep(id, SweepClaiming))),
       At(id, free, true, map[0 := Sweep(id, SweepClaiming)], None, false));
    JanitorClaimStep(id);
    JanitorFindStep(id);
    hide Step;
    Go(id, op, At(id, free, true, map[0 := Sweep(id, SweepClaiming)], None, false), BySweep(0, ClaimExpired(false)),
       At(id, row, true, map[0 := Sweep(id, SweepClaimed(row))], None, false));
    Go(id, op, At(id, row, true, map[0 := Sweep(id, SweepClaimed(row))], None, false),
        BySweep(0, FindSweepProvider(true)),
       At(id, row, true, map[0 := Sweep(id, SweepDeleting(row))], None, true));
  }

  lemma JanitorClaimStep(id: SessionId)
    ensures Step(At(id, Claimed(None), true, map[0 := Sweep(id, SweepClaiming)], None, false),
            BySweep(0, ClaimExpired(false)),
                 At(id, Claimed(Some(JanitorOp(id))), true,
                     map[0 := Sweep(id, SweepClaimed(Claimed(Some(JanitorOp(id)))))], None, false))
  {
    hide JanitorOp, AbortOp;
  }

  lemma JanitorFindStep(id: SessionId)
    ensures var row := Claimed(Some(JanitorOp(id)));
            Step(At(id, row, true, map[0 := Sweep(id, SweepClaimed(row))], None, false),
                BySweep(0, FindSweepProvider(true)),
                 At(id, row, true, map[0 := Sweep(id, SweepDeleting(row))], None, true))
  {
    hide JanitorOp, AbortOp;
  }

  /** Abort claims the session and is about to delete. */
  lemma AbortClaims(id: SessionId)
    ensures Reachable(id, AbortOp(id),
            At(id, Claimed(Some(AbortOp(id))), true,
            map[0 := Abort(ACTOR, id, AbortDeleting(Claimed(Some(AbortOp(id)))))], None, true))
  {
    var (op, row, free) := (AbortOp(id), Claimed(Some(AbortOp(id))), Claimed(None));
    Uploads(id, op);
    hide Reachable;
    assert Step(At(id, free, true, map[], None, false), ByClient(Start(0, Abort(ACTOR, id, AbortClaiming))),
                At(id, free, true, map[0 := Abort(ACTOR, id, AbortClaiming)], None, false));
    Go(id, op, At(id, free, true, map[], None, false), ByClient(Start(0, Abort(ACTOR, id, AbortClaiming))),
       At(id, free, true, map[0 := Abort(ACTOR, id, AbortClaiming)], None, false));
    AbortClaimStep(id);
    AbortFindStep(id);
    hide Step;
    Go(id, op, At(id, free, true, map[0 := Abort(ACTOR, id, AbortClaiming)], None, false),
        ByAbort(0, ClaimAbort(false, Acked)),
       At(id, row, true, map[0 := Abort(ACTOR, id, AbortClaimed(row))], None, false));
    Go(id, op, At(id, row, true, map[0 := Abort(ACTOR, id, AbortClaimed(row))], None, false),
        ByAbort(0, FindProvider(true)),
       At(id, row, true, map[0 := Abort(ACTOR, id, AbortDeleting(row))], None, true));
  }

  lemma AbortClaimStep(id: SessionId)
    ensures Step(At(id, Claimed(None), true, map[0 := Abort(ACTOR, id, AbortClaiming)], None, false),
            ByAbort(0, ClaimAbort(false, Acked)),
                 At(id, Claimed(Some(AbortOp(id))), true,
                     map[0 := Abort(ACTOR, id, AbortClaimed(Claimed(Some(AbortOp(id)))))], None, false))
  {
    hide JanitorOp, AbortOp;
  }

  lemma AbortFindStep(id: SessionId)
    ensures var row := Claimed(Some(AbortOp(id)));
            Step(At(id, row, true, map[0 := Abort(ACTOR, id, AbortClaimed(row))], None, false),
                ByAbort(0, FindProvider(true)),
                 At(id, row, true, map[0 := Abort(ACTOR, id, AbortDeleting(row))], None, true))
  {
    hide JanitorOp, AbortOp;
  }

  // A Complete under the cleaner's text, step by step.

  lemma StartStep(id: SessionId, op: Op, cleaner: Request)
    ensures Step(At(id, Claimed(Some(op)), true, map[0 := cleaner], None, true),
            ByClient(Start(1, Client(id, op, Preflight))),
                 Midway(id, op, cleaner, Preflight))
  {
    assert map[0 := cleaner][1 := Client(id, op, Preflight)] == map[0 := cleaner, 1 := Client(id, op, Preflight)];
  }

  lemma CheckStep(id: SessionId, op: Op, cleaner: Request)
    ensures Step(Midway(id, op, cleaner, Preflight), ByComplete(1, CheckSession(None)),
            Midway(id, op, cleaner, Claiming))
  {
  }

  lemma ClaimAgainStep(id: SessionId, op: Op, cleaner: Request)
    ensures Step(Midway(id, op, cleaner, Claiming), ByComplete(1, Claim(None, Acked)),
                 Midway(id, op, cleaner, CompletePc.Claimed(Claimed(Some(op)))))
  {
    hide OpFree;
  }

  lemma AssemblesStep(id: SessionId, op: Op, cleaner: Request)
    ensures Step(Midway(id, op, cleaner, CompletePc.Claimed(Claimed(Some(op)))), ByComplete(1, Assemble(None, false)),
                 Midway(id, op, cleaner, Assembled(Claimed(Some(op)), false)))
  {
  }

  lemma StatsStep(id: SessionId, op: Op, cleaner: Request)
    ensures Step(Midway(id, op, cleaner, Assembled(Claimed(Some(op)), false)), ByComplete(1, Stat(true)),
                 Midway(id, op, cleaner, Creating(Claimed(Some(op)))))
  {
  }

  lemma CommitStep(id: SessionId, op: Op, cleaner: Request)
    ensures Step(Midway(id, op, cleaner, Creating(Claimed(Some(op)))), ByComplete(1, Create(None, 1, Acked)),
            Done(id, op, cleaner, true))
  {
  }

  /** It takes the cleaner's claim for its own and commits. */
  lemma CompletesBeside(id: SessionId, op: Op, cleaner: Request)
    requires Reachable(id, op, At(id, Claimed(Some(op)), true, map[0 := cleaner], None, true))
    ensures Reachable(id, op, Done(id, op, cleaner, true))
  {
    StartStep(id, op, cleaner);
    CheckStep(id, op, cleaner);
    ClaimAgainStep(id, op, cleaner);
    AssemblesStep(id, op, cleaner);
    StatsStep(id, op, cleaner);
    CommitStep(id, op, cleaner);
    var row := Claimed(Some(op));
    hide Step, Reachable, At, Midway, Done;
    Go(id, op, At(id, row, true, map[0 := cleaner], None, true), ByClient(Start(1, Client(id, op, Preflight))),
        Midway(id, op, cleaner, Preflight));
    Go(id, op, Midway(id, op, cleaner, Preflight), ByComplete(1, CheckSession(None)),
        Midway(id, op, cleaner, Claiming));
    Go(id, op, Midway(id, op, cleaner, Claiming), ByComplete(1, Claim(None, Acked)),
        Midway(id, op, cleaner, CompletePc.Claimed(row)));
    Go(id, op, Midway(id, op, cleaner, CompletePc.Claimed(row)), ByComplete(1, Assemble(None, false)),
        Midway(id, op, cleaner, Assembled(row, false)));
    Go(id, op, Midway(id, op, cleaner, Assembled(row, false)), ByComplete(1, Stat(true)),
        Midway(id, op, cleaner, Creating(row)));
    Go(id, op, Midway(id, op, cleaner, Creating(row)), ByComplete(1, Create(None, 1, Acked)),
        Done(id, op, cleaner, true));
  }

  /** The cleaner goes on and deletes the object of the committed session. */
  lemma ThenLoses(id: SessionId, op: Op, cleaner: Request, delete: Action, after: Request)
    requires Reachable(id, op, Done(id, op, cleaner, true)) && !delete.ByClient?
    requires Step(Done(id, op, cleaner, true), delete, Done(id, op, after, false))
    ensures SomeRunLoses(id, op)
  {
    hide Step, IsRun, SafeBut;
    var ws: seq<World>, actions: seq<Action> :| IsRunTo(ws, actions, id, op, Done(id, op, cleaner, true));
    RunFurther(ws, actions, id, op, Done(id, op, cleaner, true), delete, Done(id, op, after, false));
    var ws' := ws + [Done(id, op, after, false)];
    assert |ws| > 0 by { assert IsRunTo(ws, actions, id, op, Done(id, op, cleaner, true)); NotEmpty(ws, actions); }
    assert ws'[|ws| - 1] == Done(id, op, cleaner, true) && ws'[|ws|] == Done(id, op, after, false);
    assert id in ws'[|ws| - 1].log && ws'[|ws| - 1].issued[id] == KEY && KEY !in ws'[|ws|].objects;
    assert Loses(ws', |ws| - 1, |ws|);
  }

  lemma NotEmpty(ws: seq<World>, actions: seq<Action>)
    requires IsRun(ws, actions)
    ensures |ws| > 0
  {
  }

  lemma WithoutObject(cleaner: Request, after: Request, client: Request)
    ensures map[0 := cleaner, 1 := client][0 := after] == map[0 := after, 1 := client]
    ensures map[KEY := 1] - {KEY} == map[]
  {
  }

  lemma JanitorDeletes(id: SessionId, op: Op, row: Row)
    requires row.key == KEY
    ensures Step(Done(id, op, Sweep(id, SweepDeleting(row)), true), BySweep(0, SweepObject(true, false)),
            Done(id, op, Sweep(id, SweepDropping), false))
  {
    WithoutObject(Sweep(id, SweepDeleting(row)), Sweep(id, SweepDropping), Client(id, op, Finished(Ok(1))));
  }

  lemma AbortDeletes(id: SessionId, op: Op, row: Row)
    requires row.key == KEY
    ensures Step(Done(id, op, Abort(ACTOR, id, AbortDeleting(row)), true), ByAbort(0, DeleteObject(true, false)),
            Done(id, op, Abort(ACTOR, id, AbortDropping), false))
  {
    WithoutObject(Abort(ACTOR, id, AbortDeleting(row)), Abort(ACTOR, id, AbortDropping),
        Client(id, op, Finished(Ok(1))));
  }

  /** Without such a text no run loses anything. */
  lemma SafeRunsLoseNothing(id: SessionId, op: Op, ws: seq<World>, actions: seq<Action>, i: nat, j: nat)
    requires IsRun(ws, actions) && SafeBut(actions, id, op) && NotCleaners(id, op)
    ensures !Loses(ws, i, j)
  {
    hide IsRun, AbortOp, JanitorOp;
    assert SafeRun(actions);
    if i <= j < |ws| {
      RunExtends(ws, actions, i, j);
      forall s <- ws[i].log ensures s in ws[i].issued ==> ws[i].issued[s] in ws[j].objects {
        CommittedObjectsAreNeverDeleted(ws, actions, i, j, s);
      }
    }
  }

  /** A client text that equals a cleaner's of the same session loses a committed object in some run; any other
      text, even under `internal:`, does in none. */
  lemma ExactlyCleanersTexts(id: SessionId, op: Op)
    ensures SomeRunLoses(id, op) <==> !NotCleaners(id, op)
  {
    var row := Claimed(Some(op));
    if op == AbortOp(id) {
      AbortClaims(id);
      AbortDeletes(id, op, row);
      hide Step, At, AbortOp, JanitorOp, Done, Reachable;
      CompletesBeside(id, op, Abort(ACTOR, id, AbortDeleting(row)));
      ThenLoses(id, op, Abort(ACTOR, id, AbortDeleting(row)), ByAbort(0, DeleteObject(true, false)),
          Abort(ACTOR, id, AbortDropping));
    } else if op == JanitorOp(id) {
      JanitorClaims(id);
      JanitorDeletes(id, op, row);
      hide Step, At, AbortOp, JanitorOp, Done, Reachable;
      CompletesBeside(id, op, Sweep(id, SweepDeleting(row)));
      ThenLoses(id, op, Sweep(id, SweepDeleting(row)), BySweep(0, SweepObject(true, false)), Sweep(id, SweepDropping));
    } else {
      hide IsRun, AbortOp, JanitorOp, Loses, SafeBut;
      forall ws: seq<World>, actions: seq<Action>, i: nat, j: nat | IsRun(ws, actions) && SafeBut(actions, id, op)
        ensures !Loses(ws, i, j)
      {
        SafeRunsLoseNothing(id, op, ws, actions, i, j);
      }
    }
  }
}
