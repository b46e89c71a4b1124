# OmniFlow: a verified model of its core

OmniFlow keeps file trees in Postgres and file contents in object storage. This project models, in Dafny 4.11,
the places where it has to keep the two in step and where it rewrites trees, and proves what those places promise.
`dafny verify dfyconfig.toml` checks everything; there are no axioms.

How the model is built:

- **Protocols are step systems.** Upload sessions, storage migration and content replacement each have a `World` (rows,
  objects, program counters, history), an `Action` type with one constructor for every transaction, single SQL
  statement or object store call, and `Apply`. The `WHERE` clause of a statement is the guard of its step. A run is any
  sequence of enabled actions, so every interleaving of any number of requests is covered. Expiry may be decided either
  way at any moment: no clock is assumed. Transactions may commit and still report an error.
- **Code is imperative Dafny.** The use cases are classes whose methods change their fields step by step, as in the
  source; loops over lists, stacks, maps and work lists are loops with invariants, proved against specification
  functions. In the three protocol classes every step goes through `Do`, which is one action of the step system, and
  `OthersRun` between the steps takes an arbitrary enabled run of the other requests; the `RunOfOthers` lemmas say what
  no such run can change.
- **Outside parties are parameters.** Faults, commit outcomes, object store effects and fresh keys are
  nondeterministic; URL parsing is a function with its few laws; a hash is the value it is taken of.
- **Shared modules.** `Forest` (parent maps, ways up, moves), `Sorting`, `TextOrder`, `SetSum`, `GoText`, `GoInt`,
  `Fresh`, `NodeNames`, `Wrappers`.

The files: `UploadProtocol`, `UploadCollision`, `UploadService`; `Migration`, `MigrationService`;
`ContentReplacement`, `SwapRaces`; `CopyPlan`, `NodeCopy`; `BookmarkTree`, `BookmarkImport`, `BookmarkMove`,
`BookmarkNormalize`, `BookmarkService`; `Recycle`; `MoveBatch`, `ManyMoves`, `MoveRaces`, `MoveRaceRuns`;
`RenameBatch`, `RenameBatchService`, `RenameRaces`; `UploadParts`, `PartBodies`; `Browse`; `Registry`; `AutoRename`;
`NodePath`.

## Where the code does less than it seems to

The model follows the code. Where a natural property fails, it is stated with the exact condition under which it holds.

- **Batch rename** compares names with the extension trimmed and without its leading dot, while the unique index uses
  the stored extension as it is. With stored extensions in that canonical form no write can hit the index
  (`RenameBatch.CanonicalWritesFit`); for every other extension there is a library where one does
  (`RenameBatch.OtherExtensionsCollide`). Files with such an extension are created from one with two leading dots
  (`RenameBatch.CreatedExtensionCollides`). The batch locks its files but not the names beside them, so a creation that
  commits between its checks and its writes makes it fail, exactly when it takes a name the batch asks for
  (`RenameRaces.LateWritesFit`, `RenameRaces.SomeCreateHitsIndex`).
- **Copying** stores extensions anew, so siblings whose extensions differ only in a leading dot cannot be copied
  together (`NodeCopy.DottedCollide`); canonical ones can (`NodeCopy.CanonicalCopiesApart`).
- **Normalizing a bookmark** checks the length of a url before it is printed and not after: escaping may make it too
  long for the same check and for its column, and an icon may be left with a blank at its end. A normal form comes back
  when normalized again exactly when neither has happened (`BookmarkNormalize.NormalizeTwice`); the inputs are
  `BookmarkNormalize.LongFormIsRefused` and `BookmarkNormalize.BlankEndIsLost`.
- **Bookmark sort orders** are cut to int32. An import shows in its order if and only if no level runs past int32
  (`BookmarkImport.ImportAppends`), a created bookmark is last if and only if its order fits
  (`BookmarkService.CreatedShowsLast`), and a move if and only if the renumbered level fits
  (`BookmarkService.MoveShowsRequestedOrder`).
- **Moving a bookmark to parent 0** lists the siblings of a parent that nobody has but lands at the top level
  (`BookmarkService.ZeroParentOrder`).
- **The upload plan** announces no parts when rounding the size up to whole parts leaves int64
  (`UploadParts.OverflowingPlan`); all other plans tile the file (`UploadParts.PlanTiles`).
- **Client operation ids** are not kept out of the `internal:` name space. A Complete under the very text that an Abort
  or the janitor uses for its session can commit while the object is deleted; with any other text that never happens
  (`UploadCollision.ExactlyCleanersTexts`). `UploadService.UploadSessionUseCase.Complete` asks for no more than that.
- **Concurrent moves** look at the tree before they hold a lock that covers what they saw. A node move locks the old
  and the new parent only, a creation its parent under a key of another kind; bookmarks and deletes lock nothing. Two
  moves into each other's subtree can both commit and leave a cycle (`MoveRaceRuns.CycleRun`), which the walk of
  `ensureMoveTarget` never leaves (`MoveRaceRuns.CycleTrapsWalk`, in general `MoveRaceRuns.WalkEndsExactly`), and a
  delete beside a move or a creation can leave a row under a deleted folder (`MoveRaceRuns.DanglingRun`,
  `MoveRaceRuns.CreationDangles`). What the locks on the parents do keep apart are moves that want a scope in common
  (`MoveRaces.OverlapKeepsGood`, `MoveRaces.OneTargetKeepsGood`). The exact conditions are `ManyMoves.MovesKeepForest`
  for moves that saw the same tree and `MoveRaces.GoodWhileCommitsFit` for whole runs; one lock per tree, taken before
  looking, excludes all of it (`MoveRaces.SharedScopeKeepsGood`). The contracts of single moves and deletes are about
  one that runs alone.
- **Moving under another name**: `MoveNode` looks for the name in its input and never writes it, while the unique index
  sees the stored one. The check keeps a move off the index exactly when both are the same name
  (`MoveBatch.CheckSufficesExactly`, `MoveBatch.PlainCheck`); otherwise there is a library where the move fails at the
  update (`MoveBatch.OtherNamesHitIndex`).
- **Canceling a migration** looks at the task first and updates its status later without a guard, so a task completed
  in between is canceled all the same (`MigrationService.MigrationUseCase.CloseTask`).
- **Reloading the providers** compares configurations without their public endpoint, although the client is built from
  it: changing only that keeps the old client (`Registry.StorageRegistry.Reload`). `Resolve` and `Default` choose an
  alias before a reload and may look it up after it.
- **Provider lookups**: `ProviderConfigByAlias` trims the alias for its comparison in lower case, `Get` does not. They
  agree exactly on aliases without outer blanks and on nothing but blanks (`Registry.LookupsAgreeExactly`).
- **Content replacement beside migration**: a swap does not look whether the row it replaces has been rewritten since
  it was planned, nor a replacement whether the row it updates is still live. Either commit, when it comes too late,
  leaves the file on old bytes with the new size (`SwapRaces.StaleSwap`, `SwapRaces.LateWrite`); without such commits
  every file reads what it was last given, and only then (`SwapRaces.ReadableWhileCommitsFit`).
- **Content replacement** reports an error when reading the node back fails although the write took effect; the model
  keeps this answer (`Unread`) apart from the failures that changed nothing.
- **Enqueue** calls `CreateTaskWithItems` outside a transaction although its comment asks for one, so a failed insert
  leaves a task with part of its items. `AggregateTaskProgressIfFinal` may overwrite the status of a canceled task.
  Both are steps of the model, and the migration results hold with them.
- **The policy `replace`** of node creation picks a free name just like `auto_rename`
  (`AutoRename.ResolveCreateNodeName`).

## Model

| member | source | states |
|---|---|---|
| `UploadProtocol.CommittedObjectsAreNeverDeleted` | internal/usecase/upload_session_completion.go:80-183 | in every run of any number of Completes, Aborts, sweeps and client writes, with commits that may take effect yet report an error and a janitor that may claim any pending row at any moment, as long as no Complete comes with the text of a cleaner of its session: once a session is committed its node stays, bound to an object that is in the store, for the rest of the run |
| `UploadCollision.ExactlyCleanersTexts` | internal/usecase/upload_session.go:572-634 | with client operation texts as they come: some run commits a session and loses its object if and only if a client text equals the Abort or janitor text of that session; any other text, under `internal:` or not, loses nothing in any run |
| `UploadProtocol.CleaningExcludesCommit` | internal/usecase/upload_session.go:572-634 | a session an Abort or the janitor has begun to delete is committed at no moment of that run, earlier or later |
| `UploadProtocol.OneNodePerSession` | internal/usecase/upload_session_completion.go:130-183 | two nodes made by completions never share an object, so a session has one node at most over all retries |
| `UploadProtocol.CompletesAgree` | internal/usecase/upload_session_completion.go:60-206 | two Completes of a session that succeed at any two moments return the same node and carry the operation id of the commit |
| `UploadProtocol.ForeignCompleteRefused` | internal/usecase/upload_session_completion.go:245-302 | a Complete under another operation id finds a claimed or committed session closed and changes nothing but its own progress |
| `UploadProtocol.ReconcileIsTruthful` | internal/usecase/upload_session_completion.go:209-243 | "committed" is answered only with the node a Complete of this actor and operation made; while that receipt lives and is not expired it is the only answer; a receipt whose two node ids disagree never occurs |
| `UploadProtocol.OpTextsStayApart` | internal/usecase/upload_session.go:417-464 | cleaners of different sessions, and the two kinds of cleaners, use different texts, so among them comparing stored texts is comparing owners |
| `UploadProtocol.SafeClientTexts` | internal/usecase/upload_session.go:572-634 | the texts that no cleaner of any session uses are exactly those outside `internal:abort:` and `internal:janitor:` |
| `UploadProtocol.StepKeepsInv` | internal/repository/postgres/impl/uploadsession/repository.go:113-294 | every transaction, SQL statement and object store call keeps the invariant: rows and history agree, a committed session is stored and not being cleaned, a claim to release is nobody else's |
| `UploadProtocol.RunKeepsInv` | internal/usecase/upload_session_completion.go:60-206 | the invariant holds after every step of every run from the empty system |
| `UploadProtocol.StepExtends` | internal/usecase/upload_session.go:357-464 | no step takes back a commit, a node, or the fact that cleaning began |
| `UploadProtocol.RunExtends` | internal/usecase/upload_session_completion.go:60-206 | history only grows between any two moments of a run |
| `UploadProtocol.RunOfOthers` | internal/usecase/upload_session_completion.go:60-206 | after any enabled run without a step of request r, however long, r is where it was, the invariant holds and history has only grown: what every use case method relies on between its own steps |
| `UploadProtocol.CreateTakenKeepsInv` | internal/usecase/upload_session_completion.go:130-183 | creating the node and writing the receipt in one transaction under a held claim keeps the invariant |
| `UploadProtocol.AbortProviderKeepsInv` | internal/usecase/upload_session.go:357-415 | an Abort that gives its claim back has deleted nothing; one that starts deleting owns the session for good |
| `UploadProtocol.SweepClaimKeepsInv` | internal/repository/postgres/impl/uploadsession/repository.go:158-181 | the janitor may take over any pending row, claimed or not |
| `UploadService.NormalizeOperationId` | internal/usecase/upload_session_completion.go:390-404 | refused exactly without an upload id or past the length limit; otherwise the trimmed text, or for a blank one `upload:` and the trimmed upload id |
| `UploadService.DerivedIdsAreSafe` | internal/usecase/upload_session_completion.go:390-404 | the id derived for old clients is no cleaner's text |
| `UploadService.UploadSessionUseCase.ClaimCompletion` | internal/usecase/upload_session_completion.go:245-302 | when it lets a Complete go on, the row carries this actor's operation id and is what the request works from |
| `UploadService.UploadSessionUseCase.FinishObject` | internal/usecase/upload_session_completion.go:304-349 | goes on to the commit only with the object stored at the recorded size; only a multipart upload whose assembly failed may end with its claim kept, every other early exit goes through the release |
| `UploadService.UploadSessionUseCase.CreateNodeWithReceipt` | internal/usecase/upload_session_completion.go:130-183 | when it succeeds the session is committed with the returned node, this actor and this operation |
| `UploadService.UploadSessionUseCase.ReleaseOperationClaim` | internal/usecase/upload_session_completion.go:420-430 | the request ends with the error that caused the release, and when the update works its claim is gone from the row |
| `UploadService.UploadSessionUseCase.Complete` | internal/usecase/upload_session_completion.go:60-206 | whatever enabled steps of others come between its own, a returned node is the one node of the session, its object is stored and the receipt carries this actor and operation; asked only of texts that are no cleaner's of this session |
| `UploadService.UploadSessionUseCase.Abort` | internal/usecase/upload_session.go:357-415 | success means the session was committed and left alone, or its row is gone for good |
| `UploadService.UploadSessionUseCase.SweepPending` | internal/usecase/upload_session.go:572-634 | best effort on one listed session: the sweep ends, takes back no history, and keeps the invariant whatever others do |
| `UploadService.UploadSessionUseCase.SweepCommitted` | internal/repository/postgres/impl/uploadsession/repository.go:277-294 | only a row that is still committed when looked at again is removed, and no object is touched |
| `UploadService.UploadSessionUseCase.SweepExpired` | internal/usecase/upload_session.go:572-634 | over a listing that may be out of date, every session committed before keeps its node and object |
| `UploadService.SuccessMeans` | internal/usecase/upload_session_completion.go:376-388 | a finished Complete with a node: the session is committed with that node, actor and operation |
| `UploadService.AbortMeans` | internal/usecase/upload_session.go:357-415 | a finished successful Abort: the session is committed, or being cleaned and without a row |
| `UploadParts.PlanTiles` | internal/usecase/upload_session.go:652-662 | a plan that stays within int64 cuts the file into consecutive nonempty ranges that add up to its size; all but the last have the full part size of at least 16 MiB |
| `UploadParts.OverflowingPlan` | internal/usecase/upload_session.go:652-662 | a plan that does not stay within int64 announces no part at all |
| `UploadParts.PartRangeIsExact` | internal/transport/cli/command_upload.go:283-337 | no offset or end of such a plan wraps around |
| `UploadParts.UploadAllParts` | internal/transport/cli/command_upload.go:198-279 | batches of four one after the other, each part of a batch once in any order: succeeds exactly when every part is signed, nonempty and stored, then with the own range of each; a failing part does not hold up the rest of its batch, a missing URL leaves the rest of it unsent; parts of finished batches all worked |
| `UploadParts.SendBatch` | internal/transport/cli/command_upload.go:240-272 | the concurrent requests of one batch: each part runs once, in any order, and what is collected is what was answered |
| `UploadParts.BatchAfterBatch` | internal/transport/cli/command_upload.go:206-279 | a whole batch in any order, after whole batches: still the first parts, each once |
| `UploadParts.NormalizeCompletedParts` | internal/usecase/upload_session_completion.go:351-374 | accepted exactly when nonempty with distinct positive numbers and tags; the result is the same parts in ascending order, and an ascending trimmed list comes back unchanged |
| `UploadParts.NormalizedIsAscending` | internal/usecase/upload_session_completion.go:351-374 | sorting distinct part numbers gives the strictly ascending list of the same parts |
| `UploadParts.Finish` | internal/transport/cli/command_upload.go:240-279 | the client's list of parts 1 to n passes the server's check exactly when there is a part |
| `UploadParts.UploadFile` | internal/transport/cli/command_upload.go:140-148 | plan, part uploads and the server's check end to end: accepted uploads tile the file, and with all parts signed and stored every plan that fits is accepted |
| `PartBodies.BoundedReader.Read` | internal/transport/cli/command_upload.go:339-349 | hands out the next bytes of the part in order, never one beyond it, and ends only when the part is done |
| `PartBodies.Drain` | internal/transport/cli/command_upload.go:320-322 | whatever the sizes of single reads, the body is exactly what the reader had to deliver |
| `PartBodies.PartBody` | internal/transport/cli/command_upload.go:283-337 | the body of a part is the file's bytes of its range |
| `PartBodies.TilesAssembleFile` | internal/transport/cli/command_upload.go:198-279 | the bodies of parts that tile a file, put together in order, are that file |
| `PartBodies.UploadBytes` | internal/transport/cli/command_upload.go:198-337 | an accepted upload stores exactly the bytes of the file |
| `Migration.FilesStayReadable` | internal/usecase/migration.go:312-403 | after any run of workers, cancellations, failures and new tasks every file reference resolves to a stored object of the recorded size |
| `Migration.CountersAreExact` | internal/usecase/migration.go:312-427 | in every reachable state completedObjects is the number of done items of the task and transferredBytes the sum of their sizes |
| `Migration.ProgressStaysInPlan` | internal/usecase/migration.go:81-199 | progress never passes what Enqueue announced; all objects completed means exactly the announced bytes |
| `Migration.StepKeepsInv` | internal/usecase/migration.go:312-427 | every single step of processItem, failItem, Enqueue and Cancel keeps references, items, counters and workers consistent |
| `Migration.RunKeepsInv` | internal/usecase/migration_worker.go:56-111 | the same over whole runs of any number of workers |
| `Migration.RunOfOthers` | internal/usecase/migration_worker.go:56-111 | after any enabled run without a step of a worker that worker is where it was, and no size, row, plan or done item is taken back |
| `Migration.RunBeside` | internal/usecase/migration.go:81-199 | whatever others do, a task has the items its own Enqueue has given it so far |
| `Migration.SwapKeepsRefs` | internal/repository/postgres/impl/migration/swap.go:25-68 | switching the references of a row to the new object leaves every reference resolved |
| `Migration.DropSourceKeepsInv` | internal/usecase/migration.go:394-403 | deleting the source after the switch removes no object a live row or a pending copy needs |
| `Migration.TargetIsPrivate` | internal/usecase/migration.go:104-124 | the place an item copies to is no row's place and no other worker's target |
| `Migration.StepFrame` | internal/usecase/migration.go:203-225 | files keep their sizes; tasks, rows and items stay; a done item stays done; only Enqueue adds tasks and items |
| `Migration.StepKeepsPlans` | internal/repository/postgres/impl/migration/repository.go:75-120 | the items of a task are as many, and add up to as much, as the part of its plan inserted so far |
| `MigrationService.MigrationUseCase.Enqueue` | internal/usecase/migration.go:81-199 | the totals are the int32 count and int64 sum of the sizes; without a target provider, without objects and on a dry run nothing is written; on success every planned item exists |
| `MigrationService.TotalBytes` | internal/usecase/migration.go:104-124 | the running int64 total is the wrapped sum |
| `MigrationService.MigrationUseCase.Cancel` | internal/usecase/migration.go:203-225 | refused, with nothing changed, exactly for a missing, foreign or closed task; the update of the status comes after any steps of others |
| `MigrationService.MigrationUseCase.CloseTask` | internal/repository/postgres/impl/migration/repository.go:172-199 | the update has no guard: the status becomes canceled whatever it was, and nothing else changes |
| `MigrationService.MigrationUseCase.SkipWaiting` | internal/repository/postgres/impl/migration/items.go:113-130 | afterwards no item of the task waits for a worker |
| `MigrationService.MigrationUseCase.ProcessItem` | internal/usecase/migration.go:312-427 | whatever enabled steps of others come between, the worker ends idle, and an item reported as moved is done |
| `MigrationService.MigrationUseCase.CopyToTarget` | internal/usecase/migration.go:326-350 | both providers, the read and the upload lead to the check or to failItem |
| `MigrationService.MigrationUseCase.SwapAfterCheck` | internal/usecase/migration.go:351-393 | a target that passed its size check and was switched to is done; anything else has its target dropped |
| `MigrationService.MigrationUseCase.FailItem` | internal/usecase/migration.go:429-450 | mark, count and aggregate leave the worker idle |
| `MigrationService.MigrationUseCase.TickOnce` | internal/usecase/migration_worker.go:89-111 | a worker claims a waiting item and processes it, or finds none waiting |
| `ContentReplacement.BoundKeysArePresent` | internal/usecase/directory.go:305-328 | after any run of updates, whatever their transactions did, the key of every bound node is in the store with the recorded size |
| `ContentReplacement.OneCommitPerExpectedKey` | internal/repository/postgres/impl/node/node_write.go:468-556 | of all updates of a node that name the same expected key one takes effect at most |
| `ContentReplacement.AnswersAreTruthful` | internal/usecase/directory.go:213-351 | success, or an error only in reading the node back, means the new content took effect; any other plain failure or a dry run that it did not |
| `ContentReplacement.UnknownMayBeCommitted` | internal/usecase/directory.go:305-328 | a state in which deleting the new object after an unknown commit would delete the bound one |
| `ContentReplacement.StepKeepsInv` | internal/usecase/node.go:1731-1750 | every step keeps bound objects stored and spent keys unbound |
| `ContentReplacement.RunKeepsInv` | internal/usecase/directory.go:213-351 | the same over whole runs of any number of updates |
| `ContentReplacement.RunOfOthers` | internal/usecase/directory.go:213-351 | after any enabled run without a step of an update that update is where it was |
| `ContentReplacement.CommitKeepsInv` | internal/repository/postgres/impl/node/node_write.go:558-617 | rebinding under the expectation check keeps every other update's view right |
| `ContentReplacement.DropOldKeepsInv` | internal/usecase/directory.go:326-328 | the object deleted after a commit is nobody's current one |
| `ContentReplacement.DirectoryUseCase.UpdateFileContent` | internal/usecase/directory.go:213-351 | whatever enabled steps of others come between, its answer tells what happened to its write, and a dry run writes nothing |
| `ContentReplacement.DirectoryUseCase.UploadAndRebind` | internal/usecase/directory.go:305-333 | from the upload to the last delete, for every end of the transaction: it finishes as the same update, replaced or unread only if the write took effect and failed only if it did not |
| `SwapRaces.ReadableWhileCommitsFit` | internal/repository/postgres/impl/migration/swap.go:31-67 | over every run of any number of interleaved migrations and content replacements: all files read what they were last given, in content and recorded size, at every moment if and only if every swap finds the row whose bytes it has copied and every replacement finds its row still live |
| `SwapRaces.StepDecides` | internal/repository/postgres/impl/node/node_write.go:468-556 | a single step from such a state leaves one exactly under that condition |
| `SwapRaces.RunKeepsInv` | internal/repository/postgres/impl/node/node_write.go:468-556 | in every reachable state, late commits or not, places belong to one row each, copies are true and a replacement under way brings bytes nothing else has had |
| `SwapRaces.StaleSwap` | internal/repository/postgres/impl/migration/swap.go:31-67 | planned and copied, replaced, then swapped: the file is back on its old bytes with the new size |
| `SwapRaces.LateWrite` | internal/repository/postgres/impl/node/node_write.go:503-538 | swapped between the look and the write of a replacement: the row it updates is deleted, the size is new and the bytes are old |
| `MoveBatch.BatchMoves` | internal/usecase/node.go:758-872 | after a batch that runs alone every library is a forest without cycles and every selected node lies below the new parent |
| `MoveBatch.TopmostMove` | internal/usecase/node.go:776-801 | exactly the selected nodes without a selected proper ancestor move, and there is one |
| `MoveBatch.SomeAncestorMoves` | internal/usecase/node.go:776-801 | at or above each selected node is one that moves |
| `MoveBatch.LandsBelow` | internal/usecase/node.go:842-866 | what was at or below a moved node ends up below the new parent |
| `MoveBatch.PrefixKeepsForest` | internal/usecase/node.go:842-866 | the rows are a forest after each single move of the batch, not only at the end |
| `MoveBatch.BatchKeepsForests` | internal/usecase/node.go:758-872 | the forests of all libraries survive a batch that runs alone |
| `ManyMoves.MovesKeepForest` | internal/repository/postgres/impl/node/node_write.go:246-318 | any number of moves whose checks saw the same tree leave a forest together if and only if no moves carry each other's targets along in a circle |
| `ManyMoves.TwoMoves` | internal/repository/postgres/impl/node/node_write.go:411-427 | two moves that each pass on the same tree leave a cycle together exactly when each carries the other's target along |
| `ManyMoves.TwoBatches` | internal/usecase/node.go:842-866 | the same for two batches of any size |
| `ManyMoves.MovesToOneTarget` | internal/usecase/node.go:842-866 | moves to one target leave a forest exactly when no moved node is the target or above it |
| `MoveBatch.TwoBatchesDecide` | internal/usecase/node.go:758-872 | two batches in one library of which neither sees the other leave all libraries forests exactly unless each carries the other's target along |
| `MoveRaces.GoodWhileCommitsFit` | internal/repository/postgres/impl/node/node_write.go:246-318 | over every run of any number of interleaved moves, deletes and creations, whatever they lock: every state is a forest without rows under missing ones if and only if every commit finds what its transaction looked at still true |
| `MoveRaces.CommitDecides` | internal/repository/postgres/impl/node/node_write.go:246-318 | a single commit leaves such a tree exactly when its targets are there and no moved node is above them, nothing that stays hangs under what it deletes, or the parent of the new row is there |
| `MoveRaces.MoveCommitDecides` | internal/repository/postgres/impl/node/node_write.go:411-427 | for a batch of moves, in terms of the committed rows |
| `MoveRaces.DeleteCommitDecides` | internal/repository/postgres/impl/node/node_delete.go:10-35 | for the delete of a listed set of rows |
| `MoveRaces.CreateCommitDecides` | internal/usecase/node.go:208-275 | for the creation of a row |
| `MoveRaces.OneLookerKeepsGood` | internal/repository/postgres/impl/node/node_write.go:770-796 | whatever keeps two transactions from having looked at the tree at one time keeps it in order over every run |
| `MoveRaces.SharedScopeKeepsGood` | internal/repository/postgres/impl/node/node_write.go:770-796 | with one lock for the whole tree, taken by everybody before they look, every state of every run is such a tree |
| `MoveRaces.OneTargetKeepsGood` | internal/repository/postgres/impl/node/node_write.go:770-796 | the locks on the parents keep batches of any size with one and the same target apart |
| `MoveRaces.OverlapKeepsGood` | internal/repository/postgres/impl/node/node_write.go:770-796 | and they keep moves of one node apart that want a scope in common: such moves never leave a cycle |
| `MoveRaceRuns.CycleRun` | internal/repository/postgres/impl/node/node_write.go:770-796 | rows 1, 2 and 3 under 1, 4 under 2, 5 under 3: with locks on the parents only, or none, moving 4 under 5 beside 5 under 4 commits both and leaves a cycle |
| `MoveRaceRuns.DisjointScopesDecide` | internal/repository/postgres/impl/node/node_write.go:770-796 | any two moves of different nodes that each pass and lock nothing in common have a run that commits both, and it leaves a cycle exactly when each carries the other's target |
| `MoveRaceRuns.DanglingRun` | internal/repository/postgres/impl/node/node_delete.go:10-35 | a delete that has listed a folder, beside a move into it: both commit and a row hangs under a deleted one |
| `MoveRaceRuns.CreationDangles` | internal/usecase/node.go:208-275 | a delete that has listed a folder, beside a creation in it: both commit and the new row hangs under a deleted one |
| `MoveRaceRuns.WalkEndsExactly` | internal/usecase/browser_bookmark.go:504-517 | on any rows the walk up from the target never ends exactly when the way up closes to a cycle of several nodes without meeting the bookmark that is moved |
| `MoveRaceRuns.WalkEndsOnForest` | internal/usecase/browser_bookmark.go:504-517 | the walk up to the root ends within the depth of the target on a forest |
| `MoveRaceRuns.CycleTrapsWalk` | internal/usecase/browser_bookmark.go:504-517 | after such a cycle it never ends |
| `MoveBatch.ReboundElsewhere` | internal/repository/postgres/impl/node/node_write.go:246-318 | other libraries do not notice |
| `MoveBatch.NormalizeMoveBatchItems` | internal/usecase/node.go:907-927 | keeps the first item of each nonzero id, in order, with its name trimmed |
| `MoveBatch.FirstOfEachIds` | internal/usecase/node.go:907-927 | that list names each selected id once and nothing else |
| `MoveBatch.HasSelectedAncestor` | internal/usecase/node.go:776-801 | finds another selected node above a node exactly when there is one |
| `MoveBatch.FilterMovable` | internal/usecase/node.go:776-801 | keeps exactly the topmost items, in order |
| `MoveBatch.NodeUseCase.MoveNode` | internal/repository/postgres/impl/node/node_write.go:246-318 | goes through exactly when the row checks pass, the asked name is free and the unique index, which sees the stored one, lets it through; one parent changes, or nothing |
| `MoveBatch.CheckSufficesExactly` | internal/repository/postgres/impl/node/node_write.go:281-303 | for a row with this stored name: the check keeps every move of it off the index, in every library, if and only if the name it looks for is the one the index sees |
| `MoveBatch.PlainCheck` | internal/repository/postgres/impl/node/node_write.go:281-303 | for a row stored with a trimmed name and a canonical extension that is when the asked name is blank or the stored one |
| `MoveBatch.OtherNamesHitIndex` | docs/schema/2026-05-03-node-visible-name-and-storage-provider.sql:17-26 | otherwise there is a library where the check passes and the index refuses |
| `MoveBatch.RenamedMoveHitsIndex` | docs/schema/2026-05-03-node-visible-name-and-storage-provider.sql:17-26 | file `a` asked for as `b`, moved into a folder that shows `a` and not `b` |
| `MoveBatch.MoveKeepsUnique` | docs/schema/2026-05-03-node-visible-name-and-storage-provider.sql:17-26 | a move the index lets through keeps sibling names unique |
| `MoveBatch.PrefixKeepsUnique` | internal/usecase/node.go:842-866 | sibling names are unique after each single move of a batch |
| `MoveBatch.PlainNamesFit` | internal/usecase/node.go:842-866 | for plainly stored rows that come without another name, the name checks of the batch alone decide |
| `MoveBatch.NodeUseCase.MoveBatch` | internal/usecase/node.go:735-905 | alone it goes through exactly under its checks and the index; then the topmost selected nodes and no others get the new parent, the report names them and the parents touched, and sibling names stay unique; a failed or dry run changes no row |
| `MoveBatch.NodeUseCase.RebindAll` | internal/usecase/node.go:842-866 | the moves one by one: a refusal on the way rolls back those already made |
| `CopyPlan.PlanNodeCopy` | internal/usecase/node_copy.go:137-224 | succeeds exactly when the copy is allowed and the subtree fits: every node copyable, 1000 nodes and 2^30 bytes at most; the plan is then the whole subtree |
| `CopyPlan.ListSubtree` | internal/usecase/node_copy.go:167-215 | the worklist holds the source subtree exactly, without repeats, each parent before its children, with a new key per file; a truncated child listing never passes |
| `CopyPlan.ExploredIsSubtree` | internal/usecase/node_copy.go:176-215 | a worklist whose nodes have all been expanded is the subtree |
| `CopyPlan.ChildIsNew` | internal/usecase/node_copy.go:176-215 | no child of the next node is on the list already, so the check for repeats never fires |
| `CopyPlan.TooMany` | internal/usecase/node_copy.go:176-215 | a list past 1000 nodes means the subtree does not fit |
| `CopyPlan.CopyNodeName` | internal/usecase/node_copy.go:226-244 | an accepted full name is a valid file name that splits into the stored name and an extension of at most 32 |
| `CopyPlan.Ext` | internal/usecase/node_copy.go:226-244 | the suffix from the last dot on, empty exactly without a dot |
| `NodeCopy.CopyHasTheShape` | internal/usecase/node_copy.go:76-101 | the subtree of the new root is exactly the copies, one per source node under the copy of its parent, and the source subtree is as before |
| `NodeCopy.AllCreated` | internal/usecase/node_copy.go:76-101 | creating the items in plan order gives a copy, with every parent already mapped |
| `NodeCopy.ParentIsMapped` | internal/usecase/node_copy.go:76-101 | the lookup of a parent's copy never misses |
| `NodeCopy.CopyIsBacked` | internal/usecase/node_copy.go:254-271 | with the new objects in place every new file row has an object of its size |
| `NodeCopy.NodeUseCase.Copy` | internal/usecase/node_copy.go:49-135 | success doubles the subtree under a root with the asked name and extension, or with auto-rename the first numbered name no sibling shows, and no two siblings below it get one stored name; a plain failure or dry run changes no row, an unknown commit did one or the other; sibling names stay unique, every file row keeps its object and existing objects are untouched |
| `NodeCopy.NodeUseCase.CreateRow` | internal/usecase/node.go:208-275 | succeeds only when no sibling has the name that is looked for nor the one the index sees, and is refused for its name only when one has |
| `NodeCopy.UniqueCopiesApart` | internal/usecase/node_copy.go:76-101 | a copy is possible only when no two siblings of the source get one name by the extension being stored anew |
| `NodeCopy.CanonicalCopiesApart` | internal/usecase/node_copy.go:76-101 | with canonical extensions they never do |
| `NodeCopy.DottedCollide` | internal/usecase/node_copy.go:76-101 | a folder with files `a` of extension `x` and of extension `.x` is a library the index allows and no copy of it is possible |
| `NodeCopy.RootName` | internal/usecase/node_name_conflict.go:40-87 | the name of the new root: as asked, or with auto-rename and the name shown already the first numbered one that is not |
| `NodeCopy.NodeUseCase.CreateRows` | internal/usecase/node_copy.go:76-101 | a new row for each item, isomorphic to the source |
| `NodeCopy.NodeUseCase.CopyObjects` | internal/usecase/node_copy.go:102-115 | touches only new keys; on success every copied file has its object |
| `NodeCopy.NodeUseCase.CleanupNodeCopies` | internal/usecase/node_copy.go:273-281 | removes nothing but new keys |
| `Recycle.RootsPartition` | internal/usecase/node.go:1319-1332 | each deleted row lies in the subtree of exactly one root |
| `Recycle.RootsAddUp` | internal/usecase/node.go:1150-1203 | the counts of all roots together are the number of deleted rows, in any order of the roots |
| `Recycle.CountDeletedSubtree` | internal/usecase/node.go:1599-1618 | the walk with a stack ends on every forest and counts the subtree of the root |
| `Recycle.PopTakesOne` | internal/usecase/node.go:1599-1618 | popping a node and pushing its children takes exactly that node off what is left to visit |
| `Recycle.SubtreesAddUp` | internal/usecase/node.go:1599-1618 | sizes of subtrees of nodes that are apart add up |
| `Recycle.CollectRecycleStorageLocations` | internal/usecase/node.go:1239-1293 | tallies, per location, exactly the deleted files below a directory that carry a provider |
| `Recycle.CountsAddUp` | internal/usecase/node.go:1239-1293 | the tallies of all locations add up to the number of those files |
| `Recycle.BuildRecycleChildrenByParent` | internal/usecase/node.go:1334-1346 | maps each deleted parent to its deleted children, in row order |
| `Recycle.GetRecycleBinItems` | internal/usecase/node.go:1150-1203 | lists each root once, sorted, with its own counts and locations; the counts add up to all rows |
| `BookmarkImport.ImportAppends` | internal/usecase/browser_bookmark_import.go:65-109 | importing a forest and rebuilding the tree gives the old tree with exactly that forest appended, same shape, kinds, titles and order, if and only if no level runs out of int32 sort orders |
| `BookmarkImport.ImportedLists` | internal/usecase/browser_bookmark_import.go:65-109 | old and new rows list as old tree followed by new tree, each row once |
| `BookmarkImport.LevelOrder` | internal/usecase/browser_bookmark_import.go:65-109 | new rows at the end of a level show in order exactly when their sort orders fit |
| `BookmarkImport.OverflowingLevelIsNot` | internal/repository/postgres/impl/browserbookmark/repository.go:161-179 | the first sort order past int32 shows before its predecessor |
| `BookmarkImport.ImportStep` | internal/usecase/browser_bookmark_import.go:80-106 | one more item with its children extends the imported level by exactly that tree |
| `BookmarkTree.TreeIsUnique` | internal/usecase/browser_bookmark.go:601-614 | the rows alone decide the tree, so the order in which they are read does not matter |
| `BookmarkTree.BuildBrowserBookmarkTree` | internal/usecase/browser_bookmark.go:601-614 | in whatever order rows come, every level holds exactly the children of its folder, sorted |
| `BookmarkTree.AttachBrowserBookmarkChildren` | internal/usecase/browser_bookmark.go:616-634 | the level below any folder, to all depths; the recursion ends because the rows are a forest |
| `BookmarkNormalize.NormalizeImportBrowserBookmarkItems` | internal/usecase/browser_bookmark_import.go:111-121 | the normal forms of all items, or a refusal when one is refused |
| `BookmarkNormalize.AcceptedExactly` | internal/usecase/browser_bookmark_import.go:123-167 | an item is accepted exactly when at every depth its kind is known, its title neither blank nor too long, a url stands where one belongs and nowhere else, its icon is blank or a url, and only folders have children |
| `BookmarkNormalize.NormalIsValid` | internal/usecase/browser_bookmark_import.go:123-167 | whatever the parsers print, an accepted item becomes as the import needs it: trimmed title within its length, no url on a folder, children only under folders, all the way down |
| `BookmarkNormalize.NormalizeTwice` | internal/usecase/browser_bookmark_import.go:123-167 | normalizing the normal form of an accepted item gives it back if and only if at every depth the printed url and icon have at most 2048 bytes and the icon has no blanks around it |
| `BookmarkNormalize.LongFormIsRefused` | internal/usecase/browser_bookmark.go:545-574 | a path of n letters e with an accent is accepted up to 1019 of them, and from 340 on what is printed for it is refused |
| `BookmarkNormalize.BlankEndIsLost` | internal/usecase/browser_bookmark.go:576-600 | an icon whose query ends in a blank before its fragment is accepted, and its normal form does not come back |
| `BookmarkNormalize.PassingIsStored` | internal/usecase/browser_bookmark_import.go:80-106 | a normal form that comes back is stored as it is and fits its columns |
| `BookmarkNormalize.NormalItemsPointwise` | internal/usecase/browser_bookmark_import.go:111-121 | a list is accepted exactly when each item is, and its normal form is that of the items one by one in order |
| `BookmarkNormalize.NormalsAreValid` | internal/usecase/browser_bookmark_import.go:111-167 | the same for a list of items |
| `BookmarkNormalize.NormalizeAllTwice` | internal/usecase/browser_bookmark_import.go:111-167 | a list comes back under the same condition on all its items |
| `BookmarkMove.UrlIsAboveNothing` | internal/usecase/browser_bookmark.go:482-520 | a url item has nothing below it, so skipping the ancestor walk for it is sound |
| `BookmarkMove.RebindKeepsValid` | internal/repository/postgres/impl/browserbookmark/repository.go:219-239 | hanging a bookmark under a folder not below it keeps a forest whose inner nodes are folders |
| `BookmarkMove.TwoMovesDecide` | internal/repository/postgres/impl/browserbookmark/repository.go:219-266 | two bookmark moves that each pass on the same rows, whatever they renumber, leave a forest together exactly unless each carries the other's target along; bookmarks take no lock |
| `BookmarkMove.DropSubtreeKeepsValid` | internal/repository/postgres/impl/browserbookmark/repository.go:268-290 | deleting a subtree leaves no row under a deleted one |
| `BookmarkMove.RenumberedShows` | internal/usecase/browser_bookmark.go:669-678 | numbering a level 1000, 2000, … shows it in that order exactly when the last number fits an int32 |
| `BookmarkMove.ShowsOneOrder` | internal/repository/postgres/impl/browserbookmark/repository.go:79-107 | the rows decide how a level is listed |
| `BookmarkMove.InsertedStands` | internal/usecase/browser_bookmark.go:636-667 | the bookmark stands where it was asked to, between siblings in their old order |
| `BookmarkMove.InsertedKeepsSiblings` | internal/usecase/browser_bookmark.go:636-667 | the new order holds the bookmark and its siblings, each once |
| `BookmarkService.BrowserBookmarkUseCase.NextSortOrder` | internal/repository/postgres/impl/browserbookmark/repository.go:144-159 | 1000 for an empty level, else 1000 past its largest sort order |
| `BookmarkService.BrowserBookmarkUseCase.Create` | internal/usecase/browser_bookmark.go:167-247 | one new row under an existing folder with the next sort order of that level cut to int32, or nothing |
| `BookmarkService.CreatedShowsLast` | internal/usecase/browser_bookmark.go:167-247 | the new bookmark shows behind all its siblings exactly when that sort order fits an int32 |
| `BookmarkService.BrowserBookmarkUseCase.ImportChildren` | internal/usecase/browser_bookmark_import.go:65-109 | the count is the number of items at all depths, and the new rows are the forest, its texts trimmed once more, under the parent; all texts fit their columns |
| `BookmarkService.BrowserBookmarkUseCase.Import` | internal/usecase/browser_bookmark_import.go:15-63 | the normalized forest, its texts trimmed once more, at the end of the top level, all of it or nothing; it succeeds only when what was printed for every url and icon fits its column |
| `BookmarkService.BrowserBookmarkUseCase.EnsureMoveTarget` | internal/usecase/browser_bookmark.go:482-520 | accepts exactly folders, or the top level, that are not the bookmark or below it |
| `BookmarkService.BrowserBookmarkUseCase.ListSiblings` | internal/repository/postgres/impl/browserbookmark/repository.go:79-107 | the other rows of the level in order |
| `BookmarkService.BrowserBookmarkUseCase.InsertBookmarkIntoSiblingOrder` | internal/usecase/browser_bookmark.go:636-667 | the loop finds the neighbour or refuses |
| `BookmarkService.BrowserBookmarkUseCase.UpdateSortOrders` | internal/repository/postgres/impl/browserbookmark/repository.go:241-266 | the numbers along the list, and nothing else, change |
| `BookmarkService.BrowserBookmarkUseCase.Move` | internal/usecase/browser_bookmark.go:339-417 | alone it goes through exactly when the target takes the bookmark and the neighbour is a sibling; then the level is renumbered in the requested order; the forest of folders stays one |
| `BookmarkService.BrowserBookmarkUseCase.Delete` | internal/usecase/browser_bookmark.go:419-456 | removes the bookmark and everything below it, and nothing else |
| `BookmarkService.MoveShowsRequestedOrder` | internal/usecase/browser_bookmark.go:365-399 | after a move the target shows exactly the requested order, other siblings as before, if and only if the new numbers fit an int32 |
| `BookmarkService.ZeroParentOrder` | internal/usecase/browser_bookmark.go:365-399 | for a parent id of 0 the siblings are looked up where nobody is; the bookmark is last at the top level exactly when the last one there sorts before 1000 |
| `RenameBatch.ReorderingIsTheSameRequest` | internal/usecase/node_rename_batch.go:41-74 | listing the items in another order gives the same canonical request, hence a replay |
| `RenameBatch.CanonicalIsFaithful` | internal/usecase/node_rename_batch.go:41-74 | requests with the same canonical form have the same library and items |
| `RenameBatch.CanonicalWritesFit` | internal/usecase/node_rename_batch.go:181-235 | when the files of an accepted batch have their extensions in canonical form and nobody comes between its checks and its writes, sibling names are unique after every single write, so none can hit the unique index |
| `RenameRaces.LateWritesFit` | internal/usecase/node_rename_batch.go:181-235 | with other rows coming, going and changing before each write: all writes pass the index if and only if at no write one of the others has the name it asks for |
| `RenameRaces.LateWrite` | internal/repository/postgres/impl/node/node_rename_batch.go:61-76 | the same for one write |
| `RenameRaces.SomeCreateHitsIndex` | internal/usecase/node.go:233-247 | beside every write that changes a name there may be a creation that makes it fail: the locks of the batch and of a creation have nothing in common |
| `RenameBatch.OtherExtensionsCollide` | docs/schema/2026-05-03-node-visible-name-and-storage-provider.sql:17-26 | for every extension not in canonical form there is a library in which the checks pass and the write hits the index |
| `NodeNames.StorableExactly` | internal/repository/postgres/impl/node/node_write.go:66-84 | the extensions that creating a file can store are exactly the trimmed texts |
| `NodeNames.StorableOdd` | internal/usecase/node.go:929-931 | of those, exactly the ones that start with a dot are not in canonical form |
| `RenameBatch.CreatedExtensionCollides` | internal/usecase/node_rename_batch.go:181-235 | such a file exists: created with `..x` it is stored with `.x`, and an accepted rename of it hits the index |
| `RenameBatch.WriteKeepsUnique` | internal/repository/postgres/impl/node/node_rename_batch.go:61-76 | a write keeps the index when no sibling has the name |
| `RenameBatch.NeighboursSuffice` | internal/usecase/node_rename_batch.go:41-74 | comparing neighbours after sorting finds every repeated id |
| `RenameBatchService.NodeUseCase.ValidateRenameBatch` | internal/usecase/node_rename_batch.go:41-74 | the canonical request of a valid batch, or a refusal |
| `RenameBatchService.NodeUseCase.CheckItem` | internal/usecase/node_rename_batch.go:181-235 | an item passes exactly when its row matches the approved snapshot and no sibling or earlier item has the name |
| `RenameBatchService.NodeUseCase.CheckBatch` | internal/usecase/node_rename_batch.go:181-235 | passes exactly when all items do; reports the parents touched |
| `RenameBatchService.NodeUseCase.WriteAll` | internal/usecase/node_rename_batch.go:220-235 | succeeds exactly when no write hits the index; then all files are renamed and the names are unique |
| `RenameBatchService.NodeUseCase.ExecuteRenameBatch` | internal/usecase/node_rename_batch.go:181-235 | all files renamed or an error, with the state before and after each |
| `RenameBatchService.NodeUseCase.RenameBatch` | internal/usecase/node_rename_batch.go:92-179 | over any sequence of calls one after the other an operation of an actor takes effect once at most; the same request is answered from its receipt, another one refused; a plain error or dry run changes no row and no receipt; a dry run succeeds exactly when the batch would |
| `RenameBatchService.NodeUseCase.RenameBatchStatus` | internal/usecase/node_rename_batch.go:248-276 | "committed" exactly for an operation of this actor and library that took effect once, with its result |
| `AutoRename.ResolveAutoRenamedNodeName` | internal/usecase/node_name_conflict.go:64-87 | the result is shown by no sibling; a changed name has at most 255 characters and the smallest free index; with fewer than 10000 siblings there is one |
| `AutoRename.CandidatesDiffer` | internal/usecase/node_name_conflict.go:64-108 | candidates show different names, after truncation and trimming, for different indices |
| `AutoRename.CandidatesAreMany` | internal/usecase/node_name_conflict.go:64-108 | the first n candidates show n names |
| `AutoRename.NeedsManySiblings` | internal/usecase/node_name_conflict.go:64-87 | all candidates taken means at least 10000 siblings |
| `AutoRename.CandidateLength` | internal/usecase/node_name_conflict.go:98-108 | a truncated candidate has at most 255 characters |
| `AutoRename.ResolveCreateNodeName` | internal/usecase/node_name_conflict.go:40-62 | refused exactly for an unknown policy; `error` keeps the name; the others give a name no sibling shows |
| `Browse.FollowCursors` | internal/usecase/node_browse_metadata.go:93-166 | with any page limits, following cursors ends and the pages together are every matching id once, in order |
| `Browse.SameScope` | internal/usecase/node_browse_metadata.go:34-79 | permuting names or tag ids, or repeating a tag id, gives the same canonical query and cursor scope |
| `Browse.AllTagsMeansEach` | internal/repository/postgres/impl/node/node_metadata.go:45-78 | counting distinct tags of a canonical query is asking for each of them |
| `Browse.BrowseNodeMetadata` | internal/usecase/node_browse_metadata.go:93-166 | refused exactly when the query, cursor, limit or named directories are; else the page after the cursor, or the one named node |
| `Browse.BrowseScope` | internal/usecase/node_browse_metadata.go:122-166 | the page, and a cursor exactly when ids are left |
| `Browse.QueryMetadata` | internal/repository/postgres/impl/node/node_metadata.go:45-78 | the first matching ids past the cursor, all of them when the page is not full |
| `Browse.CutPage` | internal/usecase/node_browse_metadata.go:152-165 | asking for one more than the limit tells whether anything is left |
| `Browse.NextPage` | internal/usecase/node_browse_metadata.go:141-163 | a page continues what was seen without gap or repeat |
| `Browse.ReadMetadataRoot` | internal/repository/postgres/impl/node/node_metadata.go:13-20 | the least top-level directory of the library, if there is one |
| `Registry.StorageRegistry.Resolve` | internal/storage/registry.go:145-164 | the rules are read under one lock and their target looked up under another: with any reloads in between it succeeds exactly when the new tables find the alias the old rules chose, the first matching rule's target or else the default; without one always, with exactly that provider |
| `Registry.DirectFinds` | internal/storage/registry.go:78-98 | an alias that is there finds itself and nothing else |
| `Registry.StorageRegistry.Default` | internal/storage/registry.go:127-140 | the same for the default alias: with any reloads in between it succeeds exactly when the new tables find the old default |
| `Registry.StorageRegistry.Reload` | internal/storage/registry.go:169-230 | a rejected reload leaves every table unchanged; an accepted one keeps the clients of providers it takes for unchanged and reports the aliases that went away; afterwards a client is built from its accepted configuration exactly unless it was kept although its public endpoint is another one |
| `Registry.StorageRegistry.Get` | internal/storage/registry.go:78-124 | finds a provider exactly when the alias, its lower case or its type names one, whatever the map order |
| `Registry.StorageRegistry.ProviderConfigByAlias` | internal/storage/registry.go:34-74 | finds a configuration exactly when the trimmed alias, its lower case or its type names one |
| `Registry.LookupsAgree` | internal/storage/registry.go:34-124 | for aliases without outer blanks both lookups find the same provider or none |
| `Registry.LookupsAgreeExactly` | internal/storage/registry.go:34-124 | the two lookups agree on every key of every accepted configuration if and only if the alias has no blanks around it or is nothing but blanks |
| `Registry.BlankFindsNothing` | internal/storage/registry.go:34-124 | of nothing but blanks neither lookup makes anything |
| `Registry.BlanksDisagree` | internal/storage/registry.go:34-124 | for every alias with blanks around something else there is a configuration in which one lookup finds what the other does not |
| `Registry.FindsOne` | internal/storage/registry.go:34-124 | an alias stands for one provider at most |
| `Registry.StorageRegistry.FirstFold` | internal/storage/registry.go:78-98 | of the aliases equal in lower case the least |
| `Registry.StorageRegistry.OnlyOfType` | internal/storage/registry.go:99-119 | the provider of a type when it is the only one |
| `Registry.MatchRoutingRules` | internal/storage/routing.go:11-20 | the target of the first rule that matches, or none |
| `Registry.MatchConditions` | internal/storage/routing.go:22-58 | size, extension and MIME conditions all hold |
| `Registry.Validate` | internal/config/storage_config.go:86-124 | accepts exactly the configurations the lookups rely on |
| `NodePath.NormalizeNodePath` | internal/transport/cli/helpers.go:95-137 | the program's rewriting, whose double-slash loop terminates, computes the direct reading of a path: its nonempty words between slashes of either kind, refused when empty or with a `..` |
| `NodePath.CollapseKeepsWords` | internal/transport/cli/helpers.go:105-107 | replacing double slashes loses no segment |
| `NodePath.TrimmingSlashesKeepsWords` | internal/transport/cli/helpers.go:108-113 | nor does trimming trailing slashes |
| `NodePath.CollapseShrinks` | internal/transport/cli/helpers.go:105-107 | each replacement shortens a text with a double slash |
| `NodePath.KeepSegments` | internal/transport/cli/helpers.go:115-130 | the loop over the pieces keeps exactly the trimmed nonempty ones and refuses `..` |
| `NodePath.ParsedIsValid` | internal/transport/cli/helpers.go:95-137 | an accepted path is printed from proper segments |
| `NodePath.PrintParses` | internal/transport/cli/helpers.go:132-136 | printing any list of proper segments and parsing the text gives the list back |
| `NodePath.NormalFormIsStable` | internal/transport/cli/helpers.go:95-137 | normalising the canonical text changes neither text nor segments |
| `NodePath.TextIdentifiesPath` | internal/transport/cli/helpers.go:95-137 | two paths have the same canonical text exactly when they have the same segments |
| `Forest.MoveKeepsForest` | internal/repository/postgres/impl/node/node_write.go:411-427 | hanging a node under one that is not below it makes no cycle |
| `Sorting.SortSorts` | internal/usecase/upload_session_completion.go:370-373 | sorting keeps the elements and orders them |
| `Sorting.SortIgnoresOrder` | internal/usecase/node_browse_metadata.go:65-68 | without ties the order of the input does not matter |
| `Sorting.MapKeysSorted` | internal/usecase/node.go:933-945 | the keys of a set once each, ascending |
| `TextOrder.SortedTexts` | internal/storage/registry.go:331-347 | the aliases of a map in order, each once |

## Left out

- UploadProtocol.CommittedObjectsAreNeverDeleted: client PUTs through a presigned URL may change the size of a stored object at any time, so the statement is that the object is present, not that its size stays the one that was checked.
- UploadService.UploadSessionUseCase.SweepExpired: the timing of sweeps, the lease lengths and `renewLease` are not modelled; expiry is a free choice at every step.
- MigrationService.MigrationUseCase.Enqueue: the listing of storage objects below a node is an input.
- Migration.FilesStayReadable: transactions have definite outcomes, because the code deletes the target after any transaction error; references from other libraries to the same storage row are not switched by the code and not modelled; content replacements are not among its steps, they are in SwapRaces.
- SwapRaces.ReadableWhileCommitsFit: each file has a storage row of its own, a copy is either whole or failed, and a replacement between its look and its write holds the row lock of its node.
- ContentReplacement.BoundKeysArePresent: every node has an object of its own; storage rows shared by several nodes are not modelled.
- MoveBatch.NodeUseCase.MoveBatch: its contract is for a batch that runs alone, MoveRaces has the interleavings; sort positions among the new siblings are not modelled.
- BookmarkService.BrowserBookmarkUseCase.Move: its contract is for a request that runs alone, as are those of Create, Import and Delete; interleaved moves and deletes are in MoveRaces, without their sort orders.
- MoveRaces.GoodWhileCommitsFit: a copy or an import, which creates many rows in one transaction, and the restoring of deleted rows are not among its steps.
- NodeCopy.NodeUseCase.Copy: other failures of a creation are nondeterministic, so it is stated when a name is refused and not that nothing else is.
- RenameBatchService.NodeUseCase.RenameBatch: its contract is for calls one after the other; RenameRaces has what comes between checks and writes.
- UploadService.UploadSessionUseCase.SweepPending: every stage may fail, so that a finished sweep has deleted the object and dropped the row is not stated.
- Browse.FollowCursors: the rows do not change between the pages.
- Registry.StorageRegistry.Reload: closing old clients and the clean-ups after a factory error are not modelled, so nothing is said about clients that stay open; two reloads at one time are not either.
- BookmarkNormalize.NormalizeAllTwice: URL parsing is a function that parses what it has printed to the same text again; that printed icons have no fragment, and that only a fragment leaves a blank end, are laws of it.
- Case folding (`EqualFold`, `ToLower`, `ILIKE`) is modelled on ASCII letters only; strings are sequences of code points, so length limits in bytes are limits in code points here, except for those of bookmark urls, which count bytes.
- JSON documents, SHA-256 hashes, UUIDs and base64url cursors are the values they encode.
- Leaked objects: the code deletes best effort, so only that referenced objects exist is proved, never that unreferenced ones go away.
- Authorization, audit records, HTTP handlers, flag parsing, logging, progress output, context deadlines and retries.
- The enrichment of recycle-bin rows for display (provider labels, public URLs) and the sorting of locations inside one row.
- Listing, matching and updating bookmarks; tags, users, preferences, libraries, login and the resource monitor, which would only add easy members.
- Loading, saving, masking and deriving storage configurations; provider shutdown.
- The generated database models and the MinIO client.
