# Carbon Panel protocols, modelled and proved

Carbon Panel's Go backend drives containers, database rows and files through small hand-written
protocols that must survive failed calls, crashes and concurrent callers. This project models those
protocols in Dafny and proves what they keep. `dafny verify dfyconfig.toml` checks everything.

Code that updates fields, rows, maps or streams is modelled by classes and loops whose contracts tie
the new state to a specification function; interleavings are modelled by state machines over their
critical sections, and the main results are lemmas over every run of such a machine or every input of
such a function. Calls to Docker, SQLite, iptables, the network and the clock are nondeterministic
methods, parameters, or fault values. Where every call may fail, a `reliable` flag says that none does,
and the contracts promise success under it, so that giving up is not a way to meet them.

| files | what they cover |
|---|---|
| `OperationJournal`, `JournalRuns`, `JournalAnswers`, `JournalRecovery` | the lifecycle journal: at most one start per request, what a repeat is told, locks, crashes, recovery, review |
| `IdempotencyKeys` | client request ids of server creation |
| `ServerTransitions`, `TransitionRuns`, `IdleTracker` | the shared lifecycle claim, its two-level use by the idle managers, the idle clock |
| `ContainerWorld`, `WakeWait`, `DeepSleep`, `Freezer` | stopping, booting, pausing and resuming with rollback over daemons and a store that may fail |
| `StagedConfig`, `StagedRuns`, `StagedOrder` | diffs, optimistic conflicts, apply and rollback |
| `StagingStore`, `StagingRaces` | staging statement by statement, and what other callers can do between the statements |
| `BackupFormat`, `BackupCrypt`, `BackupSplices` | the chunked artifact format over an abstract AEAD |
| `LoginThrottle`, `ThrottleRuns` | the login limiter, its rate bound, invisible pruning |
| `ModuleStart` | starting modules after their dependencies |
| `FirewallRules`, `Firewall`, `FirewallRuns` | the DOCKER-USER chain and its first-match meaning |
| `Text`, `PropertyLines`, `ServerProperties` | the server.properties reader and writer |
| `VarInt` | numbers, strings and packets of the server list ping |
| `PortLeases` | node-scoped backend port pairs |

## Where the code and its comments part ways

* `internal/backupcrypt/encrypt.go:9-12` says a truncated artifact always fails. Cutting whole chunks
  off the end and keeping the terminator is accepted (`BackupSplices.ShortenedArtifactIsAccepted`);
  `BackupSplices.AcceptedExactlyWhenCut` says exactly what is accepted. A header followed by the
  terminator alone is accepted without any authentication (`BackupSplices.ForeignHeaderWritesNothing`).
* Key parsing refuses only the empty key id, but ids over 1024 bytes give artifacts that nobody can
  read (`BackupCrypt.RoundTripExactlyForUsableIds`).
* `internal/auth/throttle.go:43-46` says clearing a full table can only make the limiter more
  permissive. For arbitrary failures that holds exactly when one failure blocks anyway or the key's
  window has passed (`ThrottleRuns.FlushIsHarmlessExactlyWhen`). For failures that the limiter let
  through, the condition is the same when the lockout is no longer than the window; when it is longer,
  the flush is harmless exactly when the entry is not a count of 1 to max-2 in a window that still runs
  (`ThrottleRuns.GatedFlushIsHarmlessExactlyWhen`).
* `internal/db/staged_config.go:113` refuses to stage "serverId", while the field is called
  "server_id". It can be staged, is never stored, and so never conflicts
  (`StagingRaces.ServerIdCanBeStaged`, `StagedOrder.AppliedFieldMoves`, `StagedOrder.SharedFieldExcludes`).
* `internal/operation/journal.go:60-65` promises that no two mutations of one world interleave. A
  release keeps that promise exactly when it takes no lock from under a worker that is still executing
  (`JournalRuns.OneMutationPerServer`, `JournalRuns.ReleaseIsHarmlessExactlyWhen`,
  `JournalRuns.ReleaseSharesAServer`).
* A pause whose reply is lost after it took effect leaves RUNNING stored over a paused container
  (`Freezer.HiddenPause`). A call that acts and reports no lost write breaks agreement exactly then
  (`Freezer.OneCall`).
* `internal/docker/sleep.go:427-429` says concurrent wakes wait for the current transition. The claim and
  the wait are separate, and a wait that finds no owner does not look at its context. A wake whose
  context has ended goes on exactly while every claim fails and every wait finds no owner, or one that
  has just released (`WakeWait.WaitGoesOnExactlyWhen`). That can last for ever: for a server without an id
  always (`WakeWait.NamelessWaitGoesOn`), for a named one that is passed around in step
  (`WakeWait.NamedWaitCanGoOn`).
* Writing a batch's window back opens a finished batch again exactly when it is the batch written and
  its server has no other open batch (`StagingRaces.SaveReopensExactlyWhen`,
  `StagingRaces.WindowReopensAtOneInput`).
* A staged row can land in a finished batch (`StagingRaces.RacesAtOneInput`). It lands in an open one
  exactly when every close of the batch between its lookup and the creation of the row is followed by
  somebody's save of that batch (`StagingRaces.RowLandsInOpenBatchExactlyWhen`); while nobody saves it,
  exactly when nobody closes it (`StagingRaces.RowLandsInOpenBatchUnlessClosed`).
* A discard can overwrite a row that was applied meanwhile, so that the change stays live but cannot be
  rolled back (`StagingRaces.RacesAtOneInput`). The row overwritten still waits exactly when nobody's
  apply of it succeeded and nobody's discard of it was written since it was read
  (`StagingRaces.DiscardHitsWaitingRowExactlyWhen`).
* After a failed insert, applying the firewall rules of a port again gives its intended verdicts exactly
  when no other port was set up in between, or nothing or everything had been inserted
  (`FirewallRuns.RetryWorksExactlyWhen`, `FirewallRuns.LateRetryAtOneInput`).

## Model

| member | source | states |
|---|---|---|
| OperationJournal.BeginKeepsSound | internal/db/server_operation.go:43-65 | a begin transaction keeps both unique indexes and the rule that a row holds the lock exactly while open |
| OperationJournal.AdvanceKeepsSound | internal/db/server_operation.go:67-80 | so does a compare-and-set on the phase, whichever phases it names |
| OperationJournal.BeginFindsTheRequest | internal/db/server_operation.go:50-56 | a begin with the server and key of an existing row answers with that very row or a conflict, never with a new one |
| OperationJournal.JournalStore.BeginServerOperation | internal/db/server_operation.go:43-65 | the transaction's verdict and table, also when its reply is lost or it fails |
| OperationJournal.JournalStore.AdvanceServerOperation | internal/db/server_operation.go:67-80 | the phase moves, and a terminal one frees the server, exactly when the row was in the expected phase and held its lock |
| OperationJournal.JournalStore.AssertNoServerOperation | internal/db/server_operation.go:91-101 | a server is reported free exactly when the lookup does not fail and no row holds its lock |
| OperationJournal.JournalStore.ResolveServerOperation | internal/db/server_operation.go:125-145 | an operator release finalizes an open row with a bounded note, leaves a released one alone, and touches no other row |
| OperationJournal.JournalStore.PruneServerOperations | internal/db/server_operation.go:149-155 | a row stays exactly when it holds a lock or was updated no earlier than the limit, and the number of those that go is returned |
| OperationJournal.ReleaseNote | internal/db/server_operation.go:126-132 | a release note is never empty and at most 500 bytes |
| JournalRuns.StepKeepsInv | internal/operation/journal.go:66-124 | every transaction of every worker, and every crash, release and pruning, keeps the journal's invariant |
| JournalRuns.MutationStartsAtMostOnce | internal/operation/journal.go:66-98 | in every run, for one server, non-blank request id and kind, a second mutation starts only after the first row was pruned |
| JournalRuns.RepeatRunsNothing | internal/operation/journal.go:76-90 | repeating a request whose row is there starts nothing, changes nothing, and is told the recorded outcome, in progress, or a conflict |
| JournalRuns.LockHeldExactlyWhileOpen | internal/db/server_operation.go:28-41 | in every reachable state a row holds its server's lock exactly while prepared or executing, and one row per server |
| JournalRuns.FinishedRowsAreFinal | internal/db/server_operation.go:67-80 | a terminal row never changes again; it stays or is pruned |
| JournalRuns.PrunedStaysPruned | internal/db/server_operation.go:149-155 | an id that was pruned never comes back |
| JournalRuns.OneMutationPerServer | internal/operation/journal.go:60-65 | when releases spare executing operations, at most one worker is inside a mutation of each server, in every interleaving |
| JournalRuns.UnsafeReleaseBreaksExclusion | internal/operation/retry.go:64-70 | after a release that takes the lock from under a worker, a new request starts a second mutation of that server |
| JournalRuns.ReleaseIsHarmlessExactlyWhen | internal/operation/journal.go:60-65 | after any disciplined run, a release keeps mutations of a server from overlapping, whatever follows, exactly when it takes no lock from under a worker |
| JournalRuns.ReleaseSharesTheServer | internal/db/server_operation.go:125-145 | for any two different requests of a server: the first enters, its operation is released, and the second enters too |
| JournalRuns.ReleaseSharesAServer | internal/db/server_operation.go:125-145 | the same at one input |
| JournalRuns.CrashAbandonsOpenOperations | internal/operation/journal.go:60-62 | a crash leaves every open operation holding its lock with no worker |
| JournalRuns.CrashBlocksUntilRelease | internal/operation/journal.go:113-123 | from then on no mutation of that server starts until the operation is released, through further requests, crashes and releases of other operations |
| JournalAnswers.RepeatIsToldInProgress | internal/operation/journal.go:76-90 | from the call to the return of its mutation, a repeat of a request is told that it is in progress |
| JournalAnswers.RepeatIsToldTheOutcome | internal/operation/journal.go:76-124 | once the outcome is recorded, and whatever happens afterwards while the row is kept, a repeat is told success exactly when the mutation succeeded, and its error exactly when it failed with it |
| JournalAnswers.RepeatNeedsNewRequest | internal/operation/journal.go:76-90 | once the operation was released, a repeat must come with a new request id |
| JournalAnswers.ChangedRequestIsRefused | internal/db/server_operation.go:50-56 | the same request id for another node or container is a conflict, before and after the outcome |
| JournalRecovery.RunJournaled | internal/operation/journal.go:66-124 | one call is the run of its own transactions in the machine, under any faults; its answer in every branch, when the mutation runs, and that its row then is complete, or failed with its error |
| JournalRecovery.RunIsRecorded | internal/operation/journal.go:93-124 | the row of a mutation that ran is complete or failed with its error and holds no lock, or is still executing when the last write was rejected |
| JournalRecovery.CallTwice | internal/operation/journal.go:66-124 | two calls of one request: the second runs nothing and is told the outcome of the first |
| JournalRecovery.ObserveAndRelease | internal/operation/operation.go:61-76 | success is reported exactly when the container could be observed and the write was confirmed, and then the lock is released and the observed state noted; nothing else is touched |
| JournalRecovery.ListActiveServerOperations | internal/db/server_operation.go:85-89 | the list holds each row with a lock once and nothing else, oldest first |
| JournalRecovery.RecoverInterrupted | internal/operation/operation.go:54-83 | unless the list cannot be read, every locked operation is either recovered or listed for review, with the reason, and no other row is touched |
| JournalRecovery.RetryOnce | internal/operation/retry.go:47-82 | an id leaves the list only when its lock is released and stays only for a reason; only listed rows are touched |
| JournalRecovery.RetryReview | internal/operation/retry.go:27-45 | over any number of passes, with what can be reached changing from pass to pass and the last pass possibly cut short: what leaves the list is released, what stays has a reason in the last whole pass, and one whole pass that reaches every operation empties the list |
| IdempotencyKeys.KeyStore.ClaimIdempotencyKey | internal/db/idempotency.go:36-63 | the claim's answer and table in every branch, and when another caller interferes: ids over 128 bytes are refused, a new id is bound, a bound one answers with its owner or refuses another kind |
| IdempotencyKeys.FirstClaimWins | internal/db/idempotency.go:33-63 | until an id is released, every later claim of the same kind is sent to the first server, every other kind refused |
| ServerTransitions.ClaimKeepsSound | internal/docker/transition.go:72-90 | a claim registers a channel never used before, and no closed channel stays registered |
| ServerTransitions.ReleaseKeepsSound | internal/docker/transition.go:111-123 | a release closes its channel and takes out only its own registration |
| ServerTransitions.TransitionTable.TryBeginServerTransition | internal/docker/transition.go:72-90 | a handle is returned exactly when the server has an id and no owner |
| ServerTransitions.TransitionTable.Release | internal/docker/transition.go:111-123 | releasing is idempotent, accepts nil, and evicts nobody but the handle itself |
| TransitionRuns.StepKeepsInv | internal/docker/idle.go:109-139 | every critical section of direct callers, both managers and waiters keeps the invariant |
| TransitionRuns.OneOwnerPerServer | internal/docker/transition.go:72-123 | in every run, two unreleased handles of one server are the same handle |
| TransitionRuns.InFlightExactlyWhileHeld | internal/docker/transition.go:145-150 | in every run a server is reported in flight exactly while somebody has an unreleased handle of it: no claim is leaked |
| TransitionRuns.ManagersNeverOverlap | internal/docker/idle.go:109-139 | no two manager calls on one server are between claim and release at once, across both managers |
| TransitionRuns.ReleaseEvictsNobodyElse | internal/docker/transition.go:108-123 | releasing any handle, stale or repeated, leaves every other owner in place |
| TransitionRuns.InflightIsTheOwner | internal/docker/idle.go:126-135 | every in-flight entry of either manager is the current global owner of its server |
| TransitionRuns.LocalMapIsNeverBusy | internal/docker/idle.go:118-125 | the local busy branch is unreachable |
| TransitionRuns.WaiterWakesExactlyWhenOwnerIsGone | internal/docker/transition.go:127-142 | a waiter is woken exactly when the owner it saw has released; with its context ended it can give up at any time, and touches nothing |
| ServerTransitions.ClaimAndReleaseFrees | internal/docker/transition.go:72-123 | a claim that is taken and given back leaves every owner as before |
| IdleTracker.StreakIsUninterrupted | internal/docker/idle.go:93-105 | the streak start is the first sighting of the idle stretch that is still running |
| IdleTracker.StreakRunsExactlyWhenIdle | internal/docker/idle.go:82-105 | a streak runs exactly when the last sighting of the server was idle |
| IdleTracker.Tracker.TryBegin | internal/docker/idle.go:109-129 | claims globally, then locally; a refusal leaves nobody owning what it claimed |
| IdleTracker.Tracker.End | internal/docker/idle.go:131-139 | forgets the entry and releases exactly the handle that was recorded |
| IdleTracker.Tracker.IdleFor | internal/docker/idle.go:96-105 | the clock keeps showing the start of the running streak |
| IdleTracker.Tracker.Sweep | internal/docker/idle.go:160-190 | no server with players, opted out, not running or without a container is put to sleep or keeps a streak; any other is, exactly when its uninterrupted streak is its timeout old, the default one if it has none |
| ContainerWorld.Cluster.Controller | internal/docker/sleep.go:124-141 | a node gets its own daemon; only a local one without falls back to the default, any other gets none |
| DeepSleep.Manager.RollbackSleep | internal/docker/sleep.go:192-238 | the stored status agrees with the observed container or is ERROR, unless the write failed, which is reported; when nothing fails it is the one for what was seen |
| DeepSleep.Manager.RollbackWakePersistenceFailure | internal/docker/sleep.go:256-296 | the container is confirmed stopped again, which it is when nothing fails, or ERROR is stored, or the failed write is reported |
| DeepSleep.Manager.BringDown | internal/docker/sleep.go:340-412 | success means the container was established as stopped; a running container is brought down when nothing fails |
| DeepSleep.Manager.BringUp | internal/docker/sleep.go:482-518 | success means the container was observed running, and it comes up when nothing fails |
| DeepSleep.Manager.SleepClaimed | internal/docker/sleep.go:302-425 | whatever fails, DEEPSLEEP stands only over a container established as stopped, unless the replacing write failed and is reported |
| DeepSleep.Manager.WakeClaimed | internal/docker/sleep.go:441-540 | DEEPSLEEP wakes, STOPPED and CREATING only with autoDeepSleep, RUNNING is already there, and every other status is refused; RUNNING is stored only for a container observed up; a failed wake leaves ERROR, a confirmed stop, or a failed write; when nothing fails the wake succeeds |
| DeepSleep.Manager.SleepServer | internal/docker/sleep.go:302-317 | the claim is taken first and given back on every path, what the call leaves is honest, and it succeeds when nothing fails |
| DeepSleep.Manager.WakeServer | internal/docker/sleep.go:427-541 | the wake waits for the server's owner as often as it takes, wakes by its status over the world in which its claim succeeded, as WakeClaimed does, and gives the claim back; or it gives up with its context, having changed nothing |
| DeepSleep.SleepsAtOneInput | internal/docker/sleep.go:302-425 | one running server, nothing fails: it is put to sleep, DEEPSLEEP over a stopped container |
| DeepSleep.WakesAtOneInput | internal/docker/sleep.go:430-541 | one sleeping server, nothing fails: it is woken, RUNNING over a running container |
| DeepSleep.Manager.WaitForServerTransition | internal/docker/transition.go:125-142 | the wait passes exactly when nobody owns the server, or the owner seen has released and the end of the context is not picked instead |
| WakeWait.WaitGoesOnExactlyWhen | internal/docker/sleep.go:434-438 | after any number of turns the wake is still looking exactly when every claim failed and every wait passed; with an ended context it is never blocked |
| WakeWait.NamelessWaitGoesOn | internal/docker/sleep.go:434-438 | a wake for a server without an id is still looking after any turns |
| WakeWait.NamedWaitCanGoOn | internal/docker/sleep.go:434-438 | for any named server and any number of turns there are sound ones after which a wake with an ended context is still looking |
| WakeWait.ReleaseLetsThrough | internal/docker/transition.go:125-142 | with its context alive, a wake is let through by the release it waited for and then claims the server if that is free |
| WakeWait.OwnerHoldsItBack | internal/docker/transition.go:125-142 | while the owner it saw holds on it stays blocked, or gives up once its context has ended |
| DeepSleep.OneCall | internal/docker/sleep.go:302-541 | a call does nothing, or leaves agreement whatever held before, or lost its closing write |
| DeepSleep.AnyCalls | internal/docker/sleep.go:302-540 | over any sequence of sleeps and wakes the stored status agrees with the container, whatever held before, unless the last call that did something lost its closing status write |
| Freezer.HibernationManager.RestoreRunningContainer | internal/docker/freezer.go:42-64 | either the container is verified running and the row left alone, or ERROR is stored, or the failed write is reported |
| Freezer.HibernationManager.HibernateClaimed | internal/docker/freezer.go:203-253 | PAUSED is stored only for a container seen paused; every other outcome is compensated or recorded, except a refused pause, which leaves RUNNING; success comes when nothing fails |
| Freezer.HibernationManager.HibernateServer | internal/docker/freezer.go:197-253 | the claim is taken first and given back on every path, and what the call leaves is honest |
| Freezer.HibernationManager.WakeServer | internal/docker/freezer.go:256-342 | the same for a wake, callbacks included |
| Freezer.HibernationManager.FireCallbacks | internal/docker/freezer.go:334-339 | every registered callback is fired once, in order of registration, for the server woken |
| Freezer.RegisterAndWake | internal/docker/freezer.go:156-161 | callbacks registered before a wake are all fired by it, after the earlier ones, in order of registration |
| Freezer.HibernationManager.RecordFailedUnpause | internal/docker/freezer.go:286-300 | a failed resume stores the observed state, never PAUSED, or ERROR |
| Freezer.HibernationManager.RestorePausedContainer | internal/docker/freezer.go:302-323 | when RUNNING cannot be stored the container is verified paused again, or ERROR is stored |
| Freezer.HibernationManager.WakeClaimed | internal/docker/freezer.go:262-342 | a thawed server is stored RUNNING and agrees with its container, and every callback fires once in order |
| Freezer.OneCall | internal/docker/freezer.go:197-342 | a call that did something leaves agreement whatever held before, unless its error carries a lost write or the pause's reply was lost; from agreement and with no lost write, agreement is lost exactly when a pause took hold and its reply was lost |
| Freezer.AnyCalls | internal/docker/freezer.go:197-342 | over any sequence the status agrees, unless the last call that did something lost a write or hid a pause; if it hid a pause, it does not agree |
| Freezer.HiddenPause | internal/docker/freezer.go:221-223 | one input: nothing fails but the reply of the pause, and RUNNING is stored over a paused container |
| StagedConfig.DiffSuffices | internal/db/staged_config.go:48-57 | laying the diff over the current config gives what laying all wanted values over it gives |
| StagedConfig.DiffIsLeast | internal/db/staged_config.go:48-57 | no overlay with that effect has fewer fields, and the diff is empty exactly when nothing changes |
| StagedConfig.SnapshotUndoes | internal/db/staged_config.go:229-236 | a diff followed by the snapshot of its fields is the original config, and the snapshot matches it |
| StagedConfig.ApplyMeans | internal/db/staged_config.go:395-483 | field by field what an apply stores, keeps, stamps and records, and the reason of every refusal |
| StagedConfig.RollBackMeans | internal/db/staged_config.go:488-558 | field by field what a rollback restores and keeps, and when it is refused for the row's status or lack of a previous state |
| StagedConfig.ApplyKeepsSound | internal/db/staged_config.go:395-483 | an apply stores a well-formed config and a previous payload fit to be written back |
| StagedConfig.RollBackKeepsSound | internal/db/staged_config.go:488-558 | so does a rollback |
| StagedConfig.AppliedChangeRollsBack | internal/db/staged_config.go:488-558 | an applied change with a recorded previous state can always be rolled back, whatever was written since |
| StagingStore.DiffMaps | internal/db/staged_config.go:48-57 | the loop computes the wanted values that differ, a missing field counting as different |
| StagingStore.MergeMaps | internal/db/staged_config.go:82-91 | the two loops lay the overlay over the base |
| StagingStore.StagedConfigStillMatches | internal/db/staged_config.go:61-79 | the check passes exactly when every recorded field has its recorded value, or nothing was recorded |
| StagingStore.WindowGivesAllowedTiming | internal/db/staged_config.go:158-200 | a window that is accepted gives a timing that staging accepts |
| StagingStore.RefusalMeans | internal/db/staged_config.go:107-224 | what each refusal of a staged change says, and that a change that is not refused is of known fields and moves one |
| StagingStore.NoDifferenceMeansAlreadyThere | internal/db/staged_config.go:221-224 | staging refuses for lack of differences only when the wanted values are already there, and never records an idle change |
| StagingStore.RetargetedShareTheWindow | internal/db/staged_config.go:258-266 | setting a batch's window gives all rows waiting in it the same window and touches nothing else |
| StagingStore.Store.EnsureOpenBatch | internal/db/staged_config.go:286-313 | the batch found open, or opened by this call or in between by another, is returned, and no second open one made, whichever statement fails |
| StagingStore.Store.SetBatchWindow | internal/db/staged_config.go:250-266 | the batch is written back and its waiting rows retargeted, over whatever other callers left and whichever statement fails; without a fault it fails exactly when another batch of the server is open |
| StagingStore.Store.StageConfigChange | internal/db/staged_config.go:177-284 | refused in the order of the checks with nothing written, or recorded as a diff against the live config, with other callers and faults before every statement; a failed call leaves the row only if the reply to its creation was lost |
| StagingStore.Store.StageServerConfigUpdate | internal/db/staged_config.go:135-147 | refused for a window that is unknown, has no time or no idle minutes; otherwise the row's mode is that of the window, with its time and minutes, the batch takes the window and its waiting rows are retargeted |
| StagingStore.Store.CloseUpdateBatch | internal/db/staged_content.go:118-123 | only an open batch closes, its key is freed, and one open batch per server remains |
| StagingStore.Store.DiscardStagedConfigChange | internal/db/staged_config.go:339-349 | only a row seen waiting is discarded, and the whole row is written back as it was seen |
| StagingStore.Store.ApplyStagedConfigChange | internal/db/staged_config.go:395-483 | the transaction has the effect of the specified apply, or none at all with its error |
| StagingStore.Store.RollbackStagedConfigChange | internal/db/staged_config.go:488-558 | the transaction has the effect of the specified rollback, or none at all with its error |
| StagingRaces.SaveReopensExactlyWhen | internal/db/staged_config.go:250-256 | a finished batch is open after the write exactly when it is the one written and no other batch of its server is open |
| StagingRaces.WindowReopens | internal/db/staged_config.go:135-147 | a window set on a batch closed before the write leaves that batch open |
| StagingRaces.WindowReopensAtOneInput | internal/db/staged_config.go:135-147 | the same at one input |
| StagingRaces.RowLandsInOpenBatchExactlyWhen | internal/db/staged_config.go:246-283 | over all statements of other callers: the row lands in an open batch exactly when every close of the batch from its lookup (with a window: its save) to the creation of the row is followed by a save that opens it again |
| StagingRaces.RowLandsInOpenBatchUnlessClosed | internal/db/staged_config.go:246-283 | while no other caller saves that batch, exactly when none of them closes it in that time |
| StagingRaces.StaysOpenExactlyWhen | internal/db/staged_content.go:117-123 | an open batch is open after any statements exactly when every close of it is followed by a save of it that is not refused |
| StagingRaces.PlayingIsSound | internal/db/staged_config.go:286-313 | any run of such statements that makes up no id of the call keeps the unique open key, so every staging method allows for it |
| StagingRaces.UndisturbedRowLandsInOpenBatch | internal/db/staged_config.go:246-283 | staging succeeds and the row lands in the open batch while nobody else touches batches |
| StagingRaces.RowIsAdded | internal/db/staged_config.go:246-283 | left alone, without a window or a fault, a call adds its row to the open batch of the server, or to a new one made for it, and changes nothing else |
| StagingRaces.WindowTakesEffect | internal/db/staged_config.go:250-266 | left alone and without a fault, the open batch takes the window asked for and all rows waiting in it its timing; nothing else changes |
| StagingRaces.RowLandsInClosedBatch | internal/db/staged_config.go:269-283 | a batch closed just before the row is written gets the row although it is finished |
| StagingRaces.DiscardHitsWaitingRowExactlyWhen | internal/db/staged_config.go:339-349 | over all statements of other callers: the row overwritten still waits exactly when no apply of it succeeded and no discard of it was written; it is the record of an apply exactly when one succeeded with no discard written after it |
| StagingRaces.RowAfterwards | internal/db/staged_config.go:395-558 | what any statements make of a waiting row |
| StagingRaces.DiscardLosesAnApply | internal/db/staged_config.go:339-349 | a change applied between check and write stays live, while its row says discarded and cannot be rolled back |
| StagingRaces.RacesAtOneInput | internal/db/staged_config.go:269-349 | both at one input |
| StagingRaces.FailedCallLeavesTheWindow | internal/db/staged_config.go:250-283 | an error after the batch was saved leaves its new window standing, its rows retargeted if that statement took effect, and the new row only if its reply was lost |
| StagingRaces.ServerIdCanBeStaged | internal/db/staged_config.go:107-122 | one input: staging "server_id" is not refused |
| StagedRuns.RollBackUndoesApply | internal/db/staged_config.go:440-448 | an apply followed by its rollback restores every field of every server except the time stamp |
| StagedRuns.ReverseRollbackRestores | internal/db/staged_config.go:485-558 | any sequence of applies rolled back in reverse succeeds and restores every field except the time stamp, however the changes overlap |
| StagedOrder.AppliedFieldMoves | internal/db/staged_config.go:463-465 | an applied field leaves its recorded value exactly unless it is "server_id" or a time stamp saved equal |
| StagedOrder.SharedFieldExcludes | internal/db/staged_config.go:436-438 | of two changes recorded against one config, applying one gets the other refused exactly when they share a stored field or the other names the time stamp |
| StagedOrder.AwayFieldIsLeftAlone | internal/db/staged_config.go:59-79 | while a field is away from its recorded value, no change recorded against that value gets through, over any sequence |
| StagedOrder.AppliedTogetherAreApart | internal/db/staged_config.go:432-438 | changes recorded against the same configs that all get applied touch different fields |
| StagedOrder.AnyOrderRollbackRestores | internal/db/staged_config.go:488-558 | when applied changes touch different fields, any of them can be rolled back in any order; every field no change left standing moves is back |
| StagedOrder.OneBaseRollsBackInAnyOrder | internal/db/staged_config.go:395-558 | changes recorded against the same configs, once all applied, can be undone in any order |
| BackupFormat.HeaderRoundTrip | internal/backupcrypt/encrypt.go:118-157 | a header reads back exactly for key ids of 1 to 1024 bytes; for every other id it is refused or names another id |
| BackupFormat.ReadHeaderReadsAHeader | internal/backupcrypt/encrypt.go:118-142 | whatever reads as a header is the header of the id and prefix found |
| BackupFormat.U32RoundTrip | internal/backupcrypt/encrypt.go:167-173 | the big-endian counter bytes determine the counter up to its 32-bit wrap |
| BackupFormat.HeaderLayout | internal/backupcrypt/encrypt.go:146-157 | a header is the magic, the length of the id in two big-endian bytes, the id and the nonce prefix |
| BackupFormat.NonceLayout | internal/backupcrypt/encrypt.go:167-173 | a nonce is the prefix and the counter in four big-endian bytes |
| BackupFormat.RecordLayout | internal/backupcrypt/encrypt.go:207-232 | a record is the length of the sealed chunk in four big-endian bytes and the chunk sealed with the header authenticated |
| BackupFormat.ArtifactLayout | internal/backupcrypt/encrypt.go:178-240 | an artifact is its header, its records and four zero bytes |
| BackupFormat.DecryptRefuses | internal/backupcrypt/encrypt.go:245-308 | an artifact without a proper header, or of another key id, is refused with nothing written; every later failure is reported as tampering |
| BackupCrypt.ChunksCoverThePlaintext | internal/backupcrypt/encrypt.go:207-232 | chunks join to the plaintext, all full but perhaps the last, none empty |
| BackupCrypt.WriteChunks | internal/backupcrypt/encrypt.go:207-232 | the streaming loop with its wrapping counter writes exactly the records of the chunks |
| BackupCrypt.EncryptFile | internal/backupcrypt/encrypt.go:178-239 | the output is the artifact of the plaintext, or nothing and the reason |
| BackupCrypt.ReadChunks | internal/backupcrypt/encrypt.go:270-306 | the streaming loop writes what the parser specifies, also when it fails |
| BackupCrypt.DecryptFile | internal/backupcrypt/encrypt.go:245-307 | verdict and bytes written are those of the parser, or nothing was opened |
| BackupCrypt.FramedDecrypts | internal/backupcrypt/encrypt.go:245-307 | any chunks framed under a usable id decrypt to their concatenation |
| BackupCrypt.RoundTripExactlyForUsableIds | internal/backupcrypt/encrypt.go:178-307 | decryption undoes encryption for every plaintext, empty and exact multiples included, exactly for ids of 1 to 1024 bytes |
| BackupCrypt.AcceptedIsFramed | internal/backupcrypt/encrypt.go:245-307 | every accepted artifact is a header of this key, records under consecutive counters, and the terminator |
| BackupCrypt.AcceptedArePrefixFree | internal/backupcrypt/encrypt.go:272-289 | no accepted artifact is a proper prefix of another: every cut and every extension is refused |
| BackupSplices.NoncesDiffer | internal/backupcrypt/encrypt.go:167-173 | within 2^32 chunks no two chunks of an artifact share a nonce |
| BackupSplices.OpensOnlyInPlace | internal/backupcrypt/encrypt.go:295-298 | when nobody forges, a chunk opens only at its own position of its own artifact |
| BackupSplices.WritesACut | internal/backupcrypt/encrypt.go:270-306 | whatever follows an authentic header, the bytes written are the plaintext cut at a chunk boundary, also on failure |
| BackupSplices.AcceptedExactlyWhenCut | internal/backupcrypt/encrypt.go:245-307 | accepted exactly when it is the first chunks of that very artifact with the terminator: no reorder, repeat or splice |
| BackupSplices.ForeignHeaderWritesNothing | internal/backupcrypt/encrypt.go:245-307 | under a header nobody made nothing is written; only the bare header and terminator are accepted |
| BackupSplices.ShortenedArtifactIsAccepted | internal/backupcrypt/encrypt.go:9-12 | the promise that truncation always fails is broken for whole chunks: the shortened artifact decrypts |
| LoginThrottle.Throttle.Allow | internal/auth/throttle.go:79-96 | a key is refused exactly while its lockout lasts and told the rest of it; an expired entry is deleted on the way |
| LoginThrottle.Throttle.Failure | internal/auth/throttle.go:100-126 | failures are counted in a window that starts anew when it has passed, the one that reaches the limit starts the lockout and reports it; from 1000 entries on expired ones go first |
| LoginThrottle.Throttle.CleanUp | internal/auth/throttle.go:104-110 | below 1000 entries nothing goes, below 100000 exactly the expired ones, and a table that stays at 100000 is emptied |
| LoginThrottle.Throttle.Prune | internal/auth/throttle.go:136-142 | exactly the expired entries go, and their number is returned |
| LoginThrottle.Throttle.ClearExpired | internal/auth/throttle.go:151-157 | the loop removes exactly the expired entries |
| ThrottleRuns.PruningIsInvisible | internal/auth/throttle.go:92-157 | below the hard cap the limiter answers every run as one that never deletes an expired entry, from any two tables that differ only in expired entries |
| ThrottleRuns.PruningIsInvisibleFromTheStart | internal/auth/throttle.go:58-157 | in particular from a new limiter on |
| ThrottleRuns.FailureRateIsBounded | internal/auth/throttle.go:79-126 | with a lockout longer than the window, no closed interval one window long holds more than 2*max-2 gated failures of a key |
| ThrottleRuns.RunRateIsBounded | internal/auth/throttle.go:79-157 | the same for every run of calls for any keys on the limiter as written |
| ThrottleRuns.BoundIsAttained | internal/auth/throttle.go:111-126 | the bound is tight for all limits |
| ThrottleRuns.FlushIsHarmlessExactlyWhen | internal/auth/throttle.go:43-46 | forgetting an entry is only ever more permissive exactly when one failure blocks anyway or its window has passed |
| ThrottleRuns.GatedFlushIsHarmlessExactlyWhen | internal/auth/throttle.go:43-46 | over failures the limiter let through: with a lockout longer than the window, exactly when the entry is no count of 1 to max-2 in a running window; otherwise exactly when one failure blocks anyway or the window has passed |
| ThrottleRuns.ShapesStay | internal/auth/throttle.go:100-126 | every entry of a table is a count below max, with the lockout that began with its window if there was one |
| ThrottleRuns.MaxFailuresLockOut | internal/auth/throttle.go:100-126 | fewer than max failures of a key in one window leave it permitted; the one that makes them max locks it out for exactly the lockout, and every answer says what is left of it |
| ThrottleRuns.Replay | internal/auth/throttle.go:79-142 | a throttle object answers every sequence of calls as the specification does |
| ModuleStart.Manager.CreateAndStartModule | internal/module/manager.go:269-336 | terminates; on success the module runs, or just has its container; nobody else that ran has stopped and only modules below it changed, also on failure |
| ModuleStart.Manager.StartModule | internal/module/manager.go:339-419 | the same, and no module is started twice; it succeeds when no call fails, every dependency has a row and those waited for become healthy |
| ModuleStart.Manager.StartDependencies | internal/module/manager.go:467-511 | on success all declared dependencies are recorded running, those waited for are healthy, and the module's own row is as it was |
| ModuleStart.Manager.StartDependency | internal/module/manager.go:472-511 | a dependency that is waited for succeeds only if it becomes healthy; when no call fails it succeeds exactly then, or when it is not waited for |
| ModuleStart.Manager.StartContainer | internal/module/manager.go:379-384 | a container is started only while all declared dependencies of its module are recorded running |
| ModuleStart.DependenciesComeFirst | internal/module/manager.go:466-511 | starts are in topological order: along any path of dependencies, a module that was started had its last dependency started before it, or some module on the path was running from the first |
| FirewallRules.IsolationDecides | internal/docker/firewall.go:153-165 | the isolation rules decide every packet to the port: accepted are 127.0.0.1, 10/8, 172.16/12 and 192.168/16, everything else is dropped |
| FirewallRules.NetsArePrivate | internal/docker/firewall.go:155-162 | the four networks are 127.0.0.1 and the three private ranges, to the address |
| FirewallRules.LimitingDecides | internal/docker/firewall.go:55-86 | a packet is dropped exactly when its source is cut off or it is a SYN without room in the budget, accepted when it is a SYN with room, and its source recorded when it opens a connection and is not cut off |
| Firewall.FirewallManager.InsertAll | internal/docker/firewall.go:104-124 | the chain after the loop, and how far it came when an insert failed; its positions always exist, so it gets through when no insert fails |
| Firewall.FirewallManager.RemoveAll | internal/docker/firewall.go:142-146 | the first match of each rule goes and nothing else |
| Firewall.GoneIsTheFirst | internal/docker/firewall.go:142-146 | a deletion takes out the first match and leaves what is before and after it; without a match nothing goes |
| Firewall.FirewallManager.ApplyPortRateLimiting | internal/docker/firewall.go:94-131 | the four rules are in place exactly when it succeeds; disabled, nothing happens |
| Firewall.FirewallManager.ApplyProxyPortIsolation | internal/docker/firewall.go:168-199 | the five rules are in place exactly when it succeeds; without a port nothing happens |
| Firewall.FirewallManager.SetUpPort | internal/docker/client.go:866-886 | one kind of rules is removed before the other is applied, and the chain is fixed also when an insert fails |
| FirewallRuns.StepOnBlocks | internal/docker/firewall.go:94-214 | a set-up turns a chain of whole blocks over foreign rules into another such chain |
| FirewallRuns.RunIsBlocks | internal/docker/firewall.go:88-93 | in every run each port has one contiguous block in build order |
| FirewallRuns.LastSetUpDecides | internal/docker/firewall.go:62-214 | after any run the verdict for a packet is that of the last set-up of its port, whatever was done for other ports |
| FirewallRuns.RetryAtTheTopCompletes | internal/docker/firewall.go:104-124 | applying again right after a failed insert completes the block |
| FirewallRuns.LateRetryShutsThePort | internal/docker/firewall.go:174-193 | after 1 to 4 isolation rules and at least as many rules of other ports on top, applying again drops loopback |
| FirewallRuns.LateRetryMisleadsTheLimit | internal/docker/firewall.go:104-124 | after 1 to 3 rate rules, applying again accepts a source over its limit or drops one below it |
| FirewallRuns.LateRetryAtOneInput | internal/docker/firewall.go:174-193 | one isolation rule, a published port on top, and the retry: loopback is dropped, which a first set-up there accepts |
| FirewallRuns.RetryWorksExactlyWhen | internal/docker/firewall.go:88-193 | for both kinds of blocks, applying again gives the intended verdicts exactly when no other block came on top, or nothing or everything had been inserted |
| PropertyLines.EntryRoundTrip | internal/minecraft/properties.go:29-42 | a clean key and value are read back from the line they are written on |
| PropertyLines.EntryIsAtTheFirstEquals | internal/minecraft/properties.go:29-42 | blank lines, comments and lines without an equals sign carry no entry; otherwise the first equals sign ends the key, and both sides are trimmed |
| PropertyLines.EntriesAreClean | internal/minecraft/properties.go:29-42 | every entry read from any line is clean |
| PropertyLines.LinesRoundTrip | internal/minecraft/properties.go:62-73 | lines written out are split up the same way again |
| PropertyLines.LastLineCounts | internal/minecraft/properties.go:26-29 | a last line without a newline counts unless it is empty |
| PropertyLines.RefusedExactlyWhenTooLong | internal/minecraft/properties.go:26-50 | the scanner refuses a text exactly when one of its lines has 64 KiB or more |
| Text.TrimCuts | internal/minecraft/properties.go:29-42 | trimming cuts white space off both ends, all of it and nothing else |
| Text.SpacesAre | internal/minecraft/properties.go:29-42 | white space is tab to carriage return, the blank, and the Unicode blanks, by code point |
| ServerProperties.LoadServerProperties | internal/minecraft/properties.go:16-50 | the scanner loop collects the entries, later lines overriding earlier ones |
| ServerProperties.RewriteLines | internal/minecraft/properties.go:85-108 | each line is rewritten in place or kept, and the keys found are recorded |
| ServerProperties.NewLines | internal/minecraft/properties.go:110-115 | every property no line carried is appended once, in some order |
| ServerProperties.SaveServerProperties | internal/minecraft/properties.go:53-118 | the new text, or an error with the file left alone |
| ServerProperties.SaveThenLoad | internal/minecraft/properties.go:16-118 | loading after saving gives the file's map overridden by the saved map exactly when every saved entry is clean, its line below 64 KiB in UTF-8 included, repeated keys included |
| ServerProperties.OtherLinesKeepTheirPlace | internal/minecraft/properties.go:86-108 | comments, blank and unrelated lines keep text and place; each new key is one new line |
| ServerProperties.SavedKeysAreRewritten | internal/minecraft/properties.go:95-115 | the line of a saved key, old or new, is key, equals sign and value |
| VarInt.WriteVarInt | internal/minecraft/slp.go:291-301 | the loop writes the groups of the number's 32 bits from the low end |
| VarInt.ReadVarInt | internal/minecraft/slp.go:303-331 | the loop gathers groups into free bits only and stops as specified |
| VarInt.WrittenBytes | internal/minecraft/slp.go:291-301 | one to five bytes, all but the last marked, whose low seven bits from the low end are the 32 bits of the number |
| VarInt.ReadBytesSpell | internal/minecraft/slp.go:303-331 | any accepted bytes end at the first unmarked one and spell the number from the low end, modulo 2^32 |
| VarInt.NumberRoundTrip | internal/minecraft/slp.go:291-331 | every int32 reads back from 1 to 5 bytes with what follows left unread |
| VarInt.NumberFailsExactly | internal/minecraft/slp.go:303-331 | reading fails exactly after five marked bytes or at the end of input before an unmarked one |
| VarInt.WrittenFormIsShortest | internal/minecraft/slp.go:291-331 | whatever is accepted as a number has at least as many bytes as writing it takes |
| VarInt.StringRoundTrip | internal/minecraft/slp.go:333-354 | a string reads back exactly when it has at most 32767 bytes |
| VarInt.ReadStatusResponse | internal/minecraft/slp.go:161-197 | the packet is read as specified, the rest of the connection left |
| VarInt.PacketIsReadWhole | internal/minecraft/slp.go:251-257 | a framed packet of 1 byte to 1 MiB is looked at whole and alone; any other is refused |
| VarInt.StatusRoundTrip | internal/minecraft/slp.go:161-257 | a framed status response is read exactly when its text has at most 32767 bytes; the packet limit never decides |
| PortLeases.WithPairKeepsSound | internal/db/portlease.go:60-70 | giving a server a pair nobody else holds leaves everybody with nothing or one pair, others' untouched |
| PortLeases.LeaseStore.UsedBackendPorts | internal/db/portlease.go:89-115 | the ports blocked by other servers' leases and rows, and no others |
| PortLeases.PairsInNumbers | internal/db/portlease.go:60-115 | which pairs an attempt may give, in numbers: from 25566 to 30000, ten apart, neither leased nor on the row of another server of the node |
| PortLeases.LeaseStore.FirstFit | internal/db/portlease.go:60-63 | the least candidate pair, or none exactly when there is none |
| PortLeases.LeaseStore.Attempt | internal/db/portlease.go:48-73 | one transaction gives the least pair free at its look if nobody took it before the writes; otherwise it leaves the table, naming a collision, a full node or the store error |
| PortLeases.LeaseStore.ReserveBackendPortPair | internal/db/portlease.go:40-82 | the pair is the least from 25566 on, ten apart and up to 30000, of which no other server of the node has a port by lease or by its row, in the tables the answering attempt met; giving up for lack of one means every pair is taken, and otherwise that all eight attempts collided; every server keeps nothing or one pair |
| PortLeases.OutcomeIsDecided | internal/db/portlease.go:48-73 | what an attempt meets decides its answer and the table it leaves |
| PortLeases.LeaseStore.ReleaseBackendPorts | internal/db/portlease.go:85-87 | the server holds nothing afterwards, and others keep theirs |

## Left out

- DeepSleep.AnyCalls: restart policies are not tracked, because a failed sleep does not restore the policy it pinned; during a call nobody else writes the server's row.
- Freezer.AnyCalls: nobody else writes the server's row during a call.
- StagingStore.Store.StageConfigChange: does not promise that the batch is open when the call returns, because another caller can close it before the row is written; the exact condition is in StagingRaces.RowLandsInOpenBatchExactlyWhen. Reading the server and its live config does not fail.
- StagingStore.Store.DiscardStagedConfigChange: does not promise that the row overwritten still waits; the exact condition is StagingRaces.DiscardHitsWaitingRowExactlyWhen.
- PortLeases.LeaseStore.ReserveBackendPortPair: nobody else reserves for the same server during one attempt.
- FirewallRuns.RunIsBlocks: rate and burst are the same for the whole run, rule lookups and deletions do not fail, and nobody else edits the chain.
- ModuleStart.Manager.StartModule: dependency graphs with a cycle, on which the code does not end, are excluded by a rank; a freshly created container can be inspected; which modules become healthy in time is fixed from the start.
- That recovery runs only when workers are gone is a hypothesis of the exclusion result, not derived from the order of panel start-up.
- The strength of AES-GCM and of the random nonce prefix: that nobody forges a chunk and prefixes differ are hypotheses of the splice results. Read and write errors of artifact files.
- Proxy routes, log streaming and init commands of modules.
- JSON decoding of staged payloads: values count as already in normal form, and one stamp stands for every automatic column of a saved config.
- Bit operations of the VarInt loops are written as arithmetic on the 32 bits, with "or" restricted to free bits. The ping packet.
- Request ids and release notes of the journal arrive trimmed and are byte strings; the SHA-256 digest is replaced by the text it hashes. Property files and request ids of server creation that are not valid UTF-8.
- Time is an integer given to each call; deadlines, tickers and scheduling are nondeterministic choices.
- A failed store write leaves its row unchanged, and the two writes of `UpdateServer` count as one.
- Cron grammar, log text, metrics of the managers, route refreshing and console output.
- Staged content rows, panel database backups, container clean-up, node placement, the metrics roster and container re-creation.
