# OctoHubs protocols, modelled and proved in Dafny

This project models the stateful and algorithmic core of OctoHubs and proves what that
core is relied on for. Every cluster stands alone; `Common`, `Text` and `Sorting` hold the
few things they share.

* **Operation registry** (`OperationRegistry`, `OperationTracking`, `OperationProtocol`,
  `OperationRuns`, `OperationHeartbeats`). Several trackers share one key-value registry. The
  class follows the mutators; the protocol has one step per critical section, a shared clock
  and storage writes that may fail.
* **Workflow engine and scheduler** (`WorkflowSteps`, `WorkflowProtocol`, `ScheduleTimes`,
  `OccurrenceProtocol`, `AutoScheduling`). The step loop under exceptions and stop requests,
  the lease protocol around it, occurrence claims with retries, and next-run arithmetic.
* **Latest refresh** (`LatestRefresh`). Reserve, start, run, release, shutdown, reopen.
* **Collections** (`Collections`, `EmbyRemote`, `GlobalSync`, `CollectionRuns`,
  `CollectionStore`). Clean-up of remote servers whose listings and deletes may fail at any
  moment, over runs of the operations and under changing server configurations.
* **Trakt tokens** (`TraktSettings`, `TraktClients`, `TraktProtocol`). Compare-and-swap
  refresh; section 6 of RFC 6749.
* **Accounts** (`Accounts`, `ApiTokens`). The last administrator, the authorization epoch and
  the token table over time.
* **Algorithms**: `TimeGaps` and `LatestBatches` (time-gap batching), `SecretKeys` and
  `SettingsEnvelope` (secret envelopes in JSON), `JsonBudget` (the explicit-stack budget
  check; section 9 of RFC 8259 allows such limits), `ProviderUrls`, `HostForms`,
  `TraktReferences`, `SourceReferences` and `ReferenceForms` (provider references; section 3
  of RFC 3986).

Run `dafny verify dfyconfig.toml` to check it.

Conventions. A protocol is a `State`, an `Event` and a total `Step`: an event that cannot
happen in a state leaves it as it is, so a theorem about every sequence of events is one about
every interleaving (`OperationProtocol` names the possible events instead, and its theorems are
about every possible sequence). History kept only to state theorems (who was released by whom, how often
a lease was finished) is marked as such and never read by a guard. Objects with mutable fields
are classes whose methods are proved against the functions the protocols use, and against the
fields they are to leave behind, one by one; the lemmas named `...GoesThrough` say the same of the
steps of a protocol when nothing comes in between. In the table the
theorems and the algorithms come first; the rows from `OperationTracking.OperationTracker.constructor`
on tie the methods of a class to the steps those theorems are about.

## Where the code does not meet an expected property

Each of these is stated with a concrete witness and the exact condition.

* Sweeps less than `stale_after` apart do not protect live work: a sweep that chose its ids just
  before a record was written passes over it. Twice the gap, plus the time a start may wait
  between reading the clock and writing, has to stay below the threshold
  (`OperationHeartbeats.ExactHeartbeatGap`).
* `shutdown()` clears the heartbeat ids some time after it closed admission, and nothing checks
  that admission is still closed then. When `initialize()` and a `start()` come in between, the
  new work loses its heartbeat; reopening is safe exactly when every shutdown has returned
  (`OperationRuns.ReopenIsSafeExactly`), and otherwise no heartbeat interval helps
  (`OperationHeartbeats.NoGapProtectsAfterOverlap`). Work that a shutdown left active, because it
  was told to or because the write failed, is not renewed after reopening either
  (`OperationRuns.ReopenForgetsEarlierWork`).
* A fault-free global sync may leave a collection behind when its definition was saved again
  while waiting for deletion and the tag is padded (`Collections.ConvergesForEveryContent`).
* Merging Trakt settings twice differs from merging once when the refresh token is blank but not
  empty (`TraktSettings.MergeIsIdempotentExactly`); the day-long refresh margin never takes
  effect (`TraktClients.NeedsRefresh`).
* The authorization epoch can repeat when a password change runs inside `update_user_details`,
  which takes no row lock (`Accounts.DetailsCommitExactly`).
* A too small batch is replaced instead of extended when an undated item is listed before one
  dated exactly the least date (`LatestBatches.AlwaysExtendsBatchExactly`).
* Normalizing a source reference is not idempotent for MDBList numbers over 128 digits taken from
  a URL, and for a Trakt sort order with a percent-encoded dotted capital I
  (`SourceReferences.NormalizeIsIdempotentExactly`).
* The latest-refresh reservation flag does not exclude once an admitted start raises, before or
  after its native thread exists: it is then given back twice, the second time onto whoever
  reserved in between. Until then it does (`LatestRefresh.ReservationExcludesExactly`), and the
  thread slot always does.
* The published workflow status alone would admit a second workflow, exactly between publication
  and release of the first (`WorkflowProtocol.StatusAdmitsExactlyAtRelease`); the thread check
  never does.
* A global sync deletes the collection of an enabled definition exactly when a definition that is
  disabled, waiting for deletion or owing a clean-up on that server has the same name or sort name
  (`Collections.OwnedIsKeptExactly`, `Collections.WantedIsKeptExactly`).
* Erasing a record drops its list of debts. A server that owes a clean-up and is no target of the
  erasure may keep collections nobody owes any more (`CollectionRuns.ErasureLosesDebtExactly`);
  those that carry the tag go with the next fault-free sync, the others only by their name
  (`CollectionRuns.LeftoverSurvivesExactly`).

## Model

| member | source | states |
|---|---|---|
| OperationRegistry.RoundsToNearest | core/operations.py:669-674 | Reported progress is rounded to a nearest integer, to the even one of two |
| OperationRegistry.ProgressIsMonotone | core/operations.py:659-674 | Progress from counts is a percentage, 0 at the start, never falls while the count grows, and is 100 exactly when at most half a percent is missing; below 200 items that is when everything is done |
| OperationRegistry.PutSpec | core/operations.py:92-104 | After writing, the registry holds the record and every record with another id, and a new id comes last |
| OperationRegistry.PutKeepsPlaces | core/operations.py:92-104 | A written record takes the place of the one with its id, every other keeps its own, and the registry grows only by a new id |
| OperationRegistry.PruneSpec | core/operations.py:589-603 | Pruning keeps every active record and at most `max_recent` others, none of them older than one it dropped |
| OperationRegistry.WriteIsSafe | core/operations.py:108-167 | One call of one tracker changes no record of another owner except active to interrupted, never reactivates a closed record, and drops no active record it did not close |
| OperationRegistry.WriteUnique | core/operations.py:560-577 | Every write leaves at most one record per id |
| OperationRegistry.PatchedIsUpdated | core/operations.py:118-148 | An update writes each field that is given and keeps the others; the progress is the given percentage, or the one the counts come to, rounded to the nearest whole percent and the even one of two |
| OperationProtocol.StepKeepsInv | core/operations.py:64-106 | Every critical section of every tracker keeps the protocol invariant, failed writes and late clears included: a live record of a tracker opened after every shutdown had returned is tracked, or its start still holds the lock, and its beat is recent as far as the last sweep promises |
| OperationProtocol.CallsCanHappen | core/operations.py:108-322 | A tracker can make every call at any time, but for ids whose start has not returned |
| OperationProtocol.StartGoesThrough | core/operations.py:64-106 | The two locked steps of a start store the running record with the time it read before the lock, keep every other active one, and track the id |
| OperationProtocol.SweepGoesThrough | core/operations.py:507-541 | The two steps of a sweep stamp every tracked record of this owner that is active, leave the other active ones alone, and mark every other tracked id for untracking |
| OperationProtocol.CallUntracks | core/operations.py:237-355 | After a completion, or one of the interrupting calls by owner, exactly its ids can be untracked |
| OperationProtocol.ShutdownGoesThrough | core/operations.py:357-400 | A shutdown closes admission, then either forgets the tracked ids or leaves them, and has returned; a reopening in between starts with no ids and is marked as overlapped |
| OperationRuns.LiveWorkIsTracked | core/operations.py:96-106 | Over every run, failed writes included: each active record an accepting tracker started since it last opened, whose start did not fail, is in its heartbeat set or its start is still inside the lock, provided every shutdown had returned when it opened |
| OperationRuns.ReopenIsSafeExactly | core/operations.py:357-400 | Reopening a closed tracker keeps that guarantee, whatever happens until the next reopening, exactly when no shutdown that closed it is still to return; otherwise its late clear can drop the id of new work |
| OperationRuns.ReopenForgetsEarlierWork | core/operations.py:357-368 | Work a shutdown left active stays in the registry after the reopening and is in no heartbeat set of the tracker again, over any run |
| OperationRuns.StepIsFenced | core/operations.py:108-167 | Over every run, one event adds only its own record, changes foreign records only from active to interrupted, and touches an active record only if its call addressed it |
| OperationRuns.ClosedForever | core/operations.py:118-131 | Over every run of any number of trackers, a record that left queued and running never becomes active again |
| OperationHeartbeats.ExactHeartbeatGap | core/operations.py:260-292 | For trackers that were opened after every shutdown had returned, sweeps at most `gap` apart keep live work from ever being stale exactly when `2 * gap + latency` is below the threshold; a gap merely below the threshold is not enough |
| OperationHeartbeats.NoGapProtectsAfterOverlap | core/operations.py:357-400 | For a tracker reopened before its shutdown had returned no gap, however short, protects its work |
| OperationRuns.AbandonedWorkIsInterrupted | core/operations.py:260-292 | Over every run in which nobody renews a record, it is closed or still shows its last beat, and the first stale sweep of any tracker whose cutoff has reached that beat leaves it closed, announced by the preflight unless it was closed before |
| WorkflowSteps.WorkflowManager.RunWorkflow | core/tasks.py:1791-1966 | With `k` the first step before which a stop is visible or that raises: the steps before `k` are done, the others end skipped or failed as the code says, and the published status, error text and outcome are those of an interruption, a failure of `k`, a success or a failed save, for every pattern of exceptions and stop moments |
| WorkflowSteps.WorkflowManager.RunWorkflowAndNotify | core/tasks.py:1536-1563 | The same for the thread target; the callback hears success exactly when the run succeeded, was saved and no stop was visible by then |
| WorkflowSteps.RunIsWellShaped | core/tasks.py:1791-1966 | Final statuses are done^k, then nothing, skipped only, or one failure and then skipped only; a failure shows exactly when a step raised with no stop seen before its handler |
| WorkflowSteps.SuccessMeansAllDone | core/tasks.py:1536-1563 | Success is reported exactly when nothing raised, no stop was visible and the outcome was saved; then every step is done |
| WorkflowSteps.SkippedAfterStop | core/tasks.py:1791-1966 | A step before which the stop was visible ends up skipped |
| WorkflowProtocol.StepKeepsInv | core/tasks.py:1245-1399 | Every step of start, stop, worker, heartbeat clean-up and finalization keeps the protocol invariant |
| WorkflowProtocol.StartGoesThrough | core/tasks.py:1245-1399 | A start that is admitted and owned publishes the running workflow, puts its lease into the slot and its worker to the first step; a stop then only asks for the end |
| WorkflowProtocol.FailedStartIsUndone | core/tasks.py:1346-1534 | A refused claim, a heartbeat that does not start and an operation that cannot be recorded give the lease back once and leave the manager idle, without a worker |
| WorkflowProtocol.EndGoesThrough | core/tasks.py:996-1053 | A worker whose steps are over publishes its final status once, a failure when it could not be saved, then gives back its lease, then ends |
| WorkflowProtocol.OthersPublishNothing | core/tasks.py:996-1053 | A worker whose workflow is not the current one any more publishes nothing |
| WorkflowProtocol.AbandonedIsCleanedUp | core/tasks.py:1207-1223 | The heartbeat thread of an abandoned start publishes its failure, gives back its lease and resets the manager, unless another workflow is current or a worker lives |
| WorkflowProtocol.OneWorker | core/tasks.py:1237-1291 | In every interleaving at most one workflow worker is alive |
| WorkflowProtocol.PublishedOnce | core/tasks.py:996-1053 | No workflow publishes a final status twice |
| WorkflowProtocol.LeasesReleasedOnce | core/tasks.py:1093-1104 | Each lease is released at most once, only by the workflow that acquired it, and exactly once when its worker is gone |
| WorkflowProtocol.StatusIsNotTheGuard | core/tasks.py:1237-1243 | That window is reachable: the published status alone would admit a second workflow; the thread check keeps it out |
| WorkflowProtocol.StatusAdmitsExactlyAtRelease | core/tasks.py:1237-1243 | In every run, while a lease is held the status would admit a workflow exactly when the current worker has published and not yet released, and status and thread together never do |
| ScheduleTimes.PrintedClockIsRead | core/config.py:221-236 | Every time normalization prints is HH:MM, with the digits of the clock time, and is read back by the next-run computation as that clock time |
| ScheduleTimes.TokenIsHourAndMinute | core/config.py:221-236 | A token is valid exactly when the texts before and behind its first colon are numbers, which are moved into 0 to 23 and 0 to 59 |
| ScheduleTimes.PrintedClockIsNormal | core/config.py:221-236 | Normalizing a printed clock time gives it back, and a number alone is a full hour |
| ScheduleTimes.SignedNumber | core/config.py:231-234 | A sign in front of a number is read as Python reads it |
| ScheduleTimes.ReadsTwoFields | core/tasks.py:703-710 | The computation reads the first two fields and refuses, rather than moves, a number out of range |
| ScheduleTimes.NormalizeTimeList | core/config.py:238-250 | The result lists exactly the clock times of the valid tokens, each once, in increasing order |
| ScheduleTimes.CalculateNextRun | core/tasks.py:691-712 | The loop over the listed times computes the specified least candidate, and the interval otherwise |
| ScheduleTimes.FixedRunIsLeast | core/tasks.py:691-712 | For any tokens: one out of range fails the computation, unreadable ones are passed over, and otherwise the next fixed run is the least instant strictly after the reference that shows a listed clock time, at most a day later |
| ScheduleTimes.NextRunAfterReference | core/tasks.py:691-712 | For normalized times there is always a next run: the first later instant that shows one of the clock times, and in interval mode or without times exactly the given minutes later, 60 when none are given and 1 when they are not positive |
| OccurrenceProtocol.LeaseFinishedOnce | core/tasks.py:594-642 | In every interleaving of completion, lost lease, start failure and overlapping claims, the lease of a claim is finished at most once |
| OccurrenceProtocol.EvaluateIsExact | core/tasks.py:426-433 | An evaluation keeps a next run that is there and computes a missing one, and from that instant on claims the retried time, or the next run where there is none |
| OccurrenceProtocol.FinishInThreeSteps | core/tasks.py:594-632 | Taking the run, finishing its lease and settling are one finish: a failure is retried a minute later for its own time, a success moves the calendar to the first later run, and changed or disabled settings only drop the retry |
| OccurrenceProtocol.AnswersAreExact | core/tasks.py:437-457 | A granted claim fills the run field; a refused occurrence comes back in a minute with its own time, a completed one and a started one move the calendar to the first later run, and the evaluation is over |
| OccurrenceProtocol.UnstartedIsExact | core/tasks.py:517-552 | A claim that could not be started, its run gone, comes back in a minute with its own time |
| OccurrenceProtocol.ConfigureIsExact | core/tasks.py:310-330 | Changed settings clear next run and retry, equal ones change nothing, and runs under way stay |
| OccurrenceProtocol.StepKeepsRetry | core/tasks.py:413-466 | Every step keeps the occurrence that is due recallable while no runs overlap and the settings stay |
| OccurrenceProtocol.AttemptsKeepTheirTime | core/tasks.py:413-466 | With no overlapping run and unchanged settings, all attempts between two successes claim the time the first of them was scheduled for |
| OccurrenceProtocol.OverlapClaimsAnotherTime | core/tasks.py:440-446 | With an overlap they need not: the calendar moves on while the first attempt runs |
| LatestRefresh.StepKeepsShutdowns | emby_latest/api_handlers.py:134-152 | Every step keeps what a shutdown call in progress or returned has established |
| LatestRefresh.RefreshGoesThrough | emby_latest/api_handlers.py:31-113 | On an open and free gate a refresh reserves, takes the slot, runs and gives back the slot and the reservation |
| LatestRefresh.RefusedStartIsUndone | emby_latest/api_handlers.py:344-356 | A request whose thread could not be started gives the reservation back itself |
| LatestRefresh.ReservedOnlyWhenFree | emby_latest/api_handlers.py:31-43 | Only an open gate without reservation or refresh can be reserved |
| LatestRefresh.OpensOnlyWhenQuiet | emby_latest/api_handlers.py:115-122 | Admission reopens exactly when nothing is reserved or in the slot |
| LatestRefresh.ShutdownAnswers | emby_latest/api_handlers.py:134-152 | A shutdown closes admission and answers True exactly when nothing is reserved or running, or the thread it found has ended; a reservation that stays makes it give up |
| LatestRefresh.OneTarget | emby_latest/api_handlers.py:70-113 | In every interleaving at most one refresh target runs |
| LatestRefresh.ShutdownIsFinal | emby_latest/api_handlers.py:134-152 | Once shutdown returned True nothing runs and nothing can start until admission reopens |
| LatestRefresh.QuiescenceFreesReservation | emby_latest/api_handlers.py:31-51 | When every request is answered and every worker gone, the reservation is free, whatever failed |
| LatestRefresh.ReservationIsNotExclusive | emby_latest/api_handlers.py:344-356 | A run in which a start failing before the native thread gives the reservation back twice and two requests hold it |
| LatestRefresh.ReservationIsExclusive | emby_latest/api_handlers.py:31-51 | In every run in which no admitted start raises, at most one request or worker holds the reservation, and then the flag is set |
| LatestRefresh.ReservationExcludesExactly | emby_latest/api_handlers.py:344-356 | While one holder has it, any event leaves the reservation exclusive, over every run without another raising start, exactly when the event is not an admitted start that raises, before or after its native thread exists |
| Collections.ServerIds | emby_collections/collection_common.py:98-119 | Selected servers are stripped, configured ones when a configuration exists, complete and without repetition |
| Collections.NamedByTheFirst | emby_collections/collection_common.py:74-83 | The definition a collection names is read from its first tag with the prefix, stripped |
| Collections.TargetsOrAll | emby_collections/collection_common.py:86-96 | A clean-up goes to the configured servers the record asks for, and to all configured ones exactly when it asks for none of them |
| Collections.CanonicalNameIsTagged | emby_collections/collection_common.py:74-83 | A collection whose tags carry no padding is tagged exactly with the definition its tags are read to name |
| EmbyRemote.Remote.FindIds | emby_collections/collection_emby.py:454-480 | A successful listing yields exactly the ids of the matching collections on that server |
| EmbyRemote.Remote.Delete | emby_collections/collection_emby.py:152-177 | A confirmed delete removes exactly that collection; an unconfirmed one removes it or nothing |
| EmbyRemote.Remote.CleanServer | emby_collections/collection_sync.py:491-508 | Listing and deleting on one server removes only matching collections, and all of them when every call was confirmed, which is then recorded |
| EmbyRemote.Remote.RetryDebts | emby_collections/collection_sync.py:531-555 | A server stays in debt when it is not configured and when its clean-up was not confirmed, even if nothing matching happens to be left; one that leaves the list was confirmed clean and holds nothing that matches |
| EmbyRemote.Remote.SweepServer | emby_collections/collection_sync.py:463-490 | The sweep of one server deletes only tagged collections no enabled definition wants there, all of them when nothing fails |
| GlobalSync.PendingPass | emby_collections/collection_sync.py:509-530 | A record waiting for deletion is erased only when all its target servers are clean, and always when nothing fails and a server exists |
| GlobalSync.OwedPass | emby_collections/collection_sync.py:531-565 | A server leaves the debts of an active record only by a confirmed clean-up of that record that left nothing there; debts of records waiting for deletion stay |
| CollectionStore.Store.Save | emby_collections/collection_store.py:129-266 | Saving keeps old debts not selected again, adds exactly the deselected servers whose clean-up was not confirmed, deletes only collections matching the record on configured servers it deselects, stores the given or earlier name and sort name and the selected servers, rejects a missing name or server without side effects, and leaves other records alone |
| CollectionStore.Store.SetEnabled | emby_collections/collection_store.py:269-303 | Enabling only sets the flag; disabling also removes matching collections, only on configured servers the record asks for, or on any when it asks for none of them |
| CollectionStore.Store.Remove | emby_collections/collection_store.py:306-364 | The record is erased exactly when a server exists and every listing and delete of the call was confirmed; otherwise it is marked pending and disabled. Collections on a configured server it does not ask for stay when it asks for another one |
| CollectionStore.Store.SyncAll | emby_collections/collection_sync.py:416-570 | A global sync deletes only collections it may, settles debts, erases only pending records whose servers are clean, and without faults reaches the specified state |
| Collections.ConvergesForEveryContent | emby_collections/collection_sync.py:416-570 | Fault-free syncs converge, whatever the servers held, exactly when no record is both waiting for deletion and enabled on a server |
| Collections.CanonicalSyncConverges | emby_collections/collection_sync.py:416-570 | With tags as this program writes them a fault-free sync always converges |
| Collections.RevivedEscapes | emby_collections/collection_sync.py:509-530 | A record saved again while waiting for deletion lets a collection with a padded tag survive the sync |
| Collections.OwnedIsKeptExactly | emby_collections/collection_sync.py:491-565 | A fault-free sync keeps the collection of an enabled definition on a selected server exactly when no definition cleared there is the same one or shares its name or sort name |
| Collections.WantedIsKeptExactly | emby_collections/collection_sync.py:491-565 | Fault-free syncs keep such collections, whatever the servers held, exactly when no definition disabled, waiting for deletion or owing on a server clashes in id, name or sort name with one wanted there |
| CollectionRuns.OperationKeepsDebts | emby_collections/collection_sync.py:416-570 | Each save, switch, removal and global sync keeps the debts of the records it leaves, but for confirmed clean-ups that left nothing, and erases a record only when it has targets and all of them were confirmed clean |
| CollectionRuns.DebtPersists | emby_collections/collection_store.py:216-233 | Over every run of these operations, while a server stays configured and whatever else is: once owed or asked for, it is on the list of debts of a record that no longer asks for it, unless an operation took it off, with every call of the clean-up of that record there confirmed and nothing left |
| CollectionRuns.ErasedOnlyWhenClean | emby_collections/collection_store.py:306-364 | Over every run, a record that has disappeared was erased by an operation that knew a server, confirmed every call of its clean-up on every target and left nothing of the definition there |
| CollectionRuns.ErasureLosesDebtExactly | emby_collections/collection_store.py:306-364 | Erasing a record can lose the debt of a server exactly when some server is configured and this one is no target of the erasure |
| CollectionRuns.LeftoverSurvivesExactly | emby_collections/collection_sync.py:463-490 | A fault-free sync leaves a collection of no stored definition exactly when it names none and matches no definition cleared on its server |
| CollectionRuns.ErasedTagIsSwept | emby_collections/collection_sync.py:463-490 | Over every run, a fault-free sync leaves no collection tagged with the id of a record that is gone on a configured server |
| TraktSettings.MergeIsIdempotentExactly | core/config.py:272-348 | Merging merged settings changes nothing except next to a refresh token of blanks, which survives the migration and is stripped after it |
| TraktSettings.MergedFields | core/config.py:272-348 | Merging keeps each key's own value, stripped, drops an access token that has no refresh token, and enables only complete settings that ask for it |
| TraktSettings.MergeKeepsExactly | core/config.py:272-348 | Settings come back from merging as they are exactly when their texts are stripped, no access token stands alone, and they are complete where enabled |
| TraktSettings.PatchKeepsAgreement | core/integrations.py:456-467 | Two dictionaries with one revision agree again after the same token update |
| TraktSettings.PersistedTokens | core/integrations.py:404-441 | After an accepted update the stored settings hold exactly the new tokens and expiry, the client id and the client secret that were stored or else published, are enabled when those are not blank, and have the revision the client computes from its own copy |
| TraktSettings.LoadedClientIsCurrentExactly | core/integrations.py:444-453 | A client built from freshly loaded settings starts in sync, but for the same family |
| TraktClients.NeedsRefresh | core/integrations.py:146-155 | A token is refreshed in its last five minutes; the day-long margin never decides |
| TraktClients.TraktClient.Refresh | core/integrations.py:157-188 | Tokens change only together with the stored settings, which keep client id and secret; a refusal or a failing storage leaves client and configuration as they were, and each error has its exact cause |
| TraktProtocol.StepKeepsInv | core/integrations.py:157-188 | Every step of every client, caller and writer keeps the protocol invariant |
| TraktProtocol.RefreshGoesThrough | core/integrations.py:157-188 | A usable answer is stored key by key and adopted when the stored revision is the one the client knows; otherwise the lock is released and nothing changes |
| TraktProtocol.AcquiredExactly | core/integrations.py:157-172 | The token lock is taken exactly when it is free, there is a refresh token, nobody replaced the expected token, and a refresh is due or forced |
| TraktProtocol.BuiltExactly | core/integrations.py:444-453 | A new client starts with the stripped tokens of its settings and their revision |
| TraktProtocol.OneReplacement | core/integrations.py:166-172 | In every interleaving, callers holding one stale access token make their client adopt at most one other, and every token in use was built in or persisted |
| TraktProtocol.BackedMeansStored | core/integrations.py:180-185 | A token is persisted only by a commit against an unchanged revision, which stores it |
| TraktProtocol.NextRefreshIsAccepted | core/integrations.py:455-467 | After an accepted update the client expects the stored revision, and its next refresh is rejected only if someone else wrote |
| TraktProtocol.LoadingDisturbsNobody | core/config_manager.py:195 | Reloading the configuration after a refresh invalidates no client |
| ApiTokens.NewestIsLimit | core/auth.py:933-945 | A newest-first LIMIT is never exceeded and hides nothing that fits |
| ApiTokens.PruneKeepsUsable | core/auth.py:875-894 | Pruning keeps every token usable now or later, bounds the history, and does nothing below the bound |
| ApiTokens.StepIsBounded | core/auth.py:897-1012 | Create, rotate, revoke, expiry and deletion keep at most 20 usable tokens and 120 rows |
| ApiTokens.EventsAreCalls | core/auth.py:897-1012 | With a clock that does not run backwards every event is its call |
| ApiTokens.TokensStayBounded | core/auth.py:897-1012 | Over every run from an empty table with a clock that does not run backwards the bounds hold, and the listing shows every row |
| ApiTokens.UsableOnlyEndsByName | core/auth.py:875-894 | A usable token disappears only by expiring, by being the one revoked or rotated, or with its owner |
| ApiTokens.DeletedOwnerHasNoTokens | core/auth.py:897-912 | Without its owner an account has no token again, over any run |
| Accounts.StepKeepsAdmin | core/auth.py:637-682 | Every step of a guarded call, an account creation or a password change keeps what the guard read true and an active administrator in place |
| Accounts.UninterruptedIsExact | core/auth.py:637-795 | The steps of one guarded call without anything in between do exactly what it asks for, or nothing when the user is missing or the last administrator, and leave the guard |
| Accounts.AdminRemains | core/auth_admin_invariant.py:16-28 | In every interleaving, once there is an active administrator one remains |
| Accounts.EpochTellsAlways | core/auth.py:583-607 | Over every run of atomic calls the epoch never falls, and equal epochs mean equal effective role, active flag and password hash |
| Accounts.DetailsCommitExactly | core/auth.py:671-682 | A detail update tells its change by the epoch exactly when it changes nothing authorized or no password change came between its read and its write |
| Accounts.WrittenOverChange | core/auth.py:637-682 | Over a row that changed meanwhile, the columns a call writes are those of the row it read, and the password it does not set stays |
| Accounts.DetailsCanRepeatAnEpoch | core/auth.py:637-682 | Such a password change leaves two authorizations under one epoch |
| Accounts.EpochTellsInterleaved | core/auth.py:690-757 | Without detail updates the epoch tells in every interleaving, because the account update locks its row and the guard keeps the other calls out |
| Sorting.SortIsStableSort | emby_latest/batch_processor.py:647 | The newest-first sort orders by date, keeps all elements and is stable |
| Sorting.StableSortIsUnique | emby_latest/batch_processor.py:647 | Order, content and ties leave only one such result |
| TimeGaps.SplitAtGaps | emby_latest/batch_processor.py:576-591 | The grouping loop builds the groups cut at every wide gap |
| TimeGaps.RunIsLongest | emby_latest/batch_processor.py:650-659 | The first group is the longest prefix without a wide gap |
| TimeGaps.GroupsAreTheList | emby_latest/batch_processor.py:743-791 | The groups, one after the other, are the sorted list, none of them empty |
| TimeGaps.GroupsAreComponents | emby_latest/batch_processor.py:561-591 | Two entries are in one group exactly when a walk in steps of at most the gap connects them, and the group each is in is one of the groups |
| LatestBatches.GroupVersionTimes | emby_latest/batch_processor.py:561-591 | Version groups are the gap groups of the sorted versions |
| LatestBatches.GroupItemsByDate | emby_latest/batch_processor.py:743-791 | Item groups are the gap groups of the dated items, or every item alone when none is dated |
| LatestBatches.CollectedExactly | emby_latest/batch_processor.py:630-646 | Collecting takes every item, or every dated item with its date, as often as it is listed; for the longer list an undated one counts as of the least date |
| LatestBatches.ComputeBatch | emby_latest/batch_processor.py:616-661 | The batch is the first of those groups, or every item when none is dated |
| LatestBatches.NoTimeGapMeansOneGroup | emby_latest/batch_processor.py:542-558 | Without a time gap between earliest and latest there is one group |
| LatestBatches.TimeGapExactly | emby_latest/batch_processor.py:542-558 | There is a time gap exactly when some two versions are further apart than the gap |
| LatestBatches.RecentExactly | emby_latest/batch_processor.py:593-613 | The recent versions are exactly those no further than the gap from every other given one |
| LatestBatches.RecentAreInTheFirstGroup | emby_latest/batch_processor.py:593-613 | Every recent version lies inside the first group |
| LatestBatches.EnsureBatchWithUnique | emby_latest/collector_helpers.py:57-117 | The result is the batch if it meets both targets, else the shortest newest-first prefix that does, else everything |
| LatestBatches.AsManyKeysAsAsked | emby_latest/collector_helpers.py:94-117 | Where only different keys are asked for, the longer list has exactly that many of them, or all there are |
| LatestBatches.AsManyAsAsked | emby_latest/collector_helpers.py:94-117 | Where only a number of items is asked for, the longer list has that many, or all |
| LatestBatches.LongerListExtendsBatch | emby_latest/collector_helpers.py:57-117 | A batch that is too small is extended by the next older items, strictly unless there are none |
| LatestBatches.AlwaysExtendsBatchExactly | emby_latest/collector_helpers.py:94-117 | The result always starts with the batch exactly when no item of the batch dated the least date is listed behind an undated one |
| LatestBatches.ReplacedBatch | emby_latest/collector_helpers.py:94-117 | Otherwise the result can be a list without the batch |
| SettingsEnvelope.RoundTrip | core/app_settings_crypto.py:124-205 | Every document without envelopes can be encoded, and decoding gives it back with nothing to rewrite |
| SettingsEnvelope.EncodeIsIdempotent | core/app_settings_crypto.py:169-205 | Encoding an encoded document changes nothing |
| SettingsEnvelope.NothingExposed | core/app_settings_crypto.py:163-205 | After encoding, no path that meets no envelope ends at a non-empty secret |
| SettingsEnvelope.RewriteHasAReason | core/app_settings_crypto.py:124-161 | A rewrite is asked for only with a path to a secret in the clear or to a stale envelope |
| SettingsEnvelope.ReasonMeansRewrite | core/app_settings_crypto.py:124-161 | And whenever there is such a path |
| SettingsEnvelope.RewriteConverges | core/app_settings_crypto.py:124-205 | One decode-then-encode rewrite of any mixture reaches a state that decodes to the same settings, asks for no rewrite and exposes nothing |
| SettingsEnvelope.PlainDocumentIsRead | core/app_settings_crypto.py:130-155 | Reading a document without envelopes gives it back as it is |
| SecretKeys.NormalizedIsItsWords | core/app_settings_crypto.py:44-46 | However a key is spelled, in capitals, in camel case or with any separators between and around its words, it is normalized to the words in lower case with underscores |
| SecretKeys.SensitiveExactly | core/app_settings_crypto.py:49-72 | A key is sensitive exactly when its last word or its last two name a secret, or its words together are one of the compounds, unless it ends in "configured" or is the excluded name |
| SettingsEnvelope.SecretIsEncrypted | core/app_settings_crypto.py:169-195 | Every value of such a key but the four empty ones is encrypted as a whole, and read in the clear asks for a rewrite |
| SettingsEnvelope.TextIsEncryptedExactly | core/app_settings_crypto.py:75-93 | A text is encrypted exactly when its key is such a name, or its last word ends in "url" and it holds credentials, or in "params" and a sensitive parameter is not empty |
| SettingsEnvelope.OpenedExactly | core/app_settings_crypto.py:100-122 | An envelope opens exactly when it has version 1 and a non-empty ciphertext that decrypts, and to that value |
| SettingsEnvelope.DecodeValue | core/app_settings_crypto.py:130-155 | The recursive loops of decode compute the specified document and rewrite flag, and fail when any part does |
| SettingsEnvelope.DecodeDocument | core/app_settings_crypto.py:124-161 | An envelope at the top must hold an object |
| JsonBudget.Validate | core/http_response_limits.py:127-154 | The explicit stack accepts exactly the payloads within node count, depth and string length, counted on the ways from the payload to its nodes, after at most one pop more than the node budget |
| JsonBudget.OneTurn | core/http_response_limits.py:134-154 | One turn of the loop asks the same of what is left |
| JsonBudget.FitsByWays | core/http_response_limits.py:134-153 | The recursive budgets are the number of ways to a node, the length of the longest one and the length of every text at the end of one |
| JsonBudget.WidthChecksAreRedundant | core/http_response_limits.py:146-153 | A container wider than the node budget, anywhere, is over budget anyway: the width checks never change the verdict |
| ProviderUrls.PrintedUrlParses | emby_collections/source_references.py:20-36 | A URL printed from host, path and query is taken apart into them |
| ProviderUrls.OtherHostsRefuse | emby_collections/source_references.py:20-36 | A URL of another provider is refused |
| HostForms.HostAllowedExactly | emby_collections/source_references.py:26-35 | A host is taken in any case and with dots behind it, with no port or one that is the number 443, leading zeros allowed |
| HostForms.CredentialsAreRefused | emby_collections/source_references.py:26-35 | A user name or password in front of the host is refused |
| HostForms.FragmentIsRefused | emby_collections/source_references.py:26-35 | A fragment is refused, an empty one ignored |
| HostForms.OnlyHttps | emby_collections/source_references.py:26-35 | Only the https scheme is accepted, in any case |
| TraktReferences.RefOfIsGood | emby_collections/source_references.py:39-84 | What the Trakt parser accepts is canonical: safe parts, lower-case user, lowered query |
| TraktReferences.QueryReadAgain | emby_collections/source_references.py:39-59 | A printed Trakt query is read as itself, or refused when its sort order holds a combining dot |
| ReferenceForms.TraktForms | emby_collections/source_references.py:62-84 | A Trakt list is read from its name, from user and name, and from the two link paths; the user is lowered, the list is not |
| ReferenceForms.TraktQueries | emby_collections/source_references.py:39-59 | A sort order and the values of sort_by and sort_how are lowered and kept in their order |
| ReferenceForms.TmdbForms | emby_collections/source_references.py:87-99 | A TMDB link with the word of its type in any case, with a slash behind it or not, stands for its number; with a query it is refused |
| ReferenceForms.MdblistLinkExactly | emby_collections/source_references.py:102-120 | An MDBList link on any of the three hosts stands for "external:" and its number for the two external path patterns, for its number for the two list patterns, with "items" behind them or not, and is refused for every other path |
| ReferenceForms.MdblistLinks | emby_collections/source_references.py:102-120 | In particular the external list of a user, in the form that is never printed, and a list by its number |
| ReferenceForms.SlashesDoNotMatter | emby_collections/source_references.py:110-111 | Doubled slashes and one at the end of an MDBList path change nothing |
| ReferenceForms.PrintedLinks | emby_collections/sources.py:15-39 | The printed links, word for word |
| SourceReferences.NormalizeIsIdempotentExactly | emby_collections/source_references.py:123-134 | An accepted reference is accepted again unchanged exactly when it is stable; an MDBList number over 128 digits and a Trakt sort order with a combining dot are refused the second time |
| SourceReferences.LinkRoundTripsExactly | emby_collections/sources.py:15-39 | The printed link leads back to the reference and is detected as its provider exactly for TMDB ids, external and numeric MDBList ids and Trakt lists without that dot |
| SourceReferences.UnstableReferences | emby_collections/source_references.py:102-120 | Neither unstable family is empty: a number of over 128 digits from a URL, and any list with a percent-encoded dotted capital I as its sort order, are accepted, and what they are normalized to is refused |
| OperationTracking.OperationTracker.constructor | core/operations.py:38-62 | A tracker starts accepting, with no heartbeat ids and room for at least one settled record |
| OperationTracking.OperationTracker.Start | core/operations.py:64-106 | A start is refused while not accepting; otherwise a running record with the given id, owner, total and time is stored and its id tracked, and when the sweeper cannot start the id is dropped and the record closed as an error |
| OperationTracking.OperationTracker.Update | core/operations.py:108-150 | An update writes exactly the given fields of this owner's active record with that id, if there is one, stamps it and reports it; no other record changes |
| OperationTracking.OperationTracker.Heartbeat | core/operations.py:152-167 | A heartbeat stamps exactly this owner's active record, otherwise changes nothing but the pruning and says so |
| OperationTracking.OperationTracker.Complete | core/operations.py:324-355 | Completion gives this owner's active record exactly the status, message and error passed in, the present time, and full progress on success; it stays stored while there is room, no other record changes, and the id is untracked whatever was found |
| OperationTracking.OperationTracker.Finish | core/operations.py:169-175 | Finishing closes the record as a success with its message, no error and full progress |
| OperationTracking.OperationTracker.Fail | core/operations.py:177-194 | Failing closes the record as an error with the public message in place of the given one, and the progress it had |
| OperationTracking.OperationTracker.InterruptRecords | core/operations.py:237-322 | The interrupting loops close exactly the selected active records and report exactly their ids and their number |
| OperationTracking.OperationTracker.Interrupt | core/operations.py:237-322 | On the stored registry, one pass of any of the three interrupting calls with the heartbeat ids of closed records dropped |
| OperationTracking.OperationTracker.InterruptOwn | core/operations.py:237-258 | Exactly the active records of this owner become interrupted, with the message or the default for an empty one, and leave the heartbeat set; nothing else changes |
| OperationTracking.OperationTracker.InterruptLost | core/operations.py:260-292 | Exactly the active records whose heartbeat, or last change where there is none, is no later than the cutoff or cannot be read; the cutoff is at least a minute old |
| OperationTracking.OperationTracker.InterruptForeign | core/operations.py:294-322 | Exactly the active records of other owners |
| OperationTracking.OperationTracker.HasStaleActive | core/operations.py:486-505 | The read-only preflight is true exactly when a sweep with the same cutoff would interrupt something |
| OperationTracking.OperationTracker.RenewRecords | core/operations.py:515-534 | The renewing loop stamps exactly the tracked records that are still this owner's and active, and reports exactly the ids that are not |
| OperationTracking.OperationTracker.HeartbeatOwned | core/operations.py:507-541 | A sweep stamps every tracked record that is this owner's and active, changes no other record, and keeps exactly the ids of those |
| OperationTracking.OperationTracker.Initialize | core/operations.py:357-368 | Reopening empties the heartbeat set of a closed tracker, is refused while its heartbeat thread lives, and leaves an open tracker alone |
| OperationTracking.OperationTracker.Shutdown | core/operations.py:370-400 | An uninterrupted shutdown closes admission, interrupts exactly the active records of this owner when asked to and saved, and forgets the heartbeat ids exactly when the thread ended in time |
| OperationTracking.OperationTracker.ClearCompleted | core/operations.py:223-235 | Clearing leaves exactly the active records and counts the others |
| WorkflowSteps.WorkflowManager.UpdateStepStatus | core/tasks.py:2233-2279 | Only the addressed step changes; a missing index changes nothing |
| WorkflowSteps.WorkflowManager.PersistFinalization | core/tasks.py:1055-1091 | The outcome is persisted when one of three attempts succeeds or there is no storage |
| AutoScheduling.AutoScheduler.UpdateKind | core/tasks.py:310-330 | A changed entry forgets the next run and the retry of its kind, an equal one changes nothing |
| AutoScheduling.AutoScheduler.Register | core/tasks.py:554-575 | Registration puts the claim into the run slot of its kind and touches no other kind |
| AutoScheduling.AutoScheduler.Finish | core/tasks.py:594-632 | Only the registered claim is finished, its lease once. A success with unchanged enabled settings clears the retry and sets the next run to the first later one of the schedule; a failure keeps the scheduled time as retry and comes back in a minute; otherwise only the retry is cleared. Other claims change nothing |
| AutoScheduling.AutoScheduler.Lose | core/tasks.py:634-642 | A lost lease finishes the run as a failure of its own entry and time, if it still holds the slot |
| AutoScheduling.AutoScheduler.CopyEntry | core/tasks.py:422-425 | An evaluation copies the settings of an enabled kind and passes over a disabled one |
| AutoScheduling.AutoScheduler.Due | core/tasks.py:426-433 | A missing next run is computed; an occurrence is due from its next run on, and then claims the retried time before the calendar one |
| AutoScheduling.AutoScheduler.Conclude | core/tasks.py:437-457 | A consumed occurrence clears the retry and moves the calendar to the first later run, a refused one keeps its time as retry and comes back in a minute, a started one moves the calendar while its run is registered |
| LatestRefresh.Lifecycle.Reserve | emby_latest/api_handlers.py:31-43 | A reservation succeeds exactly when admission is open, nothing is reserved and no refresh is reported under way; it sets the flag and nothing else |
| LatestRefresh.Lifecycle.StartWorker | emby_latest/api_handlers.py:70-113 | The worker is published exactly when admission is open and the slot free; a start that fails before the thread exists leaves slot and reservation free, one that fails after it keeps both |
| LatestRefresh.Lifecycle.StartAccepting | emby_latest/api_handlers.py:115-122 | Admission reopens only when nothing is running or reserved |
| TraktClients.ConfigStore.Persist | core/integrations.py:404-441 | The compare-and-swap writes exactly when the storage works and the revision is the expected one; then each key of both configurations holds the new token or its own earlier credential |
| ApiTokens.TokenTable.CreateToken | core/auth.py:897-930 | Creation fails exactly without owner or with 20 usable tokens; otherwise an active token with a new id and the given times is added, and only unusable rows with a hundred newer ones are dropped |
| ApiTokens.TokenTable.RevokeToken | core/auth.py:952-977 | Revocation succeeds exactly for an owned usable token, whose row is switched off; the other rows stay but for the same pruning |
| ApiTokens.TokenTable.RotateToken | core/auth.py:980-1012 | Rotation succeeds exactly for an owned usable token: its row is switched off, an active replacement with a new id and the same expiry is in the table, and the other rows stay but for the same pruning |
| Accounts.AccountStore.Apply | core/auth.py:637-795 | A guarded call succeeds exactly when the account exists and, if it takes an active administrator away, another one remains; it writes the role, active flag and password asked for, keeps the others, and counts the epoch up exactly when something authorized changes |
| Accounts.AccountStore.ChangePassword | core/auth.py:583-613 | A password change raises the epoch and keeps every administrator |

## Left out

Assumptions, each a parameter or a premise of the model:

- Hashes and digests are injective, the cipher's decrypt inverts its encrypt, JSON text reads back as what was written, fresh ids are fresh, and a token endpoint returns an access token its client has not seen.
- `update_key_value` is atomic; the coordinator, leases and storage are modelled by the answers they give.
- An Emby server never lists two collections under one id.
- The clock does not run backwards for the token bounds; database reads see committed rows.
- Stored definition fields are the normalized strings the program writes, and definition ids are stripped and not empty.
- Text is ASCII, except for the four letters and the combining dot a percent-encoded sort order can lead to.

Behaviour of the repository the model does not have:

- HTTP clients, routes, request models, WebSockets, images, logging, labels, and message texts other than those the contracts name.
- Database migrations, schema comparison, and everything about storage beyond what a transaction commits.
- `_terminalize_operation_start_failure_locked` rewriting a record of its own owner that is already interrupted is allowed by the fencing theorem, as in the code.
- A workflow worker whose `Thread.start` raises: it is reclaimed and finalized outside the manager lock. Every other way a start can fail is covered.
- The content of workflow steps, progress reports and the persisted stop flag beyond their effect on step statuses.
- Scheduler start and stop threads, waiting times and wake events; an evaluation that raises outside a claim or a start; `AutoSchedulerWorkerPool` appears through the callbacks it makes.
- The source phase of a collection sync (fetching items, creating and filling collections): its result is an arbitrary state of the servers.
- The separate display sort name of a definition; `Collections.OwnedIsKeptExactly` allows any sort name on the server.
- Collection posters, backdrops, seasons, source validation and sync state of a definition; the counters of a sync summary.
- Account e-mail addresses and their duplicate check, interface preferences, audit logs and token verification.
- Trakt calls other than the refresh; retries after a 401 are callers with an expected access token.
- `_is_collection_active`: its MM-DD window is resolved to an end no later than the start, so the seasonal claim does not follow from the code.
- `collect_version_times`, `ensure_batch` and the state merge behind the publication history; the latter rests on a helper whose truncation is not part of this model.
- `connection_url_has_credentials` and `parse_qsl` on settings values are parameters of the envelope model.
- An overflow of dates near the least representable one when the recent threshold is computed.
- The heartbeat thread of a tracker failing to start again after `initialize()`.
- Bracketed hosts are refused outright in the URL model; no provider host has brackets.

Contracts that say less than one might expect:

- OccurrenceProtocol.AttemptsKeepTheirTime: speaks of runs without overlap, as it must (`OccurrenceProtocol.OverlapClaimsAnotherTime`).
- CollectionStore.Store.SetEnabled: promises no clean server after disabling, because the code tries once and leaves the rest to the global sync.
- CollectionRuns.DebtPersists: covers servers that stay configured; a deselected server that is no longer configured is dropped from the selection by the code when other servers are configured.
- WorkflowProtocol.LeasesReleasedOnce: covers every start but those whose worker `Thread.start` raises, as said above.
