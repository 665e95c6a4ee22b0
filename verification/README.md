# AuthProxy: a verified model of its core

AuthProxy connects applications to third-party services on behalf of their users. This project models the parts of it
whose correctness is hardest to see from the code, and proves what they promise.

| area | modules |
|---|---|
| connection setup: the step manifest, its traversal, every operation that moves a connection through it | `SetupFlow`, `SetupRun`, `SetupEffects`, `SetupFaults`, `SetupHistory`, `SetupConnection` |
| notifications and their version-keyed cache under concurrency | `Notifications`, `NotificationListing`, `NotificationCache`, `CacheBypass` |
| probe outcomes, connection health and the pruning of the outcome log | `ProbeLog`, `ProbeTasks`, `ProbeHealth`, `ProbeRecovery`, `ProbeOverlaps`, `ProbeSweeps`, `ProbeConnection` |
| disconnecting all connections of a connector, and archiving it | `Disconnect`, `DisconnectScope`, `DisconnectOutcome`, `DisconnectLiveness`, `DisconnectActivities`, `Archive`, `ArchiveLiveness` |
| migrating a connection between connector versions | `Migration`, `MigrationEffects`, `MigrationPath`, `MigrationCandidate` |
| redaction of secrets when values are serialized | `TagSearch`, `Sanitizer`, `Conversion` |
| metrics: buffered writing, aggregation, paged listing | `BufferedStore`, `Buckets`, `GroupKey`, `Percentile`, `RequestMetrics`, `RecordMeaning`, `ResourceMetrics`, `SampleMeaning`, `Paging` |

Where the code computes a value, the model is a function. Where it changes a row, a candidate or a buffer, the model is
a class whose methods are proved against such a function, and where it loops, a method with that loop. What runs
concurrently is a state machine: a state holds the shared data and where each party is, an action is one step of one
party, and theorems speak of every sequence of enabled actions from the initial state. Answers from outside (connector
JavaScript, the database, Redis, the clock, a callback) are parameters, and the failures of writes are too.

`dafny verify dfyconfig.toml` checks the whole project.

Some properties that a reader might expect are false of the code. Each is given with the exact condition under which it
holds, and where that helps with a concrete run or input:

- a verify run, or any other operation, that loaded the connection before setup was restarted can still end it, with
  nothing verified since the restart (`VerifiesFirstIff`, `CompletingRunIff`, `RestartDuringVerify`);
- a credential callback that arrives when no credential step is current goes past verification (`CallbackSafeIff`,
  `LateCallbackSkipsVerify`), and without a credential phase nothing is verified (`CredentialPhaseIff`);
- a lost cache bump serves a stale list (`LostBumpHarmlessIff`, `LostBumpServesStale`);
- overlapping probe tasks can leave a connection healthy with a failing probe (`AlwaysSoundIff`,
  `StaleCopyLosesFailure`, `LateRecoveryMissesFailure`) or unhealthy after every probe has recovered
  (`SettlesHealthyIff`, `StaleSuccessRecoversNothing`);
- a cleanup sweep that could not resolve a probe can change health (`SweepsNeverMatterIff`, `StreakCut`);
- a successful auth refresh can leave a needed setup step without its notice (`RefreshClassifiedIff`,
  `RefreshDropsSetupNotice`);
- a migration up to the largest 64-bit version finds no path, although every version on it exists (`VersionPath`);
- a record accepted after the flusher's last swap is never stored (`CloseStoresAllIff`, `LateRecordIsLost`);
- label values with NUL can merge two series (`SameSeriesIff`, `NulClashes`, `NulMergesSeries`); the dimensions in use
  today are enumerations, ids and a fixed list of methods, so this is a condition on dimensions added later;
- a listing whose offset leaves 32 bits stops short, with an error over SQLite and PostgreSQL and silently over
  ClickHouse; at the largest limit the former refuse the query, and the latter's page of 2^31 rows panics
  (`PagesCoverIff`, `StrictListingIsWhole`, `WrapLosesARow`, `LargestLimitPanics`).

One comment disagrees with the code, and the model follows the code: internal/core/connection_setup_flow.go:62-65 says
that verify comes first when a connector has probes but no preconnect or auth step, while line 297 takes the verify
branch only when there is such a step. `VerifyReachableIff` and `CredentialPhaseIff` state the consequence.

## Model

| member | source | states |
|---|---|---|
| `SetupFlow.BuildManifestFlow` | internal/core/connection_setup_flow.go:38-80 | The steps up to the authentication boundary are the preconnect steps then the auth method's steps, those after it the configure steps; probes are on exactly when the definition has some. Every step keeps the id and kind the manifest gives it. |
| `SetupFlow.FindNextEligible` | internal/core/connection_setup_flow.go:359-379 | The scan loop over a clamped range returns the first step whose eligibility answer is not "no", and an evaluation error at it ends the scan. |
| `SetupFlow.FindNextStep` | internal/core/connection_setup_flow.go:314-347 | The search loop computes the successor used in every theorem below: the next credential step, then verify if enabled, then the first eligible configure step, and no step for an unknown id. |
| `SetupFlow.ListSteps` | internal/core/connection_setup_flow.go:240-252 | Returns exactly the eligible steps in order, and fails exactly when some eligibility answer is an error. |
| `SetupFlow.NextAdvances` | internal/core/connection_setup_flow.go:281-379 | Whatever the answers, a move from a manifest step lands on a step ContainsStep accepts, at a strictly later position, and passes the verify slot only if verification answered "off". |
| `SetupFlow.FirstAdvances` | internal/core/connection_setup_flow.go:281-312 | The opening move lands on a manifest step and passes the verify slot only if verification answered "off" or there is no credential phase. |
| `SetupFlow.ForwardMovesBounded` | internal/core/connection_setup_flow.go:281-379 | Even when every submit changes eligibility, a sequence of forward moves visits at most steps + 1 ids. |
| `SetupFlow.WalkIsTheList` | internal/core/connection_setup_flow.go:240-379 | With fixed answers FirstStep and then NextStep to the end visits exactly the eligible credential steps, then verify when enabled, then the eligible configure steps. |
| `SetupFlow.VisitsUnique` | internal/core/connection_setup_flow.go:296-347 | A walk determines its list of visited steps, so the list in WalkIsTheList is the only one. |
| `SetupFlow.VerifyReachableIff` | internal/core/connection_setup_flow.go:296-312 | Verify lies on some walk if and only if the connector has probes and a credential phase. |
| `SetupRun.FirstFailing` | internal/core/task_verify_connection.go:100-110 | No probe is reported exactly when every enabled probe passes; a reported probe fails and every probe before it passes. |
| `SetupRun.OffersKnown` | internal/core/connection_setup_flow.go:281-347 | Every step that FirstStep or NextStep offers, from any id and under any answers, is one that ContainsStep accepts. |
| `SetupRun.ReconfigureFollowsVerify` | internal/core/service_connection_reconfigure.go:15-44 | Reconfigure opens exactly the step that a passing verify run would move to. |
| `SetupRun.CompleteIsIdempotent` | internal/core/connection_setup_dispatch.go:74-92 | Completing twice is completing once, and leaves the connection configured with no step. |
| `SetupRun.CancelUndoesReconfigure` | internal/core/service_connection_cancel_setup.go:15-35 | Cancelling a reconfiguration that opened a step, from a connection at rest, gives back exactly that connection. |
| `SetupRun.CancelUndoesReauth` | internal/core/service_connection_cancel_setup.go:15-35 | Cancelling a reauthorization before its credentials arrive gives back the connection, but for a queued verify task. |
| `SetupRun.CancelFrame` | internal/core/service_connection_cancel_setup.go:15-35 | Whatever write fails and whatever copy it works from, cancelling touches step and error only; from the row as stored it succeeds exactly when the connection is then at rest. |
| `SetupRun.OpKeeps` | internal/core/connection_setup_dispatch.go:27-183 | Each of the nine operations, from any loaded copy and with any failing writes, keeps the stored step one that Resume can show and Configured for good. |
| `SetupRun.RetryStartsOver` | internal/core/service_connection_retry.go:15-39 | A retry after a failed authorization stores the step and shows the page that a new connection would, clears the error and keeps state, health and notices. |
| `SetupHistory.RunKeepsKnown` | internal/core/connection_setup_dispatch.go:27-183 | In every run of operations, each split between loading the row and writing, in any order with any failing writes, the stored step is none, a failure step or one ContainsStep accepts, and Configured is never left. |
| `SetupHistory.ResumeAlwaysWorks` | internal/core/connection_setup_dispatch.go:152-183 | A resume that loads the row at any moment of any run, with working answers, never reports a step missing from the manifest, whatever is stored when it writes. |
| `SetupHistory.CredentialExit` | internal/core/connection_setup_flow.go:314-347 | The credential phase is left without verify only when verification answered "off". |
| `SetupHistory.CrossesOnlyCleared` | internal/core/connection_setup_dispatch.go:27-92 | In initial setup an operation takes a row past verification only from a copy that is past it, at the end of a verify task whose probes all passed, or with an off-answer. |
| `SetupHistory.ClaimsIffCrosses` | internal/core/connection.go:151-157 | Writes do not look at the row: whatever is stored, an operation takes an unverified row past verification exactly when its loaded copy makes it do so. |
| `SetupHistory.EventSafeIff` | internal/core/connection_setup_dispatch.go:27-92 | Every event of an initial setup, with any failing writes, keeps the row from claiming Configured or a configure step before it is cleared, except exactly an operation that loaded the row before the last restart and crosses. |
| `SetupHistory.SafeUpToIff` | internal/core/connection_setup_dispatch.go:27-92 | Over whole runs: the row never claims more than is cleared if and only if no such stale operation writes. |
| `SetupHistory.ClearedIffVerified` | internal/core/task_verify_connection.go:74-114 | With probes on throughout, cleared means exactly that since the last restart a verify task loaded the row, passed every enabled probe, and ended. |
| `SetupHistory.VerifiesFirstIff` | internal/core/task_verify_connection.go:74-114 | A run of initial setup with a credential phase, probes on and callbacks at credential steps reaches Configured or a configure step only when verified since the last restart if and only if no operation that loaded the row before that restart takes an unverified setup past verification. |
| `SetupHistory.ConfiguredOnlyAfterVerify` | internal/core/task_verify_connection.go:74-114 | In particular, when every operation ends in the setup it began in, Configured is reached only after a verify task that passed every enabled probe since the last restart. |
| `SetupHistory.CompletingRunIff` | internal/core/task_verify_connection.go:88-113 | When a passing verify task is what completes setup, the setup is verified if and only if no restart was made between its load and its end. |
| `SetupHistory.RestartDuringVerify` | internal/core/task_verify_connection.go:88-113 | A concrete run: a verify task loads the row, authorization fails, setup is retried, and the old task's end configures the connection with nothing verified since the retry. |
| `SetupHistory.CredentialPhaseIff` | internal/core/connection_setup_flow.go:296-312 | For a connector with probes, all runs without a stale operation verify first if and only if there is a credential phase. |
| `SetupHistory.CallbackSafeIff` | internal/core/connection_post_auth.go:22-62 | A credential callback on an unverified connection stays short of verification if and only if a credential step is current. |
| `SetupHistory.LateCallbackSkipsVerify` | internal/core/connection_post_auth.go:36-48 | A concrete run: an authorization error and then a late callback make the connection Configured with no verify task at all. |
| `SetupEffects.ContainsIff` | internal/core/connection_setup_flow.go:281-294 | A flow accepts an id if and only if it is that of one of its steps, or is verify and the connector has probes. |
| `SetupEffects.VerifyOffered` | internal/core/connection_setup_flow.go:254-279 | Looking up the verify step finds it exactly when the connector has probes and one is enabled, and fails exactly when that cannot be told. |
| `SetupEffects.VerifyFollowsCredentials` | internal/core/connection_setup_flow.go:314-347 | After the last credential step that is offered comes verify if a probe is enabled, what a passing verify would go to if none is, and an error if that cannot be told. |
| `SetupEffects.VerifyOpens` | internal/core/connection_setup_flow.go:296-312 | The same for the opening move when no credential step is offered. |
| `SetupEffects.ReauthEffect` | internal/core/service_connection_reauth.go:25-59 | A reauthorization is accepted if and only if the connection is configured and some position between the preconnect steps and the authentication boundary holds a step; then the row changes in exactly the step, the error and, for verify, one queued task. Otherwise nothing changes. |
| `SetupEffects.RetryEffect` | internal/core/service_connection_retry.go:15-39 | A retry is accepted if and only if the connection is at one of the two failure steps, with the same exact new row. |
| `SetupEffects.ReconfigureEffect` | internal/core/service_connection_reconfigure.go:15-44 | Accepted if and only if the connection is configured and a step lies behind the authentication boundary; then the first offered configure step is stored and shown, or without one the connection is complete, and nothing else changes. |
| `SetupEffects.SubmitEffect` | internal/core/service_connection_submit.go:19-59 | A submit of the current form, when it is offered, goes to the next step or completes; it settles the auth notice exactly when the form is a step of the auth method and verify is not next. |
| `SetupEffects.SubmitRefused` | internal/core/service_connection_submit.go:19-59 | Every other submit changes nothing and is answered with an error. |
| `SetupEffects.CallbackEffect` | internal/core/connection_post_auth.go:22-62 | New credentials make the connection healthy and move it on, with the auth notice settled unless verify is next; the exact new row. |
| `SetupEffects.VerifyPassedEffect` | internal/core/connection_verify.go:19-43 | A verify task whose enabled probes all pass makes the connection healthy, settles the auth notice and moves on or completes; the exact new row. |
| `SetupEffects.VerifyFailedEffect` | internal/core/connection_verify.go:48-65 | The first probe that does not pass becomes the error at the failure step, and nothing else changes. |
| `SetupEffects.VerifySkipped` | internal/core/task_verify_connection.go:88-99 | A verify task at any other step does nothing, whatever fails. |
| `SetupEffects.ResumeEffect` | internal/core/connection_setup_dispatch.go:152-183 | What is shown for every current step, and that only a step no longer offered moves the connection on; the exact new row. |
| `SetupEffects.CancelEffect` | internal/core/service_connection_cancel_setup.go:15-35 | Cancelling gives up the step and the error of a configured connection, changes nothing else, and is refused to any other. |
| `SetupFaults.OpHonest` | internal/core/connection_setup_dispatch.go:27-92 | For all nine operations, from any loaded copy and stored row and with any writes failing: a failing write leaves its field alone, and an operation that reports success has the row and reply it would have without failures. |
| `SetupFaults.InitiateHonest` | internal/core/service_connection_initiate.go:96-108 | The same for the end of an initiation. |
| `SetupFaults.NeedlessWritesDoNotFail` | internal/core/connection_setup_dispatch.go:74-92 | No operation fails for a health or state write that its loaded copy shows to be needless. |
| `SetupFaults.FailedCompletionKeepsNotice` | internal/core/service_connection_submit.go:19-59 | A submit whose completion fails leaves the auth notice as it was. |
| `SetupFaults.RenderFailsRedirectsOnly` | internal/core/connection_setup_dispatch.go:27-69 | A failure to render a page alone changes what an operation does if and only if it would show a redirect. |
| `SetupConnection.Connection.Begin` | internal/core/service_connection_initiate.go:96-108 | Configured at once exactly when the flow offers no step and the write works; a stored step is the flow's first; the page shown is the stored step's; the row stays one Resume can show. |
| `SetupConnection.Connection.CompleteFlow` | internal/core/connection_setup_dispatch.go:74-92 | Never touches health, error or tasks; what the loaded copy says is missing is written: Complete means configured, no step and no setup notice, and any other reply leaves the notices alone. |
| `SetupConnection.Connection.AdvanceToStep` | internal/core/connection_setup_dispatch.go:27-69 | A refused redirect changes nothing, a page is shown only for the stored step, and verify is shown exactly when one task was queued; state, health, error and notices are never touched. |
| `SetupConnection.Connection.SubmitForm` | internal/core/service_connection_submit.go:19-59 | A submit for another step than the loaded one changes nothing; otherwise the row is that of the run model, the page shown is the stored step's, and Configured is kept. |
| `SetupConnection.Connection.HandleCredentialsEstablished` | internal/core/connection_post_auth.go:22-62 | Done from an unhealthy copy leaves the row healthy, and a healthy copy leaves health alone; the auth notice is kept exactly when verify is now to decide; the row is that of the run model. |
| `SetupConnection.Connection.HandleAuthFailed` | internal/core/connection_post_auth.go:68-77 | The failure step is never stored without its message; state, health, notices and tasks are never touched. |
| `SetupConnection.Connection.OnVerifyPassed` | internal/core/connection_verify.go:19-43 | With the row as loaded when the run began deciding what is written: the row of the run model, no auth notice left on success, Configured kept. |
| `SetupConnection.Connection.BeginVerify` | internal/core/task_verify_connection.go:88-99 | Loads the row; a run starts exactly when verify is its step and the probes can be read, and with those probes. |
| `SetupConnection.Connection.EndVerify` | internal/core/task_verify_connection.go:100-113 | The probe loop ends at the first failing probe with its id as the error and the failure step; otherwise the run passes; the row is that of the run model. |
| `SetupConnection.Connection.RetrySetup` | internal/core/service_connection_retry.go:15-39 | Nothing happens unless a failure step was loaded; a page shown is that of the flow's first step, with no error left; state, health and notices are never touched. |
| `SetupConnection.Connection.Reauth` | internal/core/service_connection_reauth.go:25-59 | The row and reply of the run model, whose acceptance and new row `ReauthEffect` spells out; nothing happens unless a configured connection was loaded, a page shown is that of the flow's first step with no error left, and state, health and notices are never touched. |
| `SetupConnection.Connection.Reconfigure` | internal/core/service_connection_reconfigure.go:15-44 | The row and reply of the run model, whose acceptance and new row `ReconfigureEffect` spells out; the step opened is the one a passing verify run would move to, and the state never changes. |
| `SetupConnection.Connection.CancelSetup` | internal/core/service_connection_cancel_setup.go:15-35 | Done means that the step and the error it saw are gone, and from the row as stored that the connection is at rest; refused exactly when the copy is not configured; nothing else is touched. |
| `SetupConnection.Connection.Resume` | internal/core/connection_setup_dispatch.go:152-183 | What is shown is what was loaded or is now stored; showing a step that is still offered changes nothing; Configured is kept. |
| `Notifications.PermissionsAllow` | internal/core/service_notifications.go:311-343 | The loop answers yes exactly when one permission grants the notification. |
| `Notifications.BuildList` | internal/core/service_notifications.go:84-103 | The loop builds the rendered list: the viewable notifications in order, with their flags. |
| `Notifications.RenderFaithful` | internal/core/service_notifications.go:84-103 | An entry is listed if and only if its notification was read and may be viewed, with the viewed flag of the second read and the action flag of the permissions. |
| `Notifications.NormalizeIds` | internal/core/service_notifications.go:180-205 | Accepts exactly the non-empty lists of well-formed ids and keeps the first occurrences in order. |
| `Notifications.SelectMatches` | internal/database/notification.go:508-576 | The selection, before the limit, holds exactly the notifications that match the filters, the viewed filter included. |
| `Notifications.MarkThenList` | internal/core/service_notifications.go:116-148 | After marking, a listed marked notification carries the viewed flag, and is listed only if viewed ones are included. |
| `NotificationListing.ListedAt` | internal/database/notification.go:508-576 | The listing holds the rows at strictly increasing positions of the newest-first table, all asked for, as many as there are up to the limit (100 when unset), and none asked for before the last is passed over. |
| `NotificationListing.RenderedAt` | internal/core/service_notifications.go:84-103 | Rendering shows exactly the rows the actor may view, by increasing position. |
| `NotificationListing.ListingAt` | internal/core/service_notifications.go:70-103 | What a caller is shown, by position: of the newest rows asked for exactly those the actor may view, in the same order, with the viewed flag of the second read and the action flag of the permissions. |
| `NotificationListing.AllowIsPermitted` | internal/core/service_notifications.go:311-343 | Permissions allow a notification if and only if one of them names a resource, verb and id, its own or else the notification's, that the actor is granted in the namespace. |
| `NotificationListing.ViewableIff` | internal/core/service_notifications.go:116-148 | A notification can be marked if and only if the first with its id exists and the actor may view it. |
| `NotificationListing.UpsertedAt` | internal/database/notification.go:363-460 | An upsert overwrites the first notification with its key, active and under its old id, or comes first as a new one; every other position and all viewed marks stay. |
| `NotificationListing.ResolvedAt` | internal/database/notification.go:710-744 | Resolving ends, at every position, exactly the notifications of the resource with one of the keys. |
| `Notifications.Service.ListActorNotifications` | internal/core/service_notifications.go:42-68 | On a hit, on a miss and with Redis failing the answer is the database's list, whose rows, order and limit `ListingAt` gives by position; it is refused exactly to an unauthenticated caller and when a needed database read fails; the cache stays coherent and gains at most the entry of this key. |
| `Notifications.Service.Bump` | internal/core/service_notifications.go:302-309 | A successful bump makes the cache coherent with any database change. |
| `Notifications.Service.UpsertNotification` | internal/core/service_notifications.go:150-160 | A failed write changes nothing; otherwise the notification is written as `UpsertedAt` says, and the cache is coherent afterwards if the bump succeeded. |
| `Notifications.Service.ResolveNotifications` | internal/core/service_notifications.go:162-176 | Refuses a missing resource type or id; otherwise resolves exactly the keys given, does nothing for none or on a failed write, and keeps the cache coherent if the bump succeeded. |
| `Notifications.Service.MarkNotificationsViewed` | internal/core/service_notifications.go:116-148 | Succeeds exactly for an authenticated caller, with the database working, when every id is well-formed and viewable; then marks them all, otherwise changes nothing. |
| `NotificationCache.StepKeepsInvariant` | internal/core/service_notifications.go:54-103 | Every step of every reader and writer, and every expiry, keeps: each cached or computed list is the database's list at commits not older than the floor of its version. |
| `NotificationCache.RunKeepsInvariant` | internal/core/service_notifications.go:54-103 | That invariant in every interleaving. |
| `NotificationCache.BumpRaisesFloor` | internal/core/service_notifications.go:302-309 | Once a writer has bumped, its commit is at or below the floor of every version read later. |
| `NotificationCache.BumpedWritesAreSeen` | internal/core/service_notifications.go:54-103 | In every interleaving, a list call that reads the version after a writer's bump returns a list and viewed flags of commits no older than that write, on a hit or a miss. |
| `NotificationCache.LostBumpServesStale` | internal/core/service_notifications.go:302-309 | For every two database states there is a run in which the commit of the second loses its bump and the next reader gets the list of the first. |
| `NotificationCache.LostBumpHarmlessIff` | internal/core/service_notifications.go:302-309 | After a lost bump the readers that start later get the new list, in every such run, if and only if the new list equals the old one. |
| `NotificationCache.LaterBumpMakesUp` | internal/core/service_notifications.go:302-309 | A bump of any commit at or after the lost one makes up for it: readers that start later see commits no older than the lost one. |
| `NotificationCache.ReaderProgresses` | internal/core/service_notifications.go:54-103 | A reader that has not answered can take a step, each of its steps brings the answer nearer, and no step of another party changes where it is. |
| `NotificationCache.ExpiryRemoves` | internal/core/service_notifications.go:54-68 | An expiry removes its own entry and nothing else. |
| `NotificationCache.WriterEnds` | internal/core/service_notifications.go:302-309 | A writer bumps once or loses its bump, and can then do neither again. |
| `CacheBypass.FailedReadSeesDatabase` | internal/core/service_notifications.go:54-68 | In every interleaving a reader whose version or entry read fails answers with the database's list, of commits no older than that moment. |
| `CacheBypass.CacheChangesOnlyBy` | internal/core/service_notifications.go:54-68 | In every interleaving the cache changes only by an expiry, or by a store that worked of a reader that had read a version. |
| `ProbeLog.ConsecutiveStreak` | internal/core/connection_probe_health.go:122-138 | The loop over the newest rows returns the length of the final run of equal outcomes, capped at the limit. |
| `ProbeLog.DeleteOldKeepsNewest` | internal/database/connection_probe_outcome.go:135-192 | The newest rows up to the kept minimum survive a delete, unchanged and in order. |
| `ProbeLog.InsertKeepsAgreement` | internal/database/connection_probe_outcome.go:96-128 | Rows are read by time: a row inserted anywhere in its order leaves a pruned and a full log agreeing on their newest rows. |
| `ProbeLog.SuccessNoLonger` | internal/database/connection_probe_outcome.go:96-128 | A success, wherever its time puts it among the rows, never lengthens a failure streak. |
| `ProbeLog.KeepMinimumIsExact` | internal/core/task_probe_outcome_cleanup.go:158-165 | Keeping that many rows preserves every capped streak of every log if and only if the number is at least the cap. |
| `ProbeTasks.StepRefines` | internal/core/connection_probe_health.go:41-113 | Each single statement of a probe task, on pruned logs, matches the same statement on logs that are never pruned, and a sweep that keeps what the probe needs matches nothing. |
| `ProbeTasks.PrunedRunRefinesUnpruned` | internal/core/task_probe_outcome_cleanup.go:107-165 | For every configuration and every interleaving of overlapping probe tasks, failing statements and sweeps, with sweeps anywhere inside a task, that resolved their probe, or whose probe needs no more rows than the default minimum: health and what every task decides are as if nothing had been deleted. |
| `ProbeHealth.StepKeepsKnowing` | internal/core/connection_probe_health.go:90-110 | A task on its way to a recovery has loaded the connection as unhealthy, and every enabled probe now failing either failed since it read its own streak or is still to be asked. |
| `ProbeHealth.StepIsSoundIff` | internal/core/connection_health_state.go:25-46 | One statement makes a connection healthy with a failing probe that no task speaks for exactly when it ends such a task without a write, writes a recovery over a probe that failed meanwhile, or is another writer's mark. |
| `ProbeHealth.AlwaysSoundIff` | internal/core/task_probe.go:79-120 | Over every run of overlapping tasks, whole: healthy always means that no enabled probe is failing, but for one whose task is about to say so, if and only if no event loses a failure, by a stale copy, a failing statement, a recovery that missed it or another writer's mark. |
| `ProbeHealth.HealthyMeansNoFailingProbe` | internal/core/connection_probe_health.go:41-113 | In every such run without a lost failure, once all tasks are through healthy means that no enabled probe has reached its failure threshold, deleted rows included. |
| `ProbeHealth.OneAtATimeIsSound` | internal/core/task_probe.go:79-120 | Tasks that do not overlap and whose statements work never lose a failure. |
| `ProbeOverlaps.StaleCopyLosesFailure` | internal/core/connection_health_state.go:30-33 | A concrete run: one task recovers the connection; another, which loaded it before, finds its probe failing and writes nothing, because its copy is unhealthy already. |
| `ProbeOverlaps.LateRecoveryMissesFailure` | internal/core/connection_probe_health.go:90-112 | A concrete run: a probe reaches its threshold between another task's look at it and that task's recovery, which ends healthy. |
| `ProbeOverlaps.StaleSuccessRecoversNothing` | internal/core/connection_probe_health.go:78-81 | A concrete run: a success of a task that loaded the connection before it turned unhealthy leaves it unhealthy with every recovery threshold met. |
| `ProbeRecovery.SettlesHealthyIff` | internal/core/connection_probe_health.go:78-113 | With every enabled probe past its recovery threshold, tasks that succeed and overlap in any way end healthy if and only if the connection was healthy, a task on its way had loaded it as unhealthy, or a task began since. |
| `ProbeRecovery.SuccessesRestoreHealth` | internal/core/connection_probe_health.go:78-113 | From any connection at rest, overlapping tasks that all succeed, at least as many of each enabled probe as its recovery threshold, end healthy, whatever is swept meanwhile. |
| `ProbeSweeps.SweepsNeverMatterIff` | internal/core/task_probe_outcome_cleanup.go:107-165 | Arbitrary sweeps, resolved or not and anywhere between the statements of tasks, never change health in any run from a connection at rest if and only if no threshold is above the default minimum. |
| `ProbeSweeps.StreakCut` | internal/core/task_probe_outcome_cleanup.go:138-149 | For every threshold above the default minimum, a run in which a sweep that did not resolve the probe, between the insert and the query, hides the streak that reaches it. |
| `ProbeConnection.CompleteIsRun` | internal/core/connection_probe_health.go:41-113 | Recording an outcome in one go is the run of the task's single statements that nothing interleaves. |
| `ProbeConnection.CheckOthers` | internal/core/connection_probe_health.go:97-110 | The loop answers yes exactly when every other enabled probe could be asked and is below its failure threshold. |
| `ProbeConnection.OthersDecide` | internal/core/connection_probe_health.go:97-112 | The single statements of that loop end with the recovery exactly when the loop says yes. |
| `ProbeConnection.SweepAllPrunes` | internal/core/task_probe_outcome_cleanup.go:107-165 | A sweep prunes each of its probes by that probe's own minimum, and touches no other log, no task and not health. |
| `ProbeConnection.ConnectionHealth.MarkHealthState` | internal/core/connection_health_state.go:25-46 | Compares with the loaded state, not the stored one: succeeds exactly when the loaded state is then the one asked for; writes and counts a transition exactly when it was not and the write works. |
| `ProbeConnection.ConnectionHealth.RecordPeriodicOutcome` | internal/core/connection_probe_health.go:41-73 | The stored rows and health are those of the task's statements run in one go from the loaded copy, whichever statement fails; the copy changes exactly with a write. |
| `ProbeConnection.ConnectionHealth.MaybeRecover` | internal/core/connection_probe_health.go:78-113 | The same from a recorded success on: the loop over probes recovers exactly when the single statements do. |
| `ProbeConnection.ConnectionHealth.Cleanup` | internal/core/task_probe_outcome_cleanup.go:107-136 | Prunes the probes in order and stops where a delete fails. |
| `Disconnect.StepKeepsInvariant` | internal/core/workflow_disconnect_connector_connections.go:55-146 | Every step of the parent, a child workflow or an activity, started over by the engine or not, keeps: pending, finished and failed ids partition the listed ids, and a finished child's connection is gone. |
| `Disconnect.RunKeepsInvariant` | internal/core/workflow_disconnect_connector_connections.go:55-146 | That invariant on every schedule. |
| `Disconnect.ChildStepKeeps` | internal/core/workflow_disconnect_connection.go:38-111 | Every step of a child workflow, its timeout and forced end included, keeps that invariant: a child has succeeded only with its row disconnected and deleted. |
| `Disconnect.NilReturnMeansAllGone` | internal/core/workflow_disconnect_connector_connections.go:55-146 | On every schedule of timer, child success, child failure and retried activities, a nil return means that every listed connection is disconnected and deleted. |
| `Disconnect.ParentMakesProgress` | internal/core/workflow_disconnect_connector_connections.go:101-146 | Every parent step lowers a measure of pending children, phases and retries left; child steps leave it. |
| `Disconnect.ParentStepsBounded` | internal/core/workflow_disconnect_connector_connections.go:101-146 | On every schedule the parent takes at most as many steps as were remaining. |
| `Disconnect.ParentNeverStuck` | internal/core/workflow_disconnect_connector_connections.go:101-146 | Before the parent returns it can take a step, or it waits only for children each of which its cancellation would let it collect. |
| `DisconnectScope.OthersNeverTouched` | internal/core/workflow_disconnect_connector_connections.go:157-227 | In every state of every run, the rows of other connectors, of connections deleted before and of those disconnected before are as they were at the start. |
| `DisconnectScope.NilReturnReachesAll` | internal/core/workflow_disconnect_connector_connections.go:55-146 | After a nil return every connection that at the start was of the connector, live and not disconnected is disconnected and deleted. |
| `DisconnectOutcome.ReturnsErrorIff` | internal/core/workflow_disconnect_connector_connections.go:55-146 | The workflow has returned an error if and only if the listing or the final force activity failed a write and was not started over. |
| `DisconnectOutcome.ListingMarks` | internal/core/workflow_disconnect_connector_connections.go:157-194 | A listing marks exactly its first rows up to the failing write; once complete, the parent waits for the children, or is done when there are none. |
| `DisconnectOutcome.ChildStepShrinks` | internal/core/workflow_disconnect_connection.go:38-111 | Every step of a child but an activity started over lowers a measure of what it has left to do. |
| `DisconnectOutcome.ChildCanAlwaysGoOn` | internal/core/workflow_disconnect_connection.go:38-111 | In every state of every run a child that has not ended can go on with its own work. |
| `DisconnectOutcome.ChildFailsOnlyIf` | internal/core/workflow_disconnect_connection.go:38-111 | On every schedule a child has failed only when its revocation or one of its statements failed or it was cancelled: a timeout alone does not fail it. |
| `DisconnectOutcome.FailedForGood` | internal/core/workflow_disconnect_connection.go:38-81 | A failed revocation, or a cancellation, ends the child in failure for the rest of the run. |
| `DisconnectOutcome.ForcedOnlyAfterTimer` | internal/core/workflow_disconnect_connection.go:83-111 | A child is forced out only after its timer. |
| `DisconnectOutcome.OnlyFailedAreForced` | internal/core/workflow_disconnect_connector_connections.go:101-146 | On every schedule, until the parent's timer fires only connections whose child has failed are left for the parent to force. |
| `DisconnectOutcome.FailedStatement` | internal/core/workflow_disconnect_connection.go:235-281 | A statement that fails, or does not find the row to finalize, fails its activity and writes nothing. |
| `DisconnectLiveness.ChildStaysPossible` | internal/core/workflow_disconnect_connection.go:38-111 | At every moment of every run a child that has not failed can still succeed by its own steps, after any failed statement, and without its timer while its row is live. |
| `DisconnectLiveness.NilPossibleIff` | internal/core/workflow_disconnect_connector_connections.go:55-146 | At every moment of every run a nil return is still possible if and only if no error has been returned. |
| `DisconnectActivities.ForceAllGone` | internal/core/workflow_disconnect_connector_connections.go:198-227 | Forcing leaves every given connection disconnected and deleted and touches no other row. |
| `DisconnectActivities.ConnectionStore.ListConnections` | internal/core/workflow_disconnect_connector_connections.go:157-194 | Returns in table order, and marks, exactly the live connections of the connector that are not disconnected; the rows of other connectors, deleted ones and disconnected ones stay as they were; a failing write leaves exactly the earlier marks. |
| `DisconnectActivities.ConnectionStore.ForceRemaining` | internal/core/workflow_disconnect_connector_connections.go:198-227 | Succeeds exactly when no id is malformed and no write fails; all connections before the first failure are forced, and the failing one exactly as far as its writes got. |
| `DisconnectActivities.ConnectionStore.FinalizeOne` | internal/core/workflow_disconnect_connection.go:235-264 | Succeeds exactly for a live row with both writes working, and then the row is gone; otherwise exactly the writes before the failure remain. |
| `DisconnectActivities.AwaitChildren` | internal/core/workflow_disconnect_connector_connections.go:101-134 | The select loop: pending shrinks to nothing unless the timer fires, and exactly the collected children that failed are to be forced, each once. |
| `Archive.StepKeepsInvariant` | internal/core/workflow_archive_connector.go:50-82 | Every step of the archive workflow, composed with every step of the disconnect workflow it waits for, keeps the archive invariant. |
| `Archive.NoVersionInUseAfterPrepare` | internal/core/workflow_archive_connector.go:94-137 | From the end of prepare to the end of the run, whether it then succeeds or fails, no version is draft or primary. |
| `Archive.ArchivedOnlyWhenGone` | internal/core/workflow_archive_connector.go:141-179 | A version that began active or primary is archived only once every connection of the connector that was live and not disconnected at the start is gone. |
| `Archive.NilReturnArchivesAll` | internal/core/workflow_archive_connector.go:50-82 | A nil return leaves every version archived, of which there is at least one, and every connection of the connector that was live and not disconnected at the start gone. |
| `Archive.PrepareIsExact` | internal/core/workflow_archive_connector.go:94-137 | Until every connection is gone drafts are archived, primaries are active, and all other versions are as at the start. |
| `Archive.PrepareComesFirst` | internal/core/workflow_archive_connector.go:50-82 | In every run no connection is touched before every version is out of use. |
| `Archive.FailsIff` | internal/core/workflow_archive_connector.go:50-82 | The workflow has failed if and only if there was no version, a needed write was given up, or disconnect-all returned an error. |
| `Archive.MakesProgress` | internal/core/workflow_archive_connector.go:50-82 | Every step of its own but an activity started over brings the end nearer, and the steps of disconnect-all leave that distance. |
| `Archive.NeverStuck` | internal/core/workflow_archive_connector.go:50-82 | Until it is done the workflow can take a step of its own, or waits for disconnect-all. |
| `ArchiveLiveness.NilPossibleIff` | internal/core/workflow_archive_connector.go:50-82 | At every moment of every run the workflow can still end without error if and only if there is a version, it has not failed and disconnect-all has not returned an error. |
| `ArchiveLiveness.ChildrenOutlive` | internal/core/workflow_archive_connector.go:50-82 | Whatever has become of the archive workflow, at every moment of every run the children of disconnect-all and their activities can go on, and change only its part of the state. |
| `Archive.VersionStore.Prepare` | internal/core/workflow_archive_connector.go:94-137 | Archives drafts and demotes the primary; fails exactly for no versions or a failing needed write, and then exactly the versions before it are done. |
| `Archive.VersionStore.Finalize` | internal/core/workflow_archive_connector.go:141-179 | Archives every version; fails exactly for no versions or a failing needed write, and then exactly the versions before it are done. |
| `Migration.BuiltInKeysApart` | internal/core/connection_notifications.go:10-12 | Connector notice keys, the auth key and the setup key of a connection never coincide. |
| `Migration.RemoveInPlace` | internal/core/workflow_migrate_connection_version_hooks.go:256-264 | The in-place compaction leaves in the returned prefix exactly the other strings, in order. |
| `Migration.RemoveRemoves` | internal/core/workflow_migrate_connection_version_hooks.go:256-264 | Removal keeps exactly the other strings and no duplicates appear. |
| `Migration.OpsKeepSlot` | internal/core/workflow_migrate_connection_version_analysis.go:333-345 | Through any sequence of notice sets, unsets and refresh results there is at most one queued notice and the bookkeeping keys agree with it. |
| `Migration.KeysToResolveExact` | internal/core/workflow_migrate_connection_version_types.go:75-86 | The keys to resolve have no duplicates, never include the queued notice, and are exactly the unset keys and the built-in keys not queued. |
| `Migration.BuiltInActiveIffQueued` | internal/core/workflow_migrate_connection_version_activity.go:119-135 | After resolve and then upsert, a built-in notice is active if and only if it is the queued one, whatever was active before. |
| `Migration.PatchConnectorOnly` | internal/core/workflow_migrate_connection_version_hooks.go:89-146 | A valid hook patch changes config, labels, annotations and connector notices only. |
| `Migration.HooksConnectorOnly` | internal/core/workflow_migrate_connection_version_hooks.go:19-62 | No sequence of hooks changes health or the setup step or queues a built-in notice. |
| `Migration.BuiltCandidateClassified` | internal/core/workflow_migrate_connection_version_candidate.go:66-117 | For every hook sequence and target the built candidate's notice is auth_required exactly when it is unhealthy, setup_required exactly when it is healthy with a setup step, and otherwise none or a connector notice. |
| `Migration.RefreshClassifiedIff` | internal/core/workflow_migrate_connection_version_analysis.go:239-250 | After a successful auth refresh the classification still holds if and only if no setup step was waiting behind an unhealthy candidate. |
| `Migration.RefreshDropsSetupNotice` | internal/core/workflow_migrate_connection_version_analysis.go:239-250 | A build that ends unhealthy with a setup step, after which a successful refresh leaves the step without its notice. |
| `Migration.AnalyzeSettlesAll` | internal/core/workflow_migrate_connection_version_analysis.go:78-119 | The whole analysis overwrites no config entry and no setup step; afterwards every preconnect and configure field of the target is a source field, has a value, is optional without a default, or has flagged the candidate. |
| `Migration.AddedValueIsFirstDefault` | internal/core/workflow_migrate_connection_version_analysis.go:126-198 | The value of a new config entry is the default of the first field of that name that has one. |
| `Migration.AnalysisSettlesFields` | internal/core/workflow_migrate_connection_version_analysis.go:126-198 | The same of one phase, which moreover leaves the other phase's flag alone. |
| `Migration.AddedEntriesAreDefaults` | internal/core/workflow_migrate_connection_version_analysis.go:126-198 | A config entry is new if and only if an analysed non-source field with that name has a default. |
| `Migration.SetupStepIsFirstMissing` | internal/core/workflow_migrate_connection_version_analysis.go:126-198 | An empty setup step becomes that of the first missing configure field, and stays empty exactly when none is missing. |
| `MigrationEffects.PatchedContent` | internal/core/workflow_migrate_connection_version_hooks.go:89-130 | After an accepted patch, for every key of config, labels and annotations: an unset one is gone even if also set, a set one has its new value, every other its old one; connection, health and step stay. |
| `MigrationEffects.RefusedIff` | internal/core/workflow_migrate_connection_version_hooks.go:89-209 | A patch is refused if and only if a label or annotation key, a label value, a notice's key, title, message or level, or an empty unset key is bad; config is never checked. |
| `MigrationEffects.SetDefsQueuesWinner` | internal/core/workflow_migrate_connection_version_hooks.go:131-209 | Of the notices a hook sets on a candidate with none queued, the first of the weightiest is queued, with its own key and title. |
| `MigrationEffects.UnsetDefsDrops` | internal/core/workflow_migrate_connection_version_hooks.go:211-226 | A queued notice survives a hook's unsets if and only if they do not name it, and exactly what they name is added to what is to be resolved. |
| `MigrationEffects.PatchedNotices` | internal/core/workflow_migrate_connection_version_hooks.go:131-146 | A whole patch on a candidate with none queued: the winner of its notices is queued unless the patch also unsets it. |
| `MigrationEffects.SetWithdrawsOwnKey` | internal/core/workflow_migrate_connection_version_analysis.go:333-345 | Queueing a notice withdraws its own key from those to resolve, and no other. |
| `MigrationEffects.RefreshFailedQueuesAuth` | internal/core/workflow_migrate_connection_version_activity.go:83-102 | A refresh that fails leaves the candidate unhealthy with the auth notice queued, and changes no content or step. |
| `MigrationEffects.KeyForms` | internal/core/connection_notifications.go:10-12 | The three notice keys, spelled out. |
| `MigrationEffects.ConnectionsApart` | internal/core/connection_notifications.go:10-12 | Notices of different connections never share a key, for ids without a colon. |
| `MigrationEffects.ConfigureFailsIff` | internal/core/workflow_migrate_connection_version_analysis.go:126-198 | The analysis of configure fields fails if and only if no step was set and the first missing field belongs to none. |
| `MigrationPath.DownIsUpReversed` | internal/core/workflow_migrate_connection_version_candidate.go:122-149 | The down path from b to a is the up path from a to b reversed. |
| `MigrationPath.VersionPath` | internal/core/workflow_migrate_connection_version_candidate.go:122-149 | The loops end for all 64-bit versions and return exactly that path if and only if every version on it exists and a way up does not go to the largest version, past which the counter wraps to the version 0 that is never stored. |
| `MigrationPath.HooksActOnContent` | internal/core/workflow_migrate_connection_version_hooks.go:19-62 | Queued notices never change what the hooks do to config, labels and annotations nor whether they succeed. |
| `MigrationPath.UpThenDownRestores` | internal/core/workflow_migrate_connection_version_candidate.go:90-100 | If each version's down hook undoes its up hook, migrating up and then down succeeds and restores config, user labels and annotations. |
| `MigrationCandidate.PutEntries` | internal/core/workflow_migrate_connection_version_hooks.go:94-123 | Setting entries one at a time in any order merges the maps, and fails exactly when a key or value is refused. |
| `MigrationCandidate.RemoveEntries` | internal/core/workflow_migrate_connection_version_hooks.go:97-130 | Removes exactly the given keys, and fails exactly when one is refused. |
| `MigrationCandidate.CandidateObject.SetNotification` | internal/core/workflow_migrate_connection_version_analysis.go:333-345 | A notice of higher rank replaces the queued one and its key and is no longer to be unset; any other changes nothing. |
| `MigrationCandidate.CandidateObject.UnsetNotification` | internal/core/workflow_migrate_connection_version_hooks.go:211-226 | Records the key as unset, once, and drops the queued notice if it has that key. |
| `MigrationCandidate.CandidateObject.RefreshSucceeded` | internal/core/workflow_migrate_connection_version_analysis.go:239-250 | Marks healthy and drops the queued auth notice. |
| `MigrationCandidate.CandidateObject.NotificationKeysToResolve` | internal/core/workflow_migrate_connection_version_types.go:75-86 | Builds the keys whose properties KeysToResolveExact states. |
| `MigrationCandidate.CandidateObject.ApplyHookPatch` | internal/core/workflow_migrate_connection_version_hooks.go:89-146 | Applies a valid patch to content and notices, entry by entry as `PatchedContent` and `PatchedNotices` say, and fails exactly for one that `RefusedIff` describes. |
| `MigrationCandidate.CandidateObject.AnalyzeSetupFields` | internal/core/workflow_migrate_connection_version_analysis.go:126-198 | The loop over target fields updates the candidate as the analysis whose properties are proved, and fails exactly when it does. |
| `TagSearch.Visited.HasRedactionTag` | internal/apserde/api.go:448-505 | The search with its shared visited set computes the search function below, and terminates on cyclic heaps. |
| `TagSearch.SearchSound` | internal/apserde/api.go:448-505 | A positive answer comes with a path to an annotated field. |
| `TagSearch.SearchComplete` | internal/apserde/api.go:448-505 | A negative answer leaves the value and every cell entered without a tag in reach. |
| `TagSearch.SearchIffReachable` | internal/apserde/api.go:448-516 | On every finite heap, shared and cyclic pointers included, the answer is yes if and only if an annotated field is reachable. |
| `Sanitizer.MaskIsFaithful` | internal/apserde/api.go:214-254 | Masking keeps the shape, stars every text and reports redaction exactly when something non-empty was hidden. |
| `Sanitizer.MaskedIsPlaceholder` | internal/apserde/api.go:322-344 | A masked value is recognised as a placeholder if and only if masking hid something. |
| `Sanitizer.MarkedIsPlain` | internal/apserde/api.go:386-416 | Taking the seals off the marked conversion gives plain conversion, so marks change nothing else. |
| `Conversion.ListConverts` | internal/apserde/api.go:130-138 | A list becomes the list of its elements, in order, in the plain and in the reference tree. |
| `Conversion.DictConverts` | internal/apserde/api.go:139-158 | A map becomes an object with its keys, in order. |
| `Conversion.StructConverts` | internal/apserde/api.go:160-200 | A struct becomes an object of exactly the fields that are exported, not ignored and not omitted as empty, by increasing position and under their names; in the reference tree a field is sealed exactly when it is annotated. |
| `Conversion.HeldConverts` | internal/apserde/api.go:99-129 | Pointers, interfaces and wrappers convert to what they hold; text, numbers and nil to themselves. |
| `Conversion.PartsSearched` | internal/apserde/api.go:448-516 | The search for annotations stops at an exported annotated field and otherwise goes through exported fields, elements, map values, interfaces, wrappers and pointers, and nothing else. |
| `Sanitizer.FastPathFaithful` | internal/apserde/api.go:88-97 | Without a reachable tag plain conversion already is the sanitized value. |
| `Sanitizer.SanitizeFaithful` | internal/apserde/api.go:99-200 | Sanitizing equals plain conversion with masking at exactly the annotated positions, and Redacted is set exactly when some masked value was non-empty. |
| `Sanitizer.SanitizeForApi` | internal/apserde/api.go:88-97 | With replay permission the plain value and no report; otherwise the faithful sanitized value and report. What the plain value of a list, map or struct is, part by part, is in `Conversion`. |
| `Sanitizer.SanitizeTaggedValue` | internal/apserde/api.go:99-158 | The recursive conversion with the shared report equals the pure one, and only ever turns the report on. |
| `Sanitizer.SanitizeNode` | internal/apserde/api.go:130-200 | The loop over fields, elements or entries outputs them in order, masked where annotated. |
| `BufferedStore.RunKeepsInvariant` | internal/app_metrics/buffered_store.go:37-82 | In every interleaving accepted records equal stored, in flight, buffered, in order; and while the flusher lives a full buffer has a token, a flush about to run or a writer about to signal. |
| `BufferedStore.InternalStretchBounded` | internal/app_metrics/buffered_store.go:37-82 | A stretch of steps without new records, ticks or closes is no longer than what was pending at its start. |
| `BufferedStore.QuietMeansFlushed` | internal/app_metrics/buffered_store.go:37-82 | When such steps have run out and the flusher lives, the buffer is below the batch size, with no help from the ticker. |
| `BufferedStore.BatchesUp` | internal/app_metrics/buffered_store.go:37-82 | In every interleaving nothing is handed on until a batch is full, the ticker fires or the store is closed. |
| `BufferedStore.CloseStoresAllIff` | internal/app_metrics/buffered_store.go:47-66 | Once the flusher has exited, every accepted record is stored if and only if none came after its last swap. |
| `BufferedStore.CloseThenNoAppend` | internal/app_metrics/buffered_store.go:47-66 | A caller that appends nothing once the store is closed finds everything stored when the flusher has exited. |
| `BufferedStore.ExitHadLastSwap` | internal/app_metrics/buffered_store.go:47-50 | The flusher exits only through the flush that close asked for. |
| `BufferedStore.WakingStoresAll` | internal/app_metrics/buffered_store.go:37-66 | Whatever wakes the flusher, the ticker, the channel or a close: once it waits again, or is gone, every record accepted before is stored, in order. |
| `BufferedStore.StillStoredIff` | internal/app_metrics/buffered_store.go:37-66 | At every moment of every run what has been accepted can still be stored, with the ticker as the only help, if and only if the last swap is still to come or has left nothing behind. |
| `BufferedStore.LateRecordIsLost` | internal/app_metrics/buffered_store.go:47-82 | A concrete run in which a record accepted after the exit is never stored. |
| `BufferedStore.Writer.StoreRecord` | internal/app_metrics/buffered_store.go:68-82 | Appends the record and leaves a token exactly when there was one or the batch size is reached. |
| `BufferedStore.Writer.StoreRecords` | internal/app_metrics/buffered_store.go:84-92 | The loop appends all records in order. |
| `BufferedStore.Writer.Flush` | internal/app_metrics/buffered_store.go:54-66 | Hands on exactly what was buffered, behind what was handed on before, and leaves the buffer empty. |
| `Buckets.InRangeIsPlaced` | internal/app_metrics/request_event_metrics.go:181-202 | A time is put in a bucket if and only if it lies in the range: the index guard never drops one. |
| `Buckets.ExactlyOneBucket` | internal/app_metrics/request_event_metrics.go:199-202 | The computed bucket is the only one that covers the time. |
| `Buckets.BucketsFillTheRange` | internal/app_metrics/request_event_metrics.go:181-184 | Every bucket starts inside the range and the last reaches its end. |
| `GroupKey.SortKeys` | internal/app_metrics/request_event_metrics.go:263-267 | Whatever order a map yields its keys in, sorting gives the same sequence. |
| `GroupKey.GroupKeyOf` | internal/app_metrics/request_event_metrics.go:259-274 | The loop writes the key, the same for every iteration order. |
| `GroupKey.KeyRoundTrip` | internal/app_metrics/request_event_metrics.go:259-274 | A key can be read back into its label map when no value holds NUL and no name holds an equals sign. |
| `GroupKey.KeysGroupExactly` | internal/app_metrics/resource_metrics.go:431-446 | For such labels two keys are equal if and only if the label maps are. |
| `GroupKey.OneLabelGroupsExactly` | internal/app_metrics/resource_metrics.go:431-446 | With a single label the key groups exactly for all values. |
| `GroupKey.NulClashes` | internal/app_metrics/resource_metrics.go:431-446 | For every set of two or more label names there are two different maps over it with the same key. |
| `Percentile.NearestRankIsLeast` | internal/app_metrics/request_event_metrics.go:276-290 | The result is a value, at least the given percentage of values do not exceed it, and no smaller number has that property. |
| `RequestMetrics.RecordLabels` | internal/app_metrics/request_event_metrics.go:236-257 | The loop gives one label per requested dimension, with the record's value of it. |
| `RequestMetrics.AccumulatedMeans` | internal/app_metrics/request_event_metrics.go:122-152 | An accumulator's value is the count, the error count, the mean or the 95th percentile of the records added to it. |
| `RequestMetrics.Aggregate` | internal/app_metrics/request_event_metrics.go:186-210 | After the loop each series row holds, per bucket, exactly the records of that key and bucket. |
| `RequestMetrics.BuildSeries` | internal/app_metrics/request_event_metrics.go:180-234 | One series per key in key order, with one point per bucket whose value is that of the records of the cell. |
| `RequestMetrics.CountsConserved` | internal/app_metrics/request_event_metrics.go:180-234 | All points of all series add up to the number of records, or failed records, in the time range. |
| `RequestMetrics.SameSeriesIff` | internal/app_metrics/request_event_metrics.go:203-209 | With NUL-free values or a single dimension, two records share a series if and only if their labels are equal. |
| `RequestMetrics.SeriesLabelsExact` | internal/app_metrics/request_event_metrics.go:203-209 | A series then carries the labels of every record in it. |
| `RequestMetrics.NulMergesSeries` | internal/app_metrics/request_event_metrics.go:259-274 | Two records whose labels differ but whose series is the same, because a value holds NUL. |
| `RecordMeaning.LabelsCarry` | internal/app_metrics/request_event_metrics.go:236-257 | Each label of a record carries the field its name says, with upstream for an empty source and the decimal status code. |
| `RecordMeaning.DigitsRoundTrip` | internal/app_metrics/request_event_metrics.go:236-257 | The digits of a status code stand for it. |
| `RecordMeaning.ErrorsAreCounted` | internal/app_metrics/request_event_metrics.go:122-152 | The error count is the number of records with a status of at least 400, an error in the response, a timeout or a cancellation. |
| `RecordMeaning.PointsSay` | internal/app_metrics/request_event_metrics.go:180-234 | Every series has one point per step of the range, at the step's start, with the metric's value of exactly the records of that step that carry its labels, in order. |
| `RecordMeaning.EveryRecordHasSeries` | internal/app_metrics/request_event_metrics.go:203-234 | Every record in the range is in a series with its labels. |
| `RecordMeaning.NoRecords` | internal/app_metrics/request_event_metrics.go:186-234 | Without records there is one series when nothing is grouped, and none otherwise. |
| `ResourceMetrics.Aggregate` | internal/app_metrics/resource_metrics.go:286-312 | After the loop each bucket of each series holds exactly the ids sampled there. |
| `ResourceMetrics.BuildSeries` | internal/app_metrics/resource_metrics.go:274-336 | One series per key in key order, with one point per bucket that counts its ids. |
| `ResourceMetrics.IdsAreSampled` | internal/app_metrics/resource_metrics.go:295-312 | A cell holds an id if and only if some sample of the cell has it. |
| `ResourceMetrics.SamePoints` | internal/app_metrics/resource_metrics.go:320-328 | Points are the same for any two sample lists with the same samples, whatever their order and repeats. |
| `ResourceMetrics.OrderAndRepeatsDoNotMatter` | internal/app_metrics/resource_metrics.go:274-336 | With NUL-free label values the whole answer, labels included, is unchanged by reordering or repeating samples. |
| `SampleMeaning.PointsCountResources` | internal/app_metrics/resource_metrics.go:274-336 | Every series has one point per step of the range, at the step's start, that counts the different resources sampled in it with the series' labels. |
| `SampleMeaning.EverySampleHasSeries` | internal/app_metrics/resource_metrics.go:286-336 | Every sample in the range is in a series that carries its labels. |
| `SampleMeaning.NoSamples` | internal/app_metrics/resource_metrics.go:286-336 | Without samples there is one series when nothing is grouped, and none otherwise. |
| `Paging.AsksForOneMoreIff` | internal/app_metrics/provider_sql.go:562-566 | The page query asks for limit + 1 rows if and only if the limit is below the largest 32-bit one; at that limit it asks for 2^64 - 2^31. |
| `Paging.RefusesIff` | internal/app_metrics/provider_sql.go:562-567 | A database that takes signed 64-bit numbers only refuses the query if and only if the limit is the largest or the offset has wrapped. |
| `Paging.PageRows` | internal/app_metrics/provider_sql.go:562-567 | Below the largest limit a page has more behind it exactly when more than the limit is left, and its rows are then the next ones; a wrapped offset is refused by a strict database and an empty page elsewhere. |
| `Paging.LargestLimitPage` | internal/app_metrics/provider_sql.go:714-734 | At the largest limit a strict database refuses the query; elsewhere there is one page: all that is left when that is below 2^31 rows, else a cut or a panic. |
| `Paging.PageStep` | internal/app_metrics/provider_sql.go:714-721 | The offset after a page with more behind it has moved by the limit, or has wrapped below zero. |
| `Paging.PagesCoverIff` | internal/app_metrics/provider_sql.go:664-735 | For every limit and either kind of database the listing comes to its end with exactly the rows from the start, each once and in order, if and only if the last page's offset fits in 32 bits and, at the largest limit, the database is not strict and fewer than 2^31 rows are left. |
| `Paging.StrictListingIsWhole` | internal/app_metrics/provider_sql.go:684-735 | Over a strict database a listing that comes to its end is whole, and every other one ends with an error. |
| `Paging.SmallListingIsWhole` | internal/app_metrics/provider_sql.go:664-735 | Fewer than 2^31 rows are listed whole at every limit, but for the largest over a strict database. |
| `Paging.WrapLosesARow` | internal/app_metrics/provider_sql.go:719-721 | 2^31 + 1 rows in pages of 2^30 are not listed whole: the listing ends with an error over a strict database and silently elsewhere. |
| `Paging.LargestLimitPanics` | internal/app_metrics/provider_sql.go:730-734 | 2^31 rows at the largest limit over a database that takes it: cutting the page panics. |
| `Paging.PagesAreFull` | internal/app_metrics/provider_sql.go:730-734 | Every page but the last has exactly the limit, and the last no more. |
| `Paging.ListRequests.FetchPage` | internal/app_metrics/provider_sql.go:684-735 | Returns the page at the offset and moves it on; a failed or refused query leaves the offset, and the cursor holds the new offset exactly when there is more. |
| `Paging.ListRequests.Enumerate` | internal/app_metrics/provider_sql.go:737-753 | Terminates; the pages handed over are a prefix of the listing, cut short only by the callback or a failure, and all of it otherwise; a listing that ends in an error or a panic is never reported as finished. |
| `Paging.FollowCursors` | internal/app_metrics/provider_sql.go:664-735 | A client that sends each cursor to a new request sees exactly the pages of one enumeration, each but the last with the limit given, or 100 for none, and an error exactly when it does. |

## Left out

- `SetupHistory.VerifiesFirstIff`: an operation is split between loading the row and its writes; the writes themselves, although they may be several, are one event. Callbacks are taken to arrive at credential steps, which `CallbackSafeIff` shows is needed.
- `SetupConnection.Connection.EndVerify`: the stored setup error is the failing probe's id, not the full message, and the revocation of credentials after a failure is not modelled.
- `SetupFlow.WalkIsTheList`: step ids are taken to be unique and different from the reserved ones, as definition validation demands.
- `NotificationCache.BumpedWritesAreSeen`: the version key is taken never to be reset or evicted, and the hashes in cache keys to be injective.
- `Notifications.SelectMatches`: of the listing's filters, namespace and label selectors are left out, and the states filter is active-only; they only narrow the match.
- `ProbeTasks.PrunedRunRefinesUnpruned`: sweeps here resolved their probe, or its thresholds are within the default minimum; what other sweeps do is the subject of `ProbeSweeps.SweepsNeverMatterIff`. Tasks are of configured probes with fixed thresholds, and rows with equal times keep their insertion order.
- `ProbeHealth.AlwaysSoundIff`: speaks of probes that are enabled whenever a task asks; other writers of the health state, such as a token refresh, are events that set it, without the copies they load.
- `Disconnect.NilReturnMeansAllGone`: no other writer touches the rows of the listed connections while the workflow runs; the reserve subtracted from a child's timeout is not modelled, any child may time out at any moment.
- `Migration.BuiltCandidateClassified`: speaks of the candidate before the auth refresh; `RefreshClassifiedIff` says what a refresh keeps.
- `MigrationPath.UpThenDownRestores`: a hook is a pure function of config, labels and annotations.
- `MigrationCandidate.CandidateObject.ApplyHookPatch`: after an error the partly changed candidate is not described, because it is abandoned.
- `Sanitizer.SanitizeFaithful`: values have no pointer cycle, since plain conversion has no result on one; only the search is proved on cyclic heaps.
- `Paging.PagesCoverIff`: the rows are fixed and no more than 2^63; whether the database takes numbers of 2^63 and more is a parameter.
- `Paging.ListRequests.Enumerate`: the answers of the database and the callback are a sequence with a round per page and one more.
- `RequestMetrics.BuildSeries`: the range is one the validators accept (start before end, positive step); time is exact integers, so float rounding of the bucket count above 2^53 ns and saturation of durations are not modelled.
- `RequestMetrics.AccumulatedMeans`: averages are exact reals and percentiles exact ratios, without float rounding.
- `ResourceMetrics.BuildSeries`: the six sample kinds are one, with the dimensions it offers as a map; group-by is a set, as repeats of a dimension write the same label.
- `BufferedStore.Writer.StoreRecord`: the object's methods are stated for one call at a time; the interleavings are in the state machine of the same module.
- `BufferedStore.RunKeepsInvariant`: errors of the inner store are ignored by the code, so handing a batch over counts as storing it.
- The order of database writes in applyMigrateConnectionVersionV1, applyAuthMigrationAnalysis, targetProbeIDs and shouldRunMigrationProbes: easy members.
- In the serializer: embedded structs, custom marshalers, the YAML format, byte slices, maps and slices that contain themselves, and the field walk of ValidateNoRedactedPlaceholders.
- Query validation and the loops over several queries of the two metrics services, and the list filters: easy members.
- SQL, ClickHouse, Redis, S3 and the workflow engine: maps, logs and arbitrary outcomes stand for them.
- JavaScript and mustache evaluation, JSON Schema validation and encryption: arbitrary answers or failures.
- internal/core/service_migration.go, the connector caches, the Redis mutex, rate limits, key and namespace services, routes, CLI, telemetry and load tests.
