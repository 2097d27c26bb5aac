# Verification of the deploy console's protocols

A Dafny model of the parts of the system where correctness depends on more than one function or
on more than one process, with proofs of what those parts are for. `dafny verify dfyconfig.toml`
checks everything.

**Approval, deploy-record and project-lock protocol.** `Tables` holds the two tables as maps and
every SQL statement that writes them as one atomic function; a unique index is the check an insert
or a claim makes. The services (`DeployRun`, `Recovery`, `DeployService`, `ApprovalService`) are
methods that commit those statements to a `Store.Database` object. Two transition systems use the
same statements:

- `StatementTier` and `TicketHistory`: each statement is a step of its own, any number of threads and
  instances, any interleaving. Here hold the project lock, the status edges, absorbing ends, one-shot
  claims and four eyes.
- `CrashTier`: a claim of a ticket with its log is one step, a finish may be cut in two by a crash,
  and for ok and failed runs any other step may come between the log write and the ticket write.
  Recovery runs at any time at which live runners are not stale. `Heartbeats` shows in real time, with
  whole-second stamps, when that holds. Two windows lie outside, before a log is claimed and after it
  has ended; the lemmas at the end of `CrashTier` say what a sweep does in each from any reachable
  state, and `RecoveryRace` reaches both by single statements. `CrashRefinement` proves that every run
  of this tier is a run of single statements, so what the first tier proves holds here too.

**TTL lock** (`DistributedLock`): reading the clock, reading the row and writing it are separate steps.

**Live log** (`SshLog`, `Lines`, `SseStream`, `SseClient`): remote output, cleaned and batched, framed
as server-sent events, cut into chunks anywhere, parsed in the page and shown.

**Glue identity cache** (`GlueIdentity`), **alert timing** (`AlertService`), **image registry mirror**
(`RegistrySync`), **replay rollback** (`Rollback`), **cancel signals** (`CancelRegistry`): state
machines over whole histories.

## What the proofs found

Each point names the theorem that says exactly when it happens.

- Recovery between the log write and the ticket write agrees with the executing thread on an ok or
  failed run exactly if the run did not raise (`ApprovalService.RunAndSweepAgreeIff`). A notification that
  raises after an ok log makes the ticket `failed` with deploy id 0, and a cluster deployer that raises
  loses the id of its failed log (`ApprovalService.RaisingHidesLog`).
- For partial and terminated runs the sweep hands the ticket back while its thread is alive. If the
  ticket is then executed again, the first thread's late write leaves a running log whose ticket has
  ended. From every reachable state this happens exactly for these two outcomes and a free project
  (`CrashTier.WindowTearsIff`), and a run of single statements from the empty store reaches it
  (`RecoveryRace.LateWriteTearsIff`). The sweep is also run by the scheduler loop every 30 seconds
  (backend/services/approval_service.py:769-788).
- A sweep between the claim of a ticket and the claim of its log hands the ticket back too. A second
  thread that claims it, and comes to its log after the first, is always refused as busy. Its hand-back
  leaves a running log whose ticket is approved exactly if the first thread got its log; the reset then
  puts that log back and frees the project while the first thread executes
  (`CrashTier.EarlySweepTearsIff`; from the empty store `RecoveryRace.EarlySweepFreesLock`).
- The four-eyes check lets two blank names pass (`TicketHistory.BlankNamesPass`), and nothing else
  (`TicketHistory.FourEyes`).
- The padded stamps order correctly exactly up to 13 digits (`Text.PaddedOrder`,
  `Text.PaddedOrderBreaksAtFourteenDigits`).
- ERROR frames are printed without escaping line feeds, so exactly a one-line error arrives whole
  (`SseStream.ErrorFrame`).
- A log batch that is a single dot, or begins with `ERROR:`, `END:` or `PENDING:`, is taken for a
  command by the page (`SseClient.LogSurvivesIff`).
- A line cut by the end of a read is logged as two. For any text a read that ends at a line feed leaves
  no trace (`SshLog.ReadAtFeedIsInvisible`); for text without escapes the exact condition is
  `SshLog.ReadBoundaryIsInvisibleIff`.
- With a cooldown above a day a rule's own history does not decide whether it alerts again: an alert
  of any other key sweeps the record after a day (`AlertService.ImmediateAlertIff` for all runs,
  `AlertService.LongCooldownDependsOnOthers` for the two cases side by side). Up to a day it does
  (`AlertService.ImmediateAlertWithinADay`).
- An alert rule whose required duration is more than 1440 minutes never alerts
  (`AlertService.BeyondADayNeverAlerts`, `AlertService.SteadyExcessAlertsIff`).
- An entity that has recovered keeps its alert clock exactly as long as no check finds its server
  without any entity over the threshold (`AlertService.RecoveredEntityKeepsClockIff`), and alerts at its
  next excess (`AlertService.RecoveredEntityAlerts`).
- The comment on page collection says that no page is dropped silently. Pages answered by a 404 are:
  the list is whole exactly if none is missing and there are at most 50
  (`RegistrySync.MissingPagesAreDropped`), and the sync deletes exactly the rows whose tag stands on no
  answered page (`RegistrySync.MissingPagesAreDeleted`).
- When a tag is pushed again under a new digest, the row of the old digest stays
  (`RegistrySync.SyncMirrors`).

## Model

| member | source | states |
|---|---|---|
| `Text.PaddedRoundTrip` | backend/deploy_run.py:26-28 | A stamp printed as 13 zero-padded digits reads back as the number, at any size |
| `Text.PaddedOrder` | backend/deploy_run.py:517-537 | Below 10^13, text order of padded stamps is numeric order; a threshold below zero sorts under every stamp |
| `Text.PaddedOrderBreaksAtFourteenDigits` | backend/deploy_run.py:26-28 | Every power of ten from 10^13 on, printed so, sorts under a smaller number: the 13-digit bound is exact |
| `Text.StripCuts` | backend/services/approval_service.py:329-332 | Trimming cuts blanks off both ends and nothing else, and leaves none at an end |
| `Tables.Newest` | backend/deploy_run.py:375-407 | A query with ORDER BY id DESC LIMIT 1 returns the largest matching id, and none only if no row matches |
| `Tables.NewestLog` | backend/deploy_run.py:375-407 | The row found is the newest log of the ticket in the status asked for; none is found only if there is no such row |
| `Statements.RefusedIffRunning` | backend/database.py:838-839 | Under the lock discipline the unique index refuses an insert exactly when the project has a running log |
| `StatementTier.StepKeeps` | backend/deploy_run.py:275-537 | Each statement of the services, issued by anyone at any time, keeps ids fresh, rows locked by their project exactly while they run, one running log a project, every row present, and moves logs and tickets along documented edges only |
| `StatementTier.ProjectLock` | backend/deploy_run.py:275-537 | On every run: lock_key is set exactly while a log runs and is its project, and no project has two running logs |
| `StatementTier.OutsideStatements` | backend/deploy_run.py:471-509 | The statements issued from outside an execution, row by row: a cancel, a finish without an id, and the clearing of a schedule |
| `StatementTier.FinalStep` | backend/deploy_run.py:434-485 | A final log is overwritten by no statement but a terminated finish of that very log |
| `StatementTier.FinishedForGood` | backend/deploy_run.py:434-485 | On every continuation a finished log never waits or runs again; a later finish changes it only to terminated, and that exactly if such a finish came |
| `TicketHistory.ClaimAccounting` | backend/services/approval_service.py:516-550 | With any number of claimants: claims won minus hand-backs is 0 or 1; 1 while the ticket is out, deployed or failed, 0 while it can be claimed, waits or is rejected |
| `TicketHistory.SpentForGood` | backend/services/approval_service.py:193-203 | deployed, failed, rejected and cancelled are absorbing on every continuation of every run |
| `TicketHistory.OnlyClaimsDeploy` | backend/services/approval_service.py:516-550 | A ticket becomes deploying exactly by a claim whose UPDATE hits the row |
| `TicketHistory.StatusStep` | backend/services/approval_service.py:193-203 | What any one statement can do to the status of any one ticket |
| `TicketHistory.ThreadsHoldApproved` | backend/services/approval_service.py:516-550 | Whatever a thread executes was approved at an earlier moment of the run |
| `TicketHistory.RunningWasApproved` | backend/services/approval_service.py:516-569 | No log of a ticket ever runs unless that ticket reached approved before |
| `TicketHistory.AfterApproval` | backend/services/approval_service.py:341-414 | Once approved, a ticket is never pending or rejected again |
| `TicketHistory.DeployingWasApproved` | backend/services/approval_service.py:516-550 | A ticket that is deploying, deployed or failed was approved before |
| `TicketHistory.PendingToApproved` | backend/services/approval_service.py:341-369 | Only an approve by a user who passed the self-approval check takes a ticket from pending to approved, and it stores that user |
| `TicketHistory.ApproverStays` | backend/services/approval_service.py:341-391 | The approver is never rewritten once the decision is made |
| `TicketHistory.StoredApproverApproved` | backend/services/approval_service.py:341-369 | The stored approver of a ticket that was pending and got approved is somebody who approved it |
| `TicketHistory.FourEyes` | backend/services/approval_service.py:329-369 | From approval on, the stored approver approved the ticket, and equals the requester after trimming exactly if both are blank |
| `TicketHistory.BlankNamesPass` | backend/services/approval_service.py:329-338 | A concrete run in which a requester with a blank name approves their own ticket |
| `CancelRegistry.DeployRunManager.Register` | backend/deploy_run.py:103-118 | Keeps a set event (the cancel came first), clears or creates an unset one; touches no other id |
| `CancelRegistry.DeployRunManager.Cancel` | backend/deploy_run.py:120-128 | The event exists and is set afterwards, whatever was there |
| `CancelRegistry.DeployRunManager.Unregister` | backend/deploy_run.py:135-137 | The event is gone, the others stay |
| `CancelRegistry.DeployRunManager.CancelAll` | backend/deploy_run.py:144-148 | Every present event is set by the loop, no id is added or dropped |
| `CancelRegistry.PresenceIsReplay` | backend/deploy_run.py:96-148 | An id is present exactly if it was registered or cancelled and not unregistered since |
| `CancelRegistry.CancelsAreNeverLost` | backend/deploy_run.py:96-148 | Over any sequence of operations an id reads as cancelled exactly if a cancel reached it since its last unregister, cancel-before-register and cancel-all included |
| `DeployRun.BusyIffLocked` | backend/deploy_run.py:488-495 | A project is busy exactly when the unique index would refuse it |
| `DeployRun.StartDeployRecord` | backend/deploy_run.py:275-327 | Fails exactly if the project has a running log, and then changes nothing; otherwise adds exactly the running row, with every column stated, and returns its id |
| `DeployRun.CreatePendingDeployRecord` | backend/deploy_run.py:330-372 | Adds exactly a waiting row of this request and ticket, without lock, runner and stamp, and returns its id |
| `DeployRun.ClaimPendingDeployRecord` | backend/deploy_run.py:375-407 | Claims the newest waiting log of the ticket, writing exactly status, lock, project, runner and stamp; 0 exactly if there is no ticket or no waiting log; fails exactly if there is one but the project is busy |
| `DeployRun.ResetPendingDeployRecord` | backend/deploy_run.py:410-419 | Row by row: exactly the running logs of the ticket wait again without a lock, all else stays |
| `DeployRun.MarkApprovalLogTerminal` | backend/deploy_run.py:422-431 | Row by row: for rejected and cancelled exactly the waiting logs of the ticket end in that status; any other status writes nothing |
| `DeployRun.FinishDeployRecord` | backend/deploy_run.py:434-485 | Row by row: by id only that log ends, and only if it runs or the status is terminated; without id every running log of the project, or of all if none is named |
| `DeployRun.MarkDeployCancelled` | backend/deploy_run.py:498-509 | The signal is set first; success exactly if the row was running, which is then terminated and unlocked, and nothing else changes |
| `DeployRun.IsCancelRequested` | backend/deploy_run.py:251-269 | True exactly if the local signal is set or the row has left running |
| `DeployRun.HeartbeatRound` | backend/deploy_run.py:178-189 | Stamps exactly this instance's own running rows among its active ids |
| `DeployRun.RecoverStaleRunning` | backend/deploy_run.py:517-537 | Row by row: interrupts exactly the running logs without a runner or a recent stamp, and returns how many; 0 exactly if nothing changed |
| `Recovery.RecoverOnStartup` | backend/services/approval_service.py:590-639 | The five UPDATEs in order; each log, told from its old row: dead or interrupted logs of a ticket wait again unlocked, other dead logs are interrupted, the rest is unchanged; the result counts the dead ones |
| `Recovery.SweepOfLogs` | backend/services/approval_service.py:601-630 | The same of every store: what a sweep makes of each log, and that it adds and removes no row |
| `Recovery.SweepCleans` | backend/services/approval_service.py:590-630 | From any state whatever: no stale running log, no deploying ticket without a running log or with an ok or failed one, no interrupted log of a ticket |
| `Recovery.CleanIsFixed` | backend/services/approval_service.py:590-630 | On a swept store a sweep at the same instant changes nothing, timestamps included |
| `Recovery.SweepIsIdempotent` | backend/services/approval_service.py:590-630 | Sweeping twice at one instant is sweeping once |
| `Recovery.SweepOutcome` | backend/services/approval_service.py:601-625 | What a deploying ticket becomes: it takes the outcome and id of its newest ok log, else of its newest failed log, else it stays while a live log runs, else it is approved; its other columns stay |
| `Recovery.SweepSparesOthers` | backend/services/approval_service.py:601-625 | The sweep writes no ticket that is not deploying |
| `CrashTier.Safety` | backend/services/approval_service.py:516-639 | On every run with crashes, recoveries and re-executions: a running log of a ticket means the ticket is deploying; at most one running log a ticket; every live executor still owns its running log; at most one ok or failed log a ticket, and then nothing of it runs |
| `CrashTier.StepKeepsInv` | backend/services/approval_service.py:516-639 | Each step of the crash tier keeps that invariant |
| `CrashTier.OutcomeForGood` | backend/services/approval_service.py:569-624 | Once a ticket has an ok or failed log, on every continuation the log keeps its outcome and stays the only one, the ticket never returns to approved, and nothing of it runs again |
| `CrashTier.OutcomeStep` | backend/deploy_run.py:434-485 | No step rewrites an ok or failed log |
| `CrashTier.SweepAndThreadAgree` | backend/services/approval_service.py:569-616 | A sweep between the two writes and the thread itself write the same status and deploy id, in either order, exactly if the run did not raise after its log was written |
| `CrashTier.SweepTakesUnsettledTicket` | backend/services/approval_service.py:617-624 | With nothing of it running, a sweep hands a deploying ticket back exactly if it has no ok or failed log |
| `CrashTier.SweptLogIsClaimed` | backend/services/approval_service.py:626-630 | From every store: an execution after a sweep claims the newest log of the ticket that waited, was interrupted or whose run died, and starts a new one only if there is none |
| `CrashTier.CrashedRunIsRepeated` | backend/services/approval_service.py:617-630 | A deploying ticket whose one log lost its runner is approved after the sweep, and executing it runs that very log again wherever the project is free |
| `CrashTier.WindowTearsIff` | backend/services/approval_service.py:569-624 | From every reachable state: a log write, a sweep, a second execution and the late ticket write leave a running log whose ticket is not deploying exactly if the outcome was partial or terminated and the project was free |
| `RecoveryRace.LateWriteTearsIff` | backend/services/approval_service.py:553-630 | The same window as a run of single statements from the empty store, for every outcome the first thread may write: torn exactly for partial and terminated |
| `CrashTier.EarlySweepTearsIff` | backend/services/approval_service.py:560-624 | From every reachable state: a sweep before the log claim hands the ticket to a second thread, which is refused as busy; its hand-back leaves a running log whose ticket is approved exactly if the project was free for the first thread, and its reset then frees the project under that thread |
| `RecoveryRace.EarlySweepFreesLock` | backend/services/approval_service.py:546-624 | The same window as a run of single statements from the empty store: a log that runs with its ticket approved, then a free project while both threads are live |
| `CrashRefinement.StepIsScript` | backend/services/approval_service.py:516-639 | Each step of the crash tier equals the statements it stands for, run one after the other |
| `CrashRefinement.RunIsScript` | backend/services/approval_service.py:516-639 | Every run of the crash tier whose decisions passed the four-eyes check is a run of single statements from the empty store and reaches the same tables |
| `DeployService.ClaimOrStartRecord` | backend/services/deploy_service.py:229-248 | Refused exactly if the project is busy; otherwise the newest waiting log of the ticket, or a new one, runs |
| `DeployService.RunTargets` | backend/services/deploy_service.py:258-314 | One result per target that ran its course, in order, up to the first that is cancelled or breaks |
| `DeployService.CountOks` | backend/services/deploy_service.py:318-325 | The count is the length exactly if every result is ok, zero exactly if none is |
| `DeployService.VerdictEnds` | backend/services/deploy_service.py:258-325 | The verdict on a list of targets is the one status told from their runs: terminated if a target whose turn came was cancelled or saw a cancel, else failed if one broke, else ok if all returned success, failed if none did, partial otherwise |
| `DeployService.RunClaimed` | backend/services/deploy_service.py:258-405 | On every way out, also when the notification raises, the log ends with the status those targets mean: terminated, failed, ok or partial, each exactly when `DeployService.VerdictEnds` says |
| `DeployService.Execute` | backend/services/deploy_service.py:122-408 | Refused exactly before anything is claimed; otherwise on every exit the claimed log has ended with the status its targets mean, its lock is free and its cancel event gone; success exactly if every target succeeded |
| `DeployService.RunCluster` | backend/services/k8s_deploy_service.py:163-216 | The single call: terminated exactly if cancelled from inside or outside, else ok exactly if it returned success, failed if it returned failure or raised |
| `DeployService.DeployK8sCore` | backend/services/k8s_deploy_service.py:96-219 | The same ends and the same release guarantees around the single call, and the reply is what the call did |
| `ApprovalService.MayDecideIff` | backend/services/approval_service.py:285-338 | Who may approve or reject, in full: an existing ticket of somebody else, and a super admin by role or wildcard, a holder of the approval permission, a named approver or the named role |
| `ApprovalService.ApproveTicket` | backend/services/approval_service.py:341-369 | Refuses in the order not found, self-approval, permission; otherwise a pending ticket becomes approved by this user, nothing else changes, and any other ticket is left as it is |
| `ApprovalService.RejectTicket` | backend/services/approval_service.py:372-391 | Likewise: the pending ticket is rejected by this user and exactly its waiting logs end as rejected |
| `ApprovalService.CancelTicket` | backend/services/approval_service.py:394-414 | Only the requester or a super admin, only before execution; exactly the ticket's waiting logs end as cancelled and its approver stays |
| `ApprovalService.GateDeploy` | backend/services/approval_service.py:420-473 | None exactly without rule and schedule; otherwise exactly a new ticket with its schedule, pending under a rule and approved without, and one waiting log of it are added; no other row changes |
| `ApprovalService.ClaimForExecution` | backend/services/approval_service.py:516-550 | Succeeds exactly on an approved ticket of this user who is still permitted, and moves it to deploying; otherwise changes nothing, and the error names the first check that failed |
| `ApprovalService.ExecuteSsh` | backend/services/deploy_executor.py:127-152 | The result of a deploy over SSH: ok exactly if every target succeeded and nothing raised, the log id exactly if nothing raised, busy exactly on a lock conflict; the claimed log ends with the verdict and is released |
| `ApprovalService.ExecuteK8s` | backend/services/deploy_executor.py:155-188 | The same for a cluster deploy: ok exactly if the deployer succeeded and the notification did not raise |
| `ApprovalService.ExecuteFromParams` | backend/services/deploy_executor.py:106-124 | No exception leaves it; without a claimed log nothing changed; an ok or failed log is reported as such with its id exactly if the run did not raise, and as failed with id 0 otherwise |
| `ApprovalService.RunApproval` | backend/services/approval_service.py:553-587 | The ticket ends as the result says, keeping its other columns: ok deployed, failed failed, cancelled cancelled, busy approved with the claim undone; ok exactly if the ticket was claimed, the project free and the run went well; after an ok or failed log the ticket has that outcome and the log id exactly if the run did not raise |
| `ApprovalService.RunAndSweepAgreeIff` | backend/services/approval_service.py:569-616 | For every run that ends ok or failed: recovery and run_approval write the same ticket in either order exactly if the run did not raise |
| `ApprovalService.RaisingHidesLog` | backend/services/deploy_executor.py:117-124 | A run with an ok log is reported as failed with id 0 exactly if its notification raises, and as ok with its id otherwise; a cluster deployer that raises is reported with id 0 although its log is failed |
| `ApprovalService.RaisingPlans` | backend/services/deploy_executor.py:117-124 | Both cases occur in the simplest runs |
| `ApprovalService.SettleAfterRaise` | backend/routers/approvals.py:219-227 | If run_approval raises, the ticket is no longer deploying, none of its logs runs, and no project becomes busy |
| `ApprovalService.RunDueScheduled` | backend/services/approval_service.py:715-766 | A pass returns exactly the number of tickets it took from approved to deployed, leaves none claimed, touches none that was not due, and keeps the schedule of a ticket that lost a race or met a busy project |
| `ApprovalService.RunOneDue` | backend/services/approval_service.py:733-765 | One due ticket is deployed exactly if it is still approved, its requester still permitted, the project free and the run goes well; without permission exactly its schedule is cleared; no other ticket changes |
| `Heartbeats.StaleInRealTime` | backend/deploy_run.py:517-537 | Within 120 real seconds of its stamp a log is never stale, from 121 on always, despite whole-second stamps |
| `Heartbeats.StepKeeps` | backend/deploy_run.py:163-189 | Starts, claims, beats, sweeps, ends, deaths and waiting keep every live log stamped within the gap |
| `Heartbeats.RunnersAre` | backend/deploy_run.py:163-189 | Which runs live after each step and since when: starts and claims begin one, a beat renews all of its instance, ends and deaths take one out |
| `Heartbeats.SweepKeeps` | backend/deploy_run.py:517-537 | A sweep leaves every live log exactly as it is |
| `Heartbeats.LiveLogsAreSpared` | backend/deploy_run.py:163-189 | On every run whose live runners stamp at gaps of at most 120 real seconds, cancels by other instances included: every live log runs, or is terminated if it was cancelled, and no sweep touches it |
| `Heartbeats.DeadRunIsSwept` | backend/deploy_run.py:517-537 | A run whose last stamp is 121 real seconds old is interrupted and unlocked by the next sweep |
| `DistributedLock.ReadBack` | backend/dlock.py:20-51 | What acquire writes is what the next acquire parses: owner and stamp |
| `DistributedLock.StaleIffExpired` | backend/dlock.py:33-45 | A well-formed value is stale exactly when its age has reached the TTL |
| `DistributedLock.EncodeIsInjective` | backend/dlock.py:24-30 | Two acquisitions with the same stored value are the same instance and stamp |
| `DistributedLock.ConfigTable.Acquire` | backend/dlock.py:20-51 | Without interference: succeeds exactly if the lock is free, its own, expired or malformed, and then stores owner and stamp |
| `DistributedLock.ConfigTable.Release` | backend/dlock.py:54-61 | Deletes the row exactly if it is this instance's |
| `DistributedLock.StepKeeps` | backend/dlock.py:20-61 | Each separate read or write keeps: an unexpired acquisition is the stored row |
| `DistributedLock.MutualExclusion` | backend/dlock.py:20-61 | From any stored row, under any interleaving: an unexpired, unreleased acquisition is the stored row, and two instances never hold one at once |
| `DistributedLock.UndisturbedAttempt` | backend/dlock.py:20-51 | An attempt nobody interferes with takes the lock exactly if there is no row or it is its own, malformed or expired, and holds it from the moment the clock was read |
| `DistributedLock.MalformedIsStale` | backend/dlock.py:33-45 | A stored value without a stamp of digits after its first bar is free to take |
| `DistributedLock.ReleaseDeletesOwn` | backend/dlock.py:54-61 | A release deletes the row exactly if its owner is the releasing instance |
| `Lines.JoinOfSplit` | frontend/src/composables/useSseStream.js:35-42 | Joining the split lines of a text gives the text |
| `Lines.SplitOfJoin` | frontend/src/composables/useSseStream.js:35-42 | Splitting joined lines gives the lines, when none contains a line feed |
| `SseStream.EventsAre` | backend/routers/approvals.py:234-246 | Event by event: the queued message or a dot after 30 silent seconds, numbered among the messages so far on the approval route |
| `SseStream.NumberedStream` | backend/routers/approvals.py:234-248 | The loop of the approval route prints exactly the numbered events of what the queue yields |
| `SseStream.PlainStream` | backend/routers/deploy.py:303-314 | The loop of the deploy route prints exactly the unnumbered events |
| `SseStream.ChunkingIsInvisible` | frontend/src/composables/useSseStream.js:25-33 | Wherever the text is cut into chunks, the block loop finds the same blocks and the same rest |
| `SseStream.BlocksOfConcat` | frontend/src/composables/useSseStream.js:30-33 | Blocks already complete do not depend on what follows |
| `SseStream.ParseBlock` | frontend/src/composables/useSseStream.js:35-42 | The data of a block is its data lines joined by line feeds |
| `SseStream.SafeIsPrefixedLines` | backend/routers/deploy.py:309-311 | Escaping a message is prefixing each of its lines |
| `SseStream.BlocksOfStream` | backend/routers/deploy.py:303-314 | The stream has one block per event, in order, and no rest |
| `SseStream.DataOfBody` | frontend/src/composables/useSseStream.js:35-42 | The data of an event is its message, whatever id and retry lines precede it |
| `SseStream.RoundTrip` | frontend/src/composables/useSseStream.js:25-42 | Any events, line feeds and empty messages included, cut anywhere: the client recovers exactly the messages, in order, with nothing left in the buffer |
| `SseStream.ServedHeadersArePlain` | backend/routers/approvals.py:234-248 | The id and retry lines the routes print are never taken for data |
| `SseStream.ErrorFrame` | backend/routers/approvals.py:253-254 | On this route, with its retry line, and on the deploy route (backend/routers/deploy.py:321), without one, the error arrives whole exactly if it has no line feed |
| `SseClient.Reader.HandleData` | frontend/src/composables/useSseStream.js:43-71 | One event: error, end, pending, keep-alive, status and log text as dispatched in the page |
| `SseClient.Reader.Receive` | frontend/src/composables/useSseStream.js:28-72 | One chunk: the page consumes its complete blocks until one decides; otherwise the rest waits in the buffer |
| `SseClient.Reader.Read` | frontend/src/composables/useSseStream.js:25-73 | The whole connection equals consuming the data of all its blocks |
| `SseClient.PendingDecides` | frontend/src/composables/useSseStream.js:54-64 | A PENDING frame ends the stream with its id, as scheduled exactly if the flag is 1, with or without further fields |
| `SseClient.ErrorAndEndDecide` | frontend/src/composables/useSseStream.js:45-53 | An ERROR frame shows its text after a mark and fails; an END frame shows nothing and is a success exactly if its first field is true |
| `SseClient.StatusAndTextShow` | frontend/src/composables/useSseStream.js:62-70 | A STATUS frame shows its rendered payload, any other text shows as it is, each on a line of its own |
| `SseClient.KeepAlivesAreInvisible` | backend/routers/deploy.py:312-314 | Keep-alives leave no trace on the page, wherever they fall |
| `SseClient.LiveLog` | frontend/src/composables/useSseStream.js:45-71 | The page shows what the queued messages say, however the stream is cut; without command-like messages it is the initial text, each message and the verdict of the END frame |
| `SseClient.LogSurvivesIff` | frontend/src/composables/useSseStream.js:45-71 | A log reaches the page line for line exactly if no message is empty, a dot, or starts with ERROR:, END: or PENDING: (STATUS: messages set aside) |
| `SshLog.PlainTextStays` | backend/deployers/base.py:396-407 | Text without escape characters is untouched |
| `SshLog.EscapeVanishes` | backend/deployers/base.py:396-407 | An escape sequence after plain text vanishes, and what follows is cleaned on |
| `SshLog.LoneEscapeStays` | backend/deployers/base.py:396-407 | An escape character that opens no sequence stays, so with the row above the result is fixed for every line |
| `SshLog.CollapseBars` | backend/deployers/base.py:416-427 | The loop that overwrites a bar by the next keeps exactly the segments not followed by a bar of the same run |
| `SshLog.CollapseKeepsText` | backend/deployers/base.py:416-427 | Only progress bars are dropped, no two stay neighbours, order is kept |
| `SshLog.CollapseIsFixed` | backend/deployers/base.py:416-427 | A collapsed line stays as it is |
| `SshLog.CleanedIs` | backend/deployers/base.py:405-427 | For every line, told from its parts between carriage returns: the trimmed parts in their order, one to a line, without the blank ones and without each bar that another bar follows; a line without carriage return stays |
| `SshLog.Clean` | backend/deployers/base.py:405-427 | A line without carriage return is kept as it is, otherwise its segments are collapsed |
| `SshLog.BatchesLoseNothing` | backend/deployers/base.py:429-432 | Full batches and the last one, joined, are all lines joined |
| `SshLog.LogPump.Flush` | backend/deployers/base.py:429-432 | Sends the waiting lines as one batch, or nothing |
| `SshLog.LogPump.Take` | backend/deployers/base.py:440-450 | Main loop: every full fifty lines are sent, the rest waits |
| `SshLog.LogPump.TakeLate` | backend/deployers/base.py:474-489 | Drain: lines wait, nothing is sent |
| `SshLog.LogPump.Drain` | backend/deployers/base.py:471-492 | At most five attempts, stopping at the first that finds nothing |
| `SshLog.LogPump.Pump` | backend/deployers/base.py:434-461 | The main loop up to the exit status or a cancel |
| `SshLog.OutputIsInOrder` | backend/deployers/base.py:440-492 | Turn by turn what stdout had and then what stderr had; draining likewise, all of stdout first |
| `SshLog.SshExecStream` | backend/deployers/base.py:390-494 | Uncancelled: the output is every cleaned line in order, the batches joined are that output, batch k is lines 50k to 50k+49 and the rest is one more batch; cancelled: the full batches and the note were sent and the partial batch is lost; exit code 1 if none arrives |
| `SshLog.OutputReachesPage` | frontend/src/composables/useSseStream.js:45-71 | End to end: a command's whole output stands on the page as one block among the other messages, when no batch reads as a command or keep-alive |
| `SshLog.ReadAtFeedIsInvisible` | backend/deployers/base.py:440-450 | For every text, escapes and carriage returns included: a read that ends at a line feed logs what one long read would |
| `SshLog.ReadBoundaryIsInvisibleIff` | backend/deployers/base.py:440-450 | For text without escapes and carriage returns, where a read ends leaves no trace exactly at a line feed or an empty side; anywhere else the cut line is logged as two |
| `GlueIdentity.KeyIsFixed` | backend/services/glue_identity.py:239-298 | A cache key is its own key, so an entry is dropped under the key it was stored with |
| `GlueIdentity.GetIs` | backend/services/glue_identity.py:229-292 | A request case by case: which names are refused, when the cache answers alone and with what, a definite 404 drops the entry, an outage serves exactly a usable entry within grace and writes nothing |
| `GlueIdentity.GlueClient.FetchRolePermissions` | backend/services/glue_identity.py:123-174 | The in-place code: nothing for a blank role, a fresh entry as it is, missing exactly if Glue says so now or did within the window, and no write on an outage |
| `GlueIdentity.GlueClient.GetIdentity` | backend/services/glue_identity.py:229-292 | The in-place code computes, on the dictionaries, the request step whose cases `GlueIdentity.GetIs` states |
| `GlueIdentity.GlueClient.Invalidate` | backend/services/glue_identity.py:295-298 | Only the entry of this account is dropped |
| `GlueIdentity.HistoryTellsRequests` | backend/services/glue_identity.py:229-292 | The history on which the next rows rest is the requests of the run, one entry each, with what Glue was asked and answered |
| `GlueIdentity.Staleness` | backend/services/glue_identity.py:229-292 | Every identity served is the entry of a request at most max(W, G) ago in which Glue confirmed the account, with the role, systems and status of Glue's body and its trimmed lower-case name, with no definite refusal since, and its permissions are Glue's answer for its role at most W before that |
| `GlueIdentity.NothingAfterDefiniteNo` | backend/services/glue_identity.py:229-292 | After a definite 404 of the account or its role nothing is served for it until Glue confirms it again |
| `GlueIdentity.RefusalsAreGlues` | backend/services/glue_identity.py:123-174 | An account or role is reported missing only if Glue said so, for a role within the last window |
| `GlueIdentity.WindowAsksNothing` | backend/services/glue_identity.py:247-261 | Inside the window the answer does not depend on Glue at all |
| `GlueIdentity.CacheRemembers` | backend/services/glue_identity.py:229-307 | After every history the cache holds an account exactly if it was refreshed and not forgotten since, with the time of its last refresh |
| `GlueIdentity.OutageServesIff` | backend/services/glue_identity.py:206-226 | After every history: past the window and with Glue away, a request is served exactly if grace is configured and the account's last refresh, not forgotten since, is at most G old; nothing is written |
| `GlueIdentity.RunKeeps` | backend/services/glue_identity.py:123-292 | On every run each cached entry, role and refusal is backed by what Glue said, at the recorded time |
| `AlertService.KeysAreInjective` | backend/services/alert_service.py:87-89 | Two alerts share a tracking key only if rule, server and entity agree |
| `AlertService.PrefixIsExact` | backend/services/alert_service.py:205-210 | Clearing by prefix hits the entities of that rule and server and no other |
| `AlertService.AlertTracker.MarkExceeded` | backend/services/alert_service.py:112-120 | The first excess is remembered, later ones are not; entries older than a day go |
| `AlertService.AlertTracker.SetCooldown` | backend/services/alert_service.py:99-106 | The alert time is stored; entries older than a day go |
| `AlertService.AlertTracker.ClearServer` | backend/services/alert_service.py:204-210 | All entities of the rule and server start over, all others stay |
| `AlertService.AlertTracker.CheckOne` | backend/services/alert_service.py:144-210 | A check over its servers is the run of its steps: excesses in order, clears for empty results, nothing for a failed collection |
| `AlertService.StepsAre` | backend/services/alert_service.py:171-210 | Which steps a check consists of, server by server and reading by reading in their order |
| `AlertService.AlertsAreSpaced` | backend/services/alert_service.py:92-106 | On every run two alerts of one key are at least min(60 * cooldown, 86400) seconds apart |
| `AlertService.ImmediateAlertIff` | backend/services/alert_service.py:178-203 | On every timed run an excess of a rule without a required duration alerts exactly if each alert of its key is at least the cooldown old or was swept by a later alert more than a day after it, and, with no alert on record, the clock is past the cooldown |
| `AlertService.ImmediateAlertWithinADay` | backend/services/alert_service.py:178-203 | With a cooldown of at most a day it alerts exactly if no alert of its key lies within the cooldown |
| `AlertService.LongCooldownDependsOnOthers` | backend/services/alert_service.py:92-106 | With a longer one the same two excesses are silent or alert a second time according to whether another key alerted in between |
| `AlertService.AlertNeedsStretch` | backend/services/alert_service.py:172-210 | An alert with a required duration ends a stretch at least that long that began with the same entity over its threshold, without an empty check of that rule and server and without an alert of it in between |
| `AlertService.DurationsAlwaysMeasure` | backend/services/alert_service.py:112-131 | Every tracked time is that of an excess since which the key was not cleared |
| `AlertService.BeyondADayNeverAlerts` | backend/services/alert_service.py:112-126 | With a required duration above a day no state ever leads to an alert |
| `AlertService.SteadyExcessAlertsIff` | backend/services/alert_service.py:112-126 | For any number of checks: a value that stays over its threshold is silent until the duration is over, and then alerts exactly if at most a day has passed since its first excess |
| `AlertService.ClockRuns` | backend/services/alert_service.py:172-210 | However often other entities exceed, alert or recover, an entity's clock keeps its start and the entity does not alert before its duration |
| `AlertService.RecoveredEntityKeepsClockIff` | backend/services/alert_service.py:172-210 | Over any checks that do not report it, a tracked entity keeps its clock exactly if none of them found its server without any entity over the threshold |
| `AlertService.RecoveredEntityAlerts` | backend/services/alert_service.py:181-203 | Such an entity alerts at its next excess exactly if the first one is at most a day old, although it was not over its threshold in between |
| `RegistrySync.FetchAllTags` | backend/services/registry_provider.py:220-240 | The loop collects page 1 and then pages 2 to min(total, 50), and fails with the first failing page |
| `RegistrySync.BareListIsWhole` | backend/services/registry_provider.py:220-240 | A bare first answer is the list, an envelope without a page count is its one page, and a first page that fails fails the listing, whatever other pages would say |
| `RegistrySync.CollectsUpToFiftyPages` | backend/services/registry_provider.py:220-240 | From a fixed list the first 10000 tags in order; the whole list exactly if it has no more |
| `RegistrySync.MissingPagesAreDropped` | backend/services/registry_provider.py:208-240 | For every list and every set of later pages answered by a 404: exactly the answered pages are collected, without an error; the whole list exactly if none is missing and it has at most 10000 tags |
| `RegistrySync.MissingPagesAreDeleted` | backend/services/registry_service.py:223-232 | The sync after it deletes exactly the rows whose tag stands on no answered page, and none if no tag was collected |
| `RegistrySync.SyncMirrors` | backend/services/registry_service.py:135-234 | After a sync with tags the cached tags are the reported ones; every reported (tag, digest) has one row with its last report; other rows of the repository are gone or, if their tag is still reported, untouched; other repositories are unchanged; without tags nothing changes |
| `RegistrySync.SyncKeepsValid` | backend/services/registry_service.py:135-234 | Both unique indexes and the foreign key hold after every sync |
| `RegistrySync.ResyncOnlyStamps` | backend/services/registry_service.py:135-234 | Syncing the same answer again changes only last_sync of the reported rows, repeated keys included |
| `RegistrySync.FullSyncMirrors` | backend/services/registry_service.py:236-291 | After a full sync no unmapped repository is left, and the tags of a mapped one are those of its last answer that had any |
| `RegistrySync.SyncEachTags` | backend/services/registry_service.py:266-281 | The loop over the mapped repositories succeeds if none is unreachable or denied, and leaves each with its last reported tags |
| `RegistrySync.SyncReports` | backend/services/registry_service.py:135-234 | The number a sync reports is that of the artifacts with a tag; a listing that broke off counts none and writes nothing, an unreachable or denying registry is passed on |
| `RegistrySync.SyncEachAppends` | backend/services/registry_service.py:255-282 | A full sync adds up the numbers and stops at the first failure, keeping what was synced before |
| `RegistrySync.DropsKeep` | backend/services/registry_service.py:243-262 | The two cleanups drop exactly the unmapped and the empty repositories |
| `RegistrySync.Registry.UpsertRow` | backend/services/registry_service.py:166-221 | One artifact: its row is updated, or inserted if there is none |
| `RegistrySync.Registry.SyncRepo` | backend/services/registry_service.py:135-234 | The in-place code computes SyncedRepo, and a failed listing changes nothing |
| `RegistrySync.Registry.SyncAll` | backend/services/registry_service.py:236-291 | The in-place code computes SyncedAll, keeping what was synced before a failure |
| `Rollback.FindSource` | backend/services/rollback_service.py:20-44 | The newest older successful record with a stored request, the same mode and another tag; none only if there is none |
| `Rollback.LatestSuccess` | backend/services/rollback_service.py:54-64 | The newest successful record with a stored request |
| `Rollback.PrepareRollback` | backend/services/rollback_service.py:67-169 | The step-by-step code computes the plan or the error, errors in the order not found, bad tag, no source, bad snapshot |
| `Rollback.ValidTagIff` | backend/deployers/base.py:28-45 | Which tags are accepted: 1 to 128 letters, digits, underscores, dots and hyphens, not beginning with a dot or hyphen, and at most one line feed after them |
| `Rollback.PlanIs` | backend/services/rollback_service.py:67-169 | A prepared plan told from the tables: native exactly without a tag in the three cluster modes, mode and tag from the stored request of its source, and which row the source is |
| `Rollback.RefusalIs` | backend/services/rollback_service.py:67-141 | Which refusal an impossible rollback gets, in the order of the checks |
| `Rollback.ReplaySwaps` | backend/services/rollback_service.py:20-44 | A successful replay runs the source's tag, and the record that ran before is the next rollback's source |
| `Rollback.ReplaySwapsTags` | backend/services/rollback_service.py:20-44 | So it swaps the current tag and the rollback tag |
| `Rollback.ReplaysAlternate` | backend/services/rollback_service.py:97-136 | n replays in a row: the original tag after an even number, the other after an odd one |
| `Rollback.ReplayPossibleIff` | backend/services/rollback_service.py:97-127 | A replay is prepared exactly if an older success of another tag exists and its request is readable and names a mode |
| `Rollback.GivenTagReplays` | backend/services/rollback_service.py:97-141 | A given tag is always replayed, in the mode of the source, never rolled back natively |

## Left out

- SSH, Docker, kubectl, Helm, Argo, Flux and HTTP: what a deployer does is an input (returns, raises, sees a cancel, breaks); Glue's and the registry's answers are inputs.
- SQL text, drivers, pooling, migrations, collations, rowcount differences and failures of the database in the middle of a service call.
- The other columns of the two tables (output, target, duration, stage times, note, image, environments) and log truncation; `approved_at` and the text form of timestamps.
- Status aliases and other normalisation of stored text (`normalize_deploy_status`, `normalize_rollback_type`): easy members only.
- The name of the super-admin role is a setting; here it is its default.
- Matching of approval rules and environments (`match_rule`, `resolve_target_envs`), parsing of schedules and JSON parameters, notification contents.
- Threads of the heartbeat and scheduler loops, graceful shutdown and the liveness of any thread.
- At the statement tier a ticket or log write is not tied to the thread that claimed: `finish_deploy_record` does not check `runner`, and properties that need the tie are stated at the crash tier.
- `DeployService.Execute`: between its steps another instance may cancel the log (an input per target); other concurrent writers of the same row are covered at the statement tier, not here. A rival that takes the lock between the busy check and the claim gives the same refusal.
- `ApprovalService.RunApproval`: when another instance cancelled the run but the local thread never noticed, the ticket status follows the local result although the log is terminated; the contract excludes that case from the agreement of the two statuses.
- `CrashTier.Safety`: the claims of a ticket and of its log are one step unless the thread crashes between them, and so are the two writes of a partial or terminated finish; `CrashTier.EarlySweepTearsIff` and `CrashTier.WindowTearsIff` show that it would be false otherwise.
- `DistributedLock.ConfigTable.Release`: deletes by prefix; SQL LIKE wildcards inside an instance id are not modelled.
- `Heartbeats.LiveLogsAreSpared`: the shared clock stays below 10^13 seconds.
- UTF-8 decoding of the stream and Unicode white space or case folding: text is a sequence of characters, trimming and lower-casing are those of ASCII.
- Translation and JSON decoding of STATUS payloads: a parameter of the page model; fetch errors and the loading flag.
- Server-sent events beyond the subset the page parses (event, retry and comment handling, reconnection with the last id).
- `GlueIdentity.Staleness`: a request is atomic and takes no time, so the several clock reads of one request coincide; throttled warnings are left out.
- `AlertService.AlertTracker.Exceeded`: the several clock reads for one entity coincide.
- Alert message texts, templates, bots, metric collection, and the early returns of `_check_one` for incomplete rules.
- `RegistrySync.Registry.SyncAll`: errors of the database while one repository is synced (the `errors` list) and the CI mapping call are left out, as is `sync_for_project`, which repeats the same loop.
- Date conversion of artifact times and parsing of tag entries: a row's details are one value.
- `Rollback.PrepareRollback`: the note, bot and language put into the parameters; the approval gate after it is `ApprovalService.GateDeploy`; native rollbacks on the cluster are calls that cannot be seen.
- OIDC, cryptography, tokens, the web terminal, upload checks, webhook allow-lists, Vue views, monitoring parsers, plain CRUD routes.
