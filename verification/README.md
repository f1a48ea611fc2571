# InboxOne: a verified model of the mail mirror

InboxOne keeps a local mirror of remote mailboxes current while messages come, go and change on the server, while
connections fail at any moment, and while several generations of background tasks share dictionaries between
awaits. This project models that machinery and proves what it is for.

The parts, and what is proved about them:

* **Folder mirror** (`MailServer`, `Mirror`, `MirrorTheorems`, `MirrorRuns`, `MirrorFreshness`, `MirrorReads`,
  `MirrorSession`). A mailbox at every instant that obeys section 2.3.1.1 of RFC 3501 and may change between any two
  awaits; one pass over a folder, interrupted at any await; any sequence of passes; how fresh the cache stays between
  them; and, message by message, what a completed pass read and when. Crash safety, the watermark, convergence, the
  reconcile walk as a refinement of one-shot reconciliation, and "history never notifies". `MirrorSession` holds the
  worker's loops over a committed copy and a working copy and shows that they compute `Mirror.Pass`.
* **Account pass** (`AccountSync`). Discovery, the folder selection by scope and the isolation of failing folders.
* **Request coalescer** (`Coalescer`, `CoalescerTheorems`, `RequestQueue`). Every interleaving of the code between
  awaits, across cancelled and restarted tasks, including the cancelled pass whose opening connection fails and which
  therefore goes on. `RequestQueue` is the module's dictionaries changed in place.
* **End to end** (`EndToEnd`, `EndToEndTheorems`). The mailbox, the IDLE watcher (RFC 2177) of one inbox folder, the
  coalescer and the folder's mirror, composed: every change is in the cache or accounted for, and a settled watcher
  means an exact copy. The mailbox keeps its own time: a pass's awaits fall on its instants by any schedule, so any
  number of changes and of everyone else's moves can fall within one await.
* **Supervisor** (`Supervision`, `Supervisor`). One tick as its loops run it, and any run of ticks under a
  non-decreasing clock and a changing interval.
* **Socket ownership** (`Sockets`). All generations of watchers of one folder, stepping from await to await, with
  cancellation at each of them and opens that fail while a cancellation waits.
* **Activities and events** (`Activity`, `EventStream`). The forest of work in progress, its leaves, and the bounded
  queue that collapses into a late-read snapshot marker.
* **Queries** (`Pagination`, `LikeSearch`, `MarkAllRead`, `MarkAllReadTheorems`). Keyset pagination over a changing
  table, the escaped LIKE search, chunked marking with failures everywhere.
* **Client store** (`ActivityStore`). HTTP snapshots racing stream events.
* **Attachments** (`MimeParts`). The numbering of MIME parts and what a number gets back.

Code that changes state in place is a class or a method with loops here too, proved equal to a function or a step of
a state machine; the theorems are about those.

Where the code and what one might expect of it differ, the model follows the code:

* "Connected" does not mean an exact copy (`EndToEndTheorems.ConnectedTooEarly`). It does exactly when nothing slipped
  past the pass that shows it: UIDVALIDITY held, every message there at the end was there at the listing, and every
  listed message still there when its page was read is there at the end with the flags that were read
  (`EndToEndTheorems.ConnectedExactly`, `MirrorReads.CompletedPassMirrorsExactly`). A mailbox that did not change since
  the pass began is enough for that, and not needed.
* Not every change is asked for. One is left to the interval check exactly when, with no such check since, it came while
  nobody listened; or the watcher stopped, fell back to polling or lost its account after it; or DONE discarded its
  response in a renewal; or the pass that was to read it failed or ended without having got to the folder
  (`EndToEndTheorems.OwedExactly`). The renewal gap is open in every settled state (`EndToEndTheorems.RenewalGap`).
* A cancelled task whose open then fails goes on. A retired drain task runs another pass exactly when something is
  pending (`CoalescerTheorems.WhatBecomesOfACancelledTask`), which happens (`CoalescerTheorems.ARetiredTaskMayGoOn`); a
  stopped watcher reconnects and displaces its replacement's registration (`Sockets.ASwallowerDisplacesItsReplacement`),
  and what it shows stands beside what the replacement does (`EndToEndTheorems.ConnectedMeans`).
* A watcher may end with its client still connected, exactly when a cancellation calls the client's shutdown off before
  it runs (`Sockets.EndedWatchersLetGo`, `Sockets.AClientIsLeftConnected`).
* An inbox folder that is new to an already known account stays without a stamp while the clock is within one interval
  of its zero (`Supervision.UnstampedExactly`), and one that leaves the inbox and returns is asked for at once
  (`Supervision.ReturningInboxIsAskedAtOnce`).
* Marking everything read commits last: a failing logout leaves the server told and the database as it was
  (`MarkAllReadTheorems.ALogoutFailureForgets`), except for the rows flipped before the last account whose token was
  renewed, which commits the same session (`MarkAllReadTheorems.AnAbortStoresExactly`).
* Overlapping HTTP snapshots can take the client's list back (`ActivityStore.AnOverlappingReplyMayGoBack`), though never
  behind the stream, and only when they overlap (`ActivityStore.ListGoesBackExactly`).
* Beginning running work under a queued item turns that item to running for good, so a finished block restores
  everything but that (`Activity.TrackLeavesNoTrace`).

## Model

| member | source | states |
|---|---|---|
| MailServer.Present | backend/app/services/imap_client.py:68-80 | FETCH answers for exactly the asked UIDs the mailbox still has, in ascending order |
| Mirror.Page | backend/app/sync/worker.py:115-124 | a page of the keyset walk is ascending, lies above the cursor, skips nothing up to its last UID and is empty only when nothing is left |
| Mirror.WalkAdvances | backend/app/sync/worker.py:114-137 | every page strictly shrinks what is left above the cursor, although the walk deletes as it goes: the walk ends |
| MirrorTheorems.SoundSurvivesServerChange | backend/app/sync/worker.py:58-107 | a sound folder stays sound under every legal change of the mailbox |
| MirrorTheorems.NewUidsAreAhead | backend/app/services/imap_client.py:63-65 | because the listing is sorted, the UIDs above the watermark are a suffix of it, so a batch never jumps over one |
| MirrorTheorems.ImportBatchAdds | backend/app/sync/worker.py:74-103 | a batch adds exactly the fetched UIDs that were not cached, each as the server describes it, and leaves every other row alone |
| MirrorTheorems.ImportSound | backend/app/sync/worker.py:69-107 | wherever the backfill stops, what is committed is sound and the watermark covers only imported or expunged UIDs |
| MirrorTheorems.WalkUnfolds | backend/app/sync/worker.py:114-138 | a walk stops, or commits one page and goes on above the page's last UID |
| MirrorTheorems.WalkTrims | backend/app/sync/worker.py:112-138 | the walk only deletes rows and refreshes flags; surviving rows keep their local id and every other column |
| MirrorTheorems.WalkReflects | backend/app/sync/worker.py:127-136 | a row that outlives a completed walk was on the server during it with exactly these flags |
| MirrorTheorems.WalkKeeps | backend/app/sync/worker.py:127-132 | a listed message that stays on the server throughout is never deleted |
| MirrorTheorems.WalkVisitsEachOnce | backend/app/sync/worker.py:113-129 | a completed walk visits every cached UID exactly once, in order |
| MirrorTheorems.WalkRefinesOneShot | backend/app/sync/worker.py:109-138 | on a mailbox that holds still the batched deleting walk completes and equals reconciling the whole table at once |
| MirrorTheorems.WalkSound | backend/app/sync/worker.py:112-138 | wherever the walk stops, what is committed is sound |
| MirrorRuns.PassUnfolds | backend/app/sync/worker.py:54-141 | a pass stops before its backfill, in it, in the walk, or completes: no other end |
| MirrorRuns.PassSound | backend/app/sync/worker.py:58-107 | crash safety: at every commit point cached UIDs are unique and carry the folder's UIDVALIDITY, and every message still on the server at or below the watermark is cached |
| MirrorRuns.PassWatermark | backend/app/sync/worker.py:58-62 | the watermark only grows within one UIDVALIDITY, and a completed pass leaves it at or above all it listed |
| MirrorRuns.CompletedPassReflects | backend/app/sync/worker.py:66-141 | after a completed pass every cached row was on the server during the pass with these flags, and every message there from listing to end is cached |
| MirrorRuns.EarlierChangesAreReflected | backend/app/sync/worker.py:66-141 | whatever happened to a message before a completed pass began is in the cache after it |
| MirrorRuns.QuietPassMirrors | backend/app/sync/worker.py:54-141 | from any sound state one uninterrupted pass over a quiet mailbox completes and leaves an exact copy |
| MirrorRuns.Convergence | backend/app/sync/worker.py:54-141 | after any passes, interrupted anywhere, under any legal changes, one uninterrupted pass over a quiet mailbox leaves the cached UIDs and flags exactly the server's, across UIDVALIDITY changes too |
| MirrorRuns.RunInvariant | backend/app/sync/worker.py:58-141 | soundness and the silence of history hold after every run of passes |
| MirrorRuns.HistoryNeverNotifies | backend/app/sync/worker.py:58-139 | an eligible message has a UID above all UIDs listed by the first completed pass under its UIDVALIDITY |
| MirrorRuns.AddedMailNotifiesExactly | backend/app/sync/worker.py:58-107 | a message a pass adds is eligible exactly when the history was complete under the UIDVALIDITY the pass finds |
| MirrorFreshness.CompletedPassIsFresh | backend/app/sync/worker.py:66-141 | a completed pass makes the cache fresh since its first instant: no row is older, and no message that was there all the while is missing |
| MirrorFreshness.PassTouches | backend/app/sync/worker.py:69-138 | however a pass ends, a row it leaves is as before or was on the server during the pass with these flags |
| MirrorFreshness.PassKeepsLasting | backend/app/sync/worker.py:69-138 | however a pass ends, a cached message that stays on the server throughout stays in the cache |
| MirrorFreshness.PassKeepsFresh | backend/app/sync/worker.py:54-141 | a later pass, its awaits on any schedule, completed or interrupted at any of them, leaves the cache as fresh as it was |
| MirrorFreshness.FreshAndStillMirrors | backend/app/sync/worker.py:54-141 | a fresh cache of a mailbox that has held still since is an exact copy |
| MirrorFreshness.MirrorsExactlyTheAlike | backend/app/sync/worker.py:94-101 | a cache that copies one mailbox copies another exactly when the two show a reader the same |
| MirrorReads.WalkDecides | backend/app/sync/worker.py:112-138 | a row outlives a completed walk exactly when its UID was listed and there at the instant its page was read, and then has the flags of that instant |
| MirrorReads.PassDecides | backend/app/sync/worker.py:54-141 | the same for a whole completed pass and every row its backfill left |
| MirrorReads.CompletedPassMirrorsExactly | backend/app/sync/worker.py:54-141 | a completed pass leaves an exact copy of the mailbox as it then is exactly when UIDVALIDITY held, all that is there was listed, and all that was listed and there when read is still there with the flags read |
| MirrorSession.FolderSession.constructor | backend/app/sync/worker.py:54-54 | a session starts with working copy and committed copy equal |
| MirrorSession.FolderSession.Commit | backend/app/sync/worker.py:63-63 | a commit makes the working copy the committed one and changes nothing else |
| MirrorSession.FolderSession.Rollback | backend/app/sync/worker.py:204-204 | a rollback brings the working copy back to what was committed |
| MirrorSession.FolderSession.AddMessages | backend/app/sync/worker.py:83-103 | the header loop computes the specified import of a batch |
| MirrorSession.FolderSession.AddBatch | backend/app/sync/worker.py:70-104 | one batch fetches, skips cached UIDs, adds the rest and moves the watermark to the batch's last UID |
| MirrorSession.FolderSession.AdoptValidity | backend/app/sync/worker.py:58-62 | a changed UIDVALIDITY voids cache, watermark and completeness; an unchanged one changes nothing |
| MirrorSession.FolderSession.Backfill | backend/app/sync/worker.py:68-107 | the batch loop commits exactly what the specified backfill commits, at whichever await it fails |
| MirrorSession.FolderSession.ApplyFlags | backend/app/sync/worker.py:130-136 | the row loop deletes what FETCH omitted and copies the flags of the others, for the page's rows only |
| MirrorSession.FolderSession.WalkRows | backend/app/sync/worker.py:113-138 | the walk loop commits exactly what the specified walk commits, at whichever await it fails |
| MirrorSession.FolderSession.SyncFolder | backend/app/sync/worker.py:54-141 | the whole routine ends as the specified pass ends, interrupted or not |
| MirrorSession.FolderSession.SyncFolderOrRollback | backend/app/sync/worker.py:191-204 | after a failed pass the session holds exactly what was committed |
| AccountSync.SelectionIsMonotone | backend/app/sync/worker.py:180-186 | a request that covers another selects every folder the other selects |
| AccountSync.MergeSelectsBoth | backend/app/sync/requests.py:19-22 | the merged request selects a folder exactly when one of the two would |
| AccountSync.RequestedFoldersAreWorkedOn | backend/app/sync/requests.py:38-61 | a request whose account is not cancelled afterwards is served by a later pass; if that pass opened its connection and listed, it worked on every folder the request selects, up to where its loop ended |
| AccountSync.Account.Discover | backend/app/sync/worker.py:27-51 | after a successful LIST the folders are exactly the listed paths; known ones keep id and cache, new ones are empty and an inbox only by name |
| AccountSync.Account.AddFolder | backend/app/sync/worker.py:35-41 | a folder is added under a new id and no other changes |
| AccountSync.Account.SyncSelected | backend/app/sync/worker.py:180-206 | each chosen folder is as its own pass, begun after the previous one ended, left it, and no other folder changes; the loop works on exactly the selected folders still known up to its end, which comes early only where a lookup, or the account's own code after a failed folder, fails or is cancelled |
| AccountSync.Account.SyncOne | backend/app/sync/worker.py:187-206 | one folder's row changes by exactly one pass over it |
| AccountSync.Account.SyncListed | backend/app/sync/worker.py:173-206 | with the connection open: discovery if asked for, then isolated passes in turn over the selected folders |
| AccountSync.Account.SyncAccount | backend/app/sync/worker.py:144-236 | inactive, cancelled or cut short in its cleanup: nothing is recorded; failed open or LIST: an error and no folder changed; otherwise discovery, isolation, and "ok" exactly when no folder failed and the loop ran to its end |
| Coalescer.MergeIsJoin | backend/app/sync/requests.py:19-22 | merging is the least upper bound of two requests: commutative, associative, idempotent, and covered by whatever covers both |
| Coalescer.RetiredIsNotRegistered | backend/app/sync/requests.py:59-61 | an old generation's cleanup never removes its successor's registration |
| Coalescer.StepKeeps | backend/app/sync/requests.py:27-71 | each stretch between two awaits keeps registration, exclusion, activity accounting and every request |
| Coalescer.RunKeeps | backend/app/sync/requests.py:16-71 | the invariant holds at every await point of every run, across cancel and restart |
| CoalescerTheorems.PendingIsServed | backend/app/sync/requests.py:27-41 | pending and its activities have the same keys, and whatever is pending has a live task that was never retired |
| CoalescerTheorems.PassesExclude | backend/app/sync/worker.py:147-148 | passes of one account exclude each other, no more bodies run than there are slots, and no pass in its body waits for an account lock |
| CoalescerTheorems.ActivitiesReportWork | backend/app/sync/requests.py:27-37 | an activity is open exactly when it reports one account's queued requests or one task's pass, and it reports one thing only |
| CoalescerTheorems.NoActivityLeaks | backend/app/sync/requests.py:44-61 | when every task is finished nothing is pending, no activity is open and no slot is taken |
| CoalescerTheorems.CoalescingLosesNothing | backend/app/sync/requests.py:38-61 | a request whose account is not cancelled afterwards is served by a pass that began after it and covers all it asked for |
| CoalescerTheorems.SettledIsServed | backend/app/sync/requests.py:44-61 | once no task of the account is left, a request that was never dropped has been served |
| CoalescerTheorems.NoDeadlock | backend/app/sync/worker.py:147-148 | while a task is unfinished, some step other than a new request, cancellation or foreign lock is possible |
| CoalescerTheorems.ServiceStepWorks | backend/app/sync/requests.py:44-61 | every such step leaves strictly less work |
| CoalescerTheorems.ServiceRunsEnd | backend/app/sync/requests.py:44-61 | without new requests the work ends within a known number of steps |
| CoalescerTheorems.WhatBecomesOfACancelledTask | backend/app/sync/worker.py:167-172 | only the delivery of its cancellation, which ends it, and a failing open, which swallows it, move a cancelled task; after the latter it runs another pass exactly when something is pending for its account |
| CoalescerTheorems.RetiredTaskGoesOnDraining | backend/app/sync/worker.py:167-172 | it then takes over everything queued for its account, from under the one registered to serve it |
| CoalescerTheorems.ARetiredTaskMayGoOn | backend/app/sync/worker.py:167-172 | a reachable state in which a cancelled pass waits for an open that may fail while its account has work pending |
| RequestQueue.AskIsStep | backend/app/sync/requests.py:16-41 | a request is a step of the state machine, whatever the history |
| RequestQueue.HeadIsStep | backend/app/sync/requests.py:44-48 | so is a task's first run |
| RequestQueue.ResumeIsStep | backend/app/sync/requests.py:50-61 | so is the end of a pass, a swallowed cancellation included |
| RequestQueue.UnwindIsStep | backend/app/sync/requests.py:57-61 | so is a delivered cancellation |
| RequestQueue.CancelIsStep | backend/app/sync/requests.py:64-71 | so is the cancellation of an account |
| RequestQueue.Requests.constructor | backend/app/sync/requests.py:10-13 | the dictionaries start empty |
| RequestQueue.Requests.BeginActivity | backend/app/sync/requests.py:30-37 | one new activity, under an unused id |
| RequestQueue.Requests.CreateTask | backend/app/sync/requests.py:40-40 | one new task of the account, not yet run |
| RequestQueue.Requests.MergeWithPending | backend/app/sync/requests.py:19-22 | the branches compute the join with what is pending |
| RequestQueue.Requests.RequestSync | backend/app/sync/requests.py:16-41 | the whole new state of a request, the state machine's step: merged scope, one activity, one registered task, which is returned |
| RequestQueue.Requests.EnterLoop | backend/app/sync/requests.py:45-48 | the loop head takes the pending request whole, or the drain task ends |
| RequestQueue.Requests.Deregister | backend/app/sync/requests.py:59-61 | only a drain task's own registration goes |
| RequestQueue.Requests.FinishPass | backend/app/sync/requests.py:57-58 | the pass's activity, lock and slot go, and nothing else |
| RequestQueue.Requests.Resume | backend/app/sync/requests.py:46-58 | from the end of one pass to the next, or out of the loop |
| RequestQueue.Requests.Unwound | backend/app/sync/requests.py:57-61 | a delivered cancellation leaves through both cleanups |
| RequestQueue.Requests.CancelAccount | backend/app/sync/requests.py:64-71 | pending work is dropped with its activity, the running task retired and cancelled |
| EndToEnd.WorkKeepsCache | backend/app/sync/worker.py:187-199 | a folder pass inside an account pass, completed or interrupted, keeps the committed rows sound and, since the last successful pass began, fresh |
| EndToEnd.MovesKeep | backend/app/sync/scheduler.py:137-160 | every interleaving of mailbox, watcher, coalescer, folder passes and supervisor keeps every change accounted for and the cache sound and fresh |
| EndToEndTheorems.NoLostUpdate | backend/app/sync/scheduler.py:137-160 | in every reachable state each change is in the cache, in an unread IDLE response, about to be requested, covered by pending or unfinished work, or owed to the interval check |
| EndToEndTheorems.ReflectedMeansCached | backend/app/sync/worker.py:54-141 | in every reachable state the cached rows are sound, each was on the server since the last successful pass began with its flags, and no message there all the while is missing |
| EndToEndTheorems.MidwayIsSound | backend/app/sync/worker.py:54-141 | what a pass still in its body has committed by any of its awaits is sound too, and as fresh |
| EndToEndTheorems.SettledIsCaughtUp | backend/app/sync/scheduler.py:137-160 | a subscribed watcher with nothing unread, nothing owed that is not cached, nothing pending and no pass left has an exact copy of the mailbox |
| EndToEndTheorems.CaughtUpMirrors | backend/app/sync/worker.py:54-141 | a cache that reflects every change is an exact copy of the mailbox |
| EndToEndTheorems.SettlingHappens | backend/app/sync/scheduler.py:137-151 | whatever the mailbox, the settled state is reached by a watcher's first catch-up, with an exact copy |
| EndToEndTheorems.ConnectedMeans | backend/app/sync/live.py:61-67 | shown as connected, each change is in the cache, or covered by outstanding work, or in the IDLE loop, or owed to the interval check; only beside a watcher that went on after its stop may the folder's own have yet to subscribe |
| EndToEndTheorems.ConnectedExactly | backend/app/sync/live.py:61-67 | when a pass connects the folder, the cache is an exact copy exactly when nothing slipped past the pass, and reflects every change exactly when there was none since the pass began on the folder |
| EndToEndTheorems.CatchUpCoversTheGap | backend/app/sync/scheduler.py:137-147 | no change since the pass entered its body is enough; and a pass that entered it after the subscription leaves no earlier change out of the cache |
| EndToEndTheorems.ConnectedTooEarly | backend/app/sync/live.py:65-66 | for every mailbox a message comes to, a reachable state shown as connected whose cache is no copy: the pass listed the folder before the message came and IDLE began |
| EndToEndTheorems.OwedExactly | backend/app/sync/scheduler.py:121-183 | over every run, a change is owed to the interval check exactly when some move left it and no such check came after; every other change is in the cache or on its way there |
| EndToEndTheorems.RenewalGap | backend/app/sync/scheduler.py:154-160 | from any settled state, a change during a pure renewal, before DONE completes or after, ends neither cached nor unread nor asked for nor covered: the interval check alone owes it |
| Supervision.TickLeavesNothingOverdue | backend/app/sync/scheduler.py:232-251 | after a tick the account stamps are those of the active accounts and no account or inbox stamp is an interval old |
| Supervision.UnstampedExactly | backend/app/sync/scheduler.py:247-249 | an inbox folder is without a stamp exactly when it is new to a known account and the clock is within an interval of zero |
| Supervision.OverdueIsAsked | backend/app/sync/scheduler.py:233-249 | everything overdue is covered by a request of this tick |
| Supervision.InboxChecksAreSpaced | backend/app/sync/scheduler.py:244-251 | two interval checks of one inbox folder are an interval apart, the interval in force at the later one, however it changes, while every tick sees the folder |
| Supervision.FullChecksAreSpaced | backend/app/sync/scheduler.py:233-243 | the same for an account that stays active and scheduled |
| Supervision.ReturningInboxIsAskedAtOnce | backend/app/sync/scheduler.py:250-251 | a folder a tick saw leave the inbox is asked for as soon as it is back |
| Supervisor.Scheduler.constructor | backend/app/sync/scheduler.py:24-30 | the registries start empty |
| Supervisor.Scheduler.StopFolder | backend/app/sync/scheduler.py:55-62 | exactly this folder leaves the registries and what is shown; its socket is cut and its task cancelled |
| Supervisor.Scheduler.Unschedule | backend/app/sync/scheduler.py:74-80 | exactly the account's folders are stopped, its requests cancelled, and its stamp and shown error go |
| Supervisor.Scheduler.StopUnwanted | backend/app/sync/scheduler.py:218-220 | stopped are exactly the folders no longer wanted and those whose task ended |
| Supervisor.Scheduler.UnscheduleInactive | backend/app/sync/scheduler.py:221-222 | exactly the stamped accounts that are inactive are unscheduled, with all their folders |
| Supervisor.Scheduler.StartMissing | backend/app/sync/scheduler.py:223-231 | afterwards the watched folders are exactly the wanted ones; running watchers stay |
| Supervisor.Scheduler.StopWatchers | backend/app/sync/scheduler.py:212-222 | what is shown of gone folders and accounts goes, and exactly the unwanted, ended and inactive accounts' watchers are stopped |
| Supervisor.Scheduler.SuperviseWatchers | backend/app/sync/scheduler.py:212-231 | one watcher per inbox folder of an active account; ended ones replaced, live ones kept with their clients, stopped ones cut and cancelled |
| Supervisor.Scheduler.CheckInboxes | backend/app/sync/scheduler.py:244-249 | the inner loop asks for and stamps the account's overdue inbox folders |
| Supervisor.Scheduler.AskDue | backend/app/sync/scheduler.py:232-249 | the loop over accounts computes all turns |
| Supervisor.Scheduler.Tick | backend/app/sync/scheduler.py:212-251 | after a tick both registries hold exactly the inbox folders of active accounts; only unwanted watchers were stopped, each cut and cancelled; what is shown is of active accounts; inactive accounts' requests are cancelled; stamps and requests are exactly those the policy prescribes |
| Sockets.StepFrames | backend/app/sync/scheduler.py:85-194 | each step of a watcher touches at most the client it held and lets none go undisposed |
| Sockets.RetreatIsOneWay | backend/app/sync/scheduler.py:116-121 | only a swallowed cancellation turns a watcher back from its way out |
| Sockets.SupersededKeepsOff | backend/app/sync/scheduler.py:41-43 | a superseded watcher that swallowed nothing changes no registration but its own client's |
| Sockets.StepKeeps | backend/app/sync/scheduler.py:41-194 | every step, cancellations and failures included, keeps the ownership invariant |
| Sockets.RunKeeps | backend/app/sync/scheduler.py:41-194 | so does every run |
| Sockets.SocketsAreTouchedByTheirOwner | backend/app/sync/scheduler.py:182-193 | no watcher shuts down or logs out a client another watcher opened |
| Sockets.RegistrationIsLostExactly | backend/app/sync/scheduler.py:122-133 | of the steps of other watchers exactly the pop after a logout and the registration of a new client cost a client its registration |
| Sockets.RegistrationIsLostOnlyToSwallowers | backend/app/sync/scheduler.py:122-133 | so a client loses its registration to another watcher only where a swallowed cancellation is involved |
| Sockets.DropsExactlyTheCalledOff | backend/app/sync/scheduler.py:185-190 | a client is dropped connected exactly when a cancellation calls its shutdown off before it runs; while nothing was swallowed, only one that was never registered |
| Sockets.EndedWatchersLetGo | backend/app/sync/scheduler.py:184-194 | every client of an ended watcher was logged out or shut down, except exactly those whose shutdown was called off so in the run |
| Sockets.AClientIsLeftConnected | backend/app/sync/scheduler.py:182-190 | a reachable state, nothing swallowed, in which a watcher has ended and its client is still connected |
| Sockets.RegisteredClientsAreReleased | backend/app/sync/scheduler.py:182-194 | while nothing was swallowed, no client that was ever registered is among those exceptions |
| Sockets.OneConnectionPerWatcher | backend/app/sync/scheduler.py:96-190 | a watcher never has two connections open, one whose shutdown was called off included |
| Sockets.StopCutsTheLiveSocket | backend/app/sync/scheduler.py:55-58 | while nothing was swallowed, stopping a folder cuts the socket its watcher uses |
| Sockets.SwallowersAreOutOfReach | backend/app/sync/scheduler.py:57-60 | a watcher that swallowed its cancellation is never cancelled again |
| Sockets.ASwallowerDisplacesItsReplacement | backend/app/sync/scheduler.py:116-122 | in a reachable state the replacement's client is in use, unregistered and out of reach of stopping the folder |
| Activity.NoCycles | backend/app/core/activity.py:31-46 | parent links form no cycle in any reachable state |
| Activity.EveryItemIsRepresented | backend/app/core/activity.py:81-90 | every active item is shown or has a shown descendant linked through active items |
| Activity.SnapshotShowsLeaves | backend/app/core/activity.py:84-90 | the snapshot lists exactly the active items nothing active was begun under |
| Activity.SnapshotIsEmptyWhenIdle | backend/app/core/activity.py:81-90 | the snapshot is empty exactly when nothing is active |
| Activity.TrackRestores | backend/app/core/activity.py:62-78 | after any nesting of blocks, raising or not, the active set is the prior one as other tasks changed it |
| Activity.TrackLeavesNoTrace | backend/app/core/activity.py:33-78 | left alone, every prior item is as before, except that the item worked under runs exactly when running work was begun under it |
| Activity.Registry.constructor | backend/app/core/activity.py:11-11 | nothing is active at first |
| Activity.Registry.ShowAll | backend/app/core/activity.py:86-90 | the comprehension shows the given items in order |
| Activity.Registry.Publish | backend/app/core/activity.py:15-18 | what is handed to the stream is the snapshot of the present |
| Activity.Registry.Begin | backend/app/core/activity.py:21-48 | a new item under the context, an active parent woken by running work, one publication |
| Activity.Registry.Update | backend/app/core/activity.py:51-54 | an unknown id changes and publishes nothing |
| Activity.Registry.Finish | backend/app/core/activity.py:57-59 | exactly this item goes; an unknown id publishes nothing |
| EventStream.NoEventIsLost | backend/app/sync/live.py:30-38 | each event since subscribing is delivered, superseded by a snapshot read after it, or still to come as one of the two; the queue never exceeds its bound |
| EventStream.StepStaysOnCourse | backend/app/api/routes_sync.py:40-63 | after every publication, overflow and read, draining the queue would lead the client to the present |
| EventStream.DrainedClientIsCurrent | backend/app/api/routes_sync.py:40-67 | whenever the queue is drained the client's last items are exactly the current leaves |
| EventStream.Queue.constructor | backend/app/api/routes_sync.py:43-44 | a subscriber starts with an empty queue |
| EventStream.Queue.Put | backend/app/sync/live.py:30-38 | a full queue is drained and left with one marker, otherwise the event is appended |
| Pagination.BeforeIsATotalOrder | backend/app/api/routes_messages.py:100-100 | newest first, undated last, ids breaking ties: a strict total order |
| Pagination.CursorIsKeyset | backend/app/api/routes_messages.py:87-98 | the cursor clause selects exactly what the order puts after the cursor's row |
| Pagination.PageIsPrefix | backend/app/api/routes_messages.py:100-122 | a page is the first rows past the cursor; there is a next cursor exactly when rows are left, and it is the page's last row |
| Pagination.NoMessageTwice | backend/app/api/routes_messages.py:87-122 | whatever comes, goes or stops matching between pages, and whatever the page sizes, no id is returned twice if dates stay |
| Pagination.EveryLastingMessageOnce | backend/app/api/routes_messages.py:87-122 | a message that matches throughout is returned exactly once by the last page |
| Pagination.PagesConcatenateToListing | backend/app/api/routes_messages.py:87-122 | on an unchanging table the pages concatenate to the sorted result |
| Pagination.WalkReachesTheEnd | backend/app/api/routes_messages.py:104-122 | on an unchanging table the last page comes within as many requests as rows |
| LikeSearch.StripTrims | backend/app/api/routes_messages.py:72-72 | trimming takes blanks off both ends and nothing else |
| LikeSearch.ThreeReplacesAreOne | backend/app/api/routes_messages.py:75-75 | the three sequential replacements equal one per-character escape |
| LikeSearch.EscapedIsLiteral | backend/app/api/routes_messages.py:75-76 | an escaped term matches only itself |
| LikeSearch.EscapedTermMeansContains | backend/app/api/routes_messages.py:75-83 | the pattern accepts exactly the texts that contain the term literally, case aside |
| LikeSearch.SearchFindsExactly | backend/app/api/routes_messages.py:72-85 | a search keeps exactly the rows in which a present column contains the trimmed term; a blank search keeps all |
| MarkAllRead.KeysAreDistinct | backend/app/api/routes_messages.py:146-155 | the groups' keys are the rows' keys, each once |
| MarkAllRead.GroupSelects | backend/app/api/routes_messages.py:146-155 | each row is in the group of its key, once, and in no other |
| MarkAllRead.GroupBy | backend/app/api/routes_messages.py:146-155 | the grouping loops build exactly those groups in order of first appearance |
| MarkAllRead.Session.constructor | backend/app/api/routes_messages.py:150-150 | nothing is sent or flipped at first |
| MarkAllRead.Session.SendChunks | backend/app/api/routes_messages.py:169-173 | the loop sends chunks of at most two hundred until a call fails |
| MarkAllRead.Session.FlipRows | backend/app/api/routes_messages.py:174-176 | every row of the folder is flipped and counted |
| MarkAllRead.Session.SendFolders | backend/app/api/routes_messages.py:168-178 | folder after folder until a call fails |
| MarkAllRead.Session.Run | backend/app/api/routes_messages.py:146-183 | for the selected rows, the endpoint's loops, its `continue`, its `finally` and its last commit, which may fail, compute the specified outcome |
| MarkAllReadTheorems.ChunksCover | backend/app/api/routes_messages.py:169-173 | a folder's calls cover its rows in order, all of them exactly when no call failed |
| MarkAllReadTheorems.EachRowIsSentOnce | backend/app/api/routes_messages.py:146-173 | each selected row is sent at most once, in calls about one folder of at most two hundred |
| MarkAllReadTheorems.FlippedExactlyWhenFolderTold | backend/app/api/routes_messages.py:167-178 | a row is flipped exactly when the server was told about all of its folder, and the count is the number flipped |
| MarkAllReadTheorems.StoredNeverRunsAhead | backend/app/api/routes_messages.py:177-183 | the database never says read for an untold folder, and a completed request stores all that was flipped |
| MarkAllReadTheorems.AnAbortStoresExactly | backend/app/api/routes_messages.py:160-183 | an aborted request stores exactly the flipped rows of the accounts before the last one it reached whose token was renewed, and nothing if none was |
| MarkAllReadTheorems.OnlyALogoutAborts | backend/app/api/routes_messages.py:160-182 | the request fails exactly when a logout fails on an account that connected, or the last commit does |
| MarkAllReadTheorems.AFailedCallEndsItsAccount | backend/app/api/routes_messages.py:167-178 | no call of an account follows a failed one |
| MarkAllReadTheorems.OtherAccountsFailuresDoNotMatter | backend/app/api/routes_messages.py:160-183 | a completed request stores every row of an account whose own connection and calls succeed |
| MarkAllReadTheorems.ALogoutFailureForgets | backend/app/api/routes_messages.py:179-182 | the server was told, the logout failed, and the database has nothing |
| ActivityStore.ShownIsNeverOlderThanTheStream | frontend/src/store/activityStore.ts:37-60 | for every interleaving of events and replies the list shown is no older than the last event received, and empty after a disconnect until something newer comes |
| ActivityStore.AppliedRequestsGrow | frontend/src/store/activityStore.ts:44-53 | the applied request numbers and the revision never decrease |
| ActivityStore.AnOverlappingReplyMayGoBack | frontend/src/store/activityStore.ts:51-54 | in a reachable state the reply to a later request shows an older list than an earlier reply did |
| ActivityStore.ListGoesBackExactly | frontend/src/store/activityStore.ts:43-54 | a reply takes the list back exactly when it counts and was rendered before the version shown; then an earlier request, still in flight when this one was made, brought that version |
| ActivityStore.OneAtATimeNeverGoesBack | frontend/src/store/activityStore.ts:43-54 | if a request is made only when none is in flight, the list never goes back between stream events |
| ActivityStore.LocalItemsStayNumbered | frontend/src/store/activityStore.ts:31-35 | own items stay in the order they were begun, under distinct ids |
| ActivityStore.FinisherRemovesOnlyItsOwn | frontend/src/store/activityStore.ts:31-35 | a finisher removes exactly its own item, may be called again, and undoes its action |
| ActivityStore.VisibleWorkIsComplete | frontend/src/store/activityStore.ts:62-77 | own actions come first, each once, by priority and then most recent; of the server's items exactly those no own action accounts for follow, in the server's order |
| ActivityStore.ActivityState.constructor | frontend/src/store/activityStore.ts:22-29 | the store starts empty |
| ActivityStore.ActivityState.Begin | frontend/src/store/activityStore.ts:31-33 | the action is appended under a new id, which is returned |
| ActivityStore.ActivityState.Finish | frontend/src/store/activityStore.ts:34-34 | the filter removes exactly the id |
| ActivityStore.ActivityState.ReceiveActivity | frontend/src/store/activityStore.ts:37-39 | the list is replaced and the revision advances |
| ActivityStore.ActivityState.OpenRefresh | frontend/src/store/activityStore.ts:43-44 | a request captures revision and number |
| ActivityStore.ActivityState.CloseRefresh | frontend/src/store/activityStore.ts:48-57 | a reply counts only if nothing came since and no later request was applied; a refused one changes nothing |
| MimeParts.WalkVisitsLeaves | backend/app/services/mail_parser.py:52-54 | skipping multiparts, the walk meets the tree's leaves in order |
| MimeParts.DecimalIsInjective | backend/app/services/mail_parser.py:93-93 | two indices read the same exactly when they are the same |
| MimeParts.NumberedAreLeaves | backend/app/services/mail_parser.py:50-58 | the numbered parts are exactly the qualifying leaves, each under its own number, in order |
| MimeParts.ListedIndicesIncrease | backend/app/services/mail_parser.py:74-85 | the listed indices are distinct and increasing |
| MimeParts.ListedIndexRoundTrips | backend/app/services/mail_parser.py:74-96 | extracting by a listed index returns that leaf's content, with the listed type, name and size |
| MimeParts.UnlistedIndexIsRejected | backend/app/services/mail_parser.py:90-96 | an index is rejected exactly when it is not listed, whatever the text |
| MimeParts.ListedExactlyWhenQualifying | backend/app/services/mail_parser.py:55-58 | a leaf is listed exactly when it qualifies |
| MimeParts.IterAttachmentParts | backend/app/services/mail_parser.py:50-58 | the counter passes over every leaf and over no multipart |
| MimeParts.ParseAttachments | backend/app/services/mail_parser.py:74-85 | the loop lists one description per numbered part |
| MimeParts.ExtractAttachment | backend/app/services/mail_parser.py:90-96 | the loop returns the part under the index, or reports none |

## Left out

- Real input and output: IMAP, SMTP and Graph calls, sockets, threads, SQL. The server is the environment of `MailServer`, every call may fail.
- Header, MIME and address parsing, base64, JSON and ISO date codecs: a cursor is an abstract (date, id) pair, an envelope a subject and two dates.
- The text and HTML body chosen by `parse_full_message`, reply and forward composition.
- OAuth, cryptography, sessions, configuration, migrations, the command line, React components.
- Local row ids drawn anew after SQLite reuses them: ids come from a counter.
- The order in which paths sort: discovery is proved for every order of LIST.
- `display_name` of folders, the texts of errors and labels, timestamps shown to the user.
- Edits of rows by the message routes while a pass is running, and other tabs seeing them: those routes publish no folder event.
- Publications of the worker after its commits are `Other` events of the stream; which folder they name is not modelled.
- The queries that select unread rows, and the account, folder, unread and notification filters of the list: a table is any set of matching rows.
- Presence leases, the back-off formula, health colours, the shutdown of the scheduler.
- A folder pass's final commit that takes effect although its caller sees it fail or is cancelled: the pass counts as failed and the completed history as unwritten. For every other commit that case is the interruption at the next await.
- Where a stopped watcher was while connecting: `EndToEnd` lets it go on from its back-off sleep too, not only from a failing open, which only adds runs.
- Exact wall-clock times: clocks are arbitrary and non-decreasing.
- The 15-second heartbeat of the stream and the reader's disconnection, which end or idle a reader without changing what it was sent.
- UID ranges against 32-bit limits: UIDs are natural numbers.
- Activity metadata other than parent and state; ids of activities are fresh numbers instead of random ones.
- Fields of a client work item the filter does not read.
- The account lock inside a watcher: `Sockets` lets watchers open connections in every order, which only adds interleavings.
- MirrorRuns.HistoryNeverNotifies: a row counts under the UIDVALIDITY stamped on it, which is the one its pass selected, because a change of UIDVALIDITY in the middle of a pass is noticed only by the next pass.
- EndToEndTheorems.NoLostUpdate: a folder that stays listed and in the inbox; every change of the mailbox is taken to be pushed to a listening watcher, as RFC 2177 has it.
- Sockets.EndedWatchersLetGo: a shutdown that raises counts as done, since the connection is then gone.
- Supervisor.Scheduler.Tick: begins after the wait for retired passes and the reading of accounts and folders; the wait itself is an await before it.
- MarkAllRead.Session.Run: a token renewal whose commit fails is not among the failures, because what the session then still holds is the database layer's affair.
- MarkAllReadTheorems.EachRowIsSentOnce: rows, not UIDs, are counted; within one folder the mirror keeps UIDs unique (`MirrorRuns.PassSound`).
