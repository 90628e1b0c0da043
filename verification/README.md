# Polycheck offline client: a verified model

Polycheck is an attendance system. Its Android client keeps working without a network: scans,
check-ins and session operations go into an encrypted per-account SQLite queue, a drain pass sends
them when the network returns, and an optimistic cache shows scans that the server has not confirmed
yet. This project models that protocol and proves what it keeps under lost requests, lost replies,
account switches, concurrent calls and process restarts. It also covers the client's smaller exact
algorithms: the trusted clock and QR windows, the assistant's stream reducer, three encoders, the
chunked bulk import and the notification merge.

`dafny verify dfyconfig.toml` checks everything.

## How the model is laid out

- `QueueTable`: the queue table, the texts written to `last_error`, the queries over them.
- `DrainPass`: one drain pass as a recursive function of its snapshot and of a script that says, row
  by row, which account is active and what `send` answers; its laws.
- `OfflineStore`: the store as a class with `activeOwnerId`, the in-flight flag and the table, its
  loops proved against the two modules above.
- `SyncMachine`: the same pass cut at every await point, interleaved with enqueues, retries, account
  switches, more drain calls and restarts. Events that cannot happen change nothing, so a claim about
  runs is a claim about all lists of events.
- `WholePass`: what the machine does do: whole drain calls, retries, restarts, failures.
- `SendCallback`: what the callback of `syncOfflineQueue` answers, as a function of the server's replies.
- `QueueViews`: the drain query, the counter and the issue list compared over whole runs.
- `EndToEnd`: the machine composed with an adversarial server. Requests and replies are lost, refused,
  or delivered late and more than once; batches are queued, receipts dropped, stored replies forgotten
  and answered with 409, and other devices change sessions at any moment.
- `Reconciliation`: what can make the client give an operation up, over whole plays.
- `Delivery`: a play from nothing to a delivered operation.
- `AttendanceCache`: the optimistic cache against the queue, one API call at a time.
- `AccountSwitch`: the caches of all accounts when the account changes while a scan is being sent.
- `TrustedClock`, `QrWindow`: the clock offset with its error bound, and the windows it feeds.
- `AssistantState`, `Base64`, `Envelope`, `Csv`, `BulkImport`, `Notifications`: one module per core.

The server is an assumption, not a model of the backend. It promises four things:

1. It applies no request whose idempotency token it has applied before: the student and the client
   attempt id of a scan (backend/src/attendance/scan-validator.service.ts:38-85), the operation id in the
   header of anything else (backend/src/common/interceptors/idempotency.interceptor.ts:48-97). There the
   backend keeps a header for ten minutes only (line 17), so the promise goes further than the backend does;
   in the model the stored reply may be gone, and then a repeated session operation gets a 409.
2. It reports success, or a recorded scan, only after applying the request.
3. An accepted activation leaves its token in its slot, unless the in-person window has run out on the
   server: then the session ends and holds no token (backend/src/sessions/sessions.service.ts:367-380).
4. Sessions do not disappear; ending one clears its tokens (backend/src/sessions/sessions.service.ts:623-634).

Evidence for the first is also in plan/README.md:28 and performance/attendance-load.js:141-143. Instants are
milliseconds.

## Where the code does not do what one would expect

The model follows the code. Each of these has the exact condition and the failing case.

- Drain query and counter use `LIKE 'terminal:%'`, the issue list uses `startsWith('terminal:')`, and LIKE
  ignores case. The views agree over every run in which no failure caught by a pass is a case variant such
  as "Terminal: x" (`ViewsAgreeOverRuns`, `ViewsAgreeInPlays`); such a failure of a write splits them
  (`CaughtTextDecides`, `CapitalisedFailureSplitsTheViews`).
- An enqueue ignores an id that is already queued, and the scan is shown all the same
  (`SubmitCoversIff`, `ReusedAttemptIdLosesAScan`).
- Optimistic rows are removed by session. `OpenScansAreShownIff` says when every open scan keeps a row;
  `SyncingStartDropsTheEndRow` is the family of runs in which it does not.
- Cache writes go to the account signed in when the reply arrives. `AlwaysCoveredIff` says when a switch
  strands a row; `RecordLandsWithTheWrongAccount` says where the record goes.
- A scan without a client attempt id can take effect twice (`ExactlyOnce`, `ScanRepeatsIff`).
- A late in-person activation whose reply is lost can be given up although the server applied it
  (`AppliedIsGivenUpIff`, `LostCommitIsSeenIff`).
- Envelopes with missing padding, white space or stray pad bits are read, though encryption never writes
  them (`AcceptedIff`, `CanonicalEnvelopeIff`, `PaddingMayBeMissing`).
- A printed CSV without rows reads back as one line with an empty field (`RoundTripIff`).
- The 30-second slack covers clock error only up to a bound on the two measured requests, which no timeout
  in the code enforces: the timer of a request stops at its headers, android/services/api-client.ts:130-139
  (`TimelyScansPassIff`, `LateScansFailIff`).
- A local assistant text is replaced by a server text that is at least as long, and even by a shorter one if
  the server holds its id as a user message (`TextIsKeptIff`, `TextIsNotShortenedIff`).
- A key store that fails once quarantines a readable row unsent: android/services/offline-crypto.ts:20-36 and
  android/services/offline-store.ts:375-382. `NothingOvertakes` and `OperationIsNotGivenUp` name that exception.

## Model

| member | source | states |
|---|---|---|
| QueueTable.TerminalTextReadsBack | android/services/offline-store.ts:388-396 | a terminal text fits 500 characters, counts as terminal for both LIKE and startsWith, and stripping its tag gives the first 490 characters of the error |
| QueueTable.RetryableTextReadsBack | android/services/offline-store.ts:398-406 | a retryable text fits 500 characters, stays selectable, and stripping its tag gives the first 489 characters of the error |
| QueueTable.RawTextReadsBack | android/services/offline-store.ts:409-410 | a thrown message is kept in its first 500 characters, any other thrown value as a fixed text |
| QueueTable.OperationIdsAreInjective | android/services/offline-store.ts:341-345 | equal operation ids mean the same kind and the same attempt or random id |
| QueueTable.PendingIds | android/services/offline-store.ts:431-436 | the ids counted as pending are exactly the owner's rows with no text or no terminal text |
| QueueTable.SnapshotSize | android/services/offline-store.ts:365-371 | every order the query may return takes min(100, pending) of the pending rows, whichever rows ties in creation time pick |
| DrainPass.PassIsPointwise | android/services/offline-store.ts:372-420 | the loop equals a description without a loop: row j changes as its own visit says if every earlier row lets the loop go on, and is untouched otherwise |
| DrainPass.NoOvertaking | android/services/offline-store.ts:386-408 | when a row is sent, each earlier row of the snapshot ends the pass deleted or terminal unless its own reply was "pending" |
| DrainPass.PassNeverRaisesPending | android/services/offline-store.ts:365-420 | whatever happens in a pass, the pending ids afterwards are among those before |
| DrainPass.SettledPassTakesItsSnapshot | android/services/offline-store.ts:365-408 | if everything settles, the pending ids lose exactly the snapshot |
| DrainPass.ProgressBound | android/services/offline-store.ts:365-409 | k passes in which everything settles leave exactly max(0, n - 100k) pending rows |
| DrainPass.PassesNeeded | android/services/offline-store.ts:365-409 | the pending rows are empty after k such passes iff k >= ceil(n / 100) |
| OfflineStore.Store.SetOfflineOwner | android/services/offline-store.ts:98-100 | switches the active account and touches nothing else |
| OfflineStore.Store.EnqueueOfflineOperation | android/services/offline-store.ts:336-355 | adds a fresh row with the evidence and zero attempts, leaves every present row (the same id included) as it was, and fails without database or account, changing nothing |
| OfflineStore.Store.RetryOfflineOperation | android/services/offline-store.ts:461-465 | makes the active account's row pending again with all its other columns, changes no other row, fails without an account |
| OfflineStore.Store.GetPendingSyncCount | android/services/offline-store.ts:427-438 | returns the size of the set of pending ids, 0 without database or account |
| OfflineStore.Store.GetOfflineQueueIssues | android/services/offline-store.ts:442-457 | lists every row of the account once, in creation order, with its stripped error and failed flag, and its session id, or "Unavailable" if that is absent or the evidence cannot be opened |
| OfflineStore.IssueReads | android/services/offline-store.ts:449-456 | what a listed row shows: kind, session or "Unavailable", the first 490 or 489 characters of the error it was given up or put off with, and the failed flag |
| OfflineStore.Store.SelectForDrain | android/services/offline-store.ts:365-371 | returns the oldest hundred selectable rows, complete when fewer, in creation order |
| OfflineStore.Store.DrainOfflineQueue | android/services/offline-store.ts:357-425 | a first call leaves the queue that the recursive pass computes on some snapshot of it; a call during a pass changes nothing; it fails without an account |
| OfflineStore.Store.DrainRows | android/services/offline-store.ts:372-420 | the loop with its breaks, continues, corrupt payloads and owner checks computes the recursive pass |
| SyncMachine.RunKeepsInv | android/services/offline-store.ts:357-425 | in every run each snapshot row a pass has still to visit is unchanged and selectable, only attendance scans are left waiting, writes carry attempts + 1, and texts fit 500 characters |
| SyncMachine.SingleFlight | android/services/offline-store.ts:360-425 | at most one pass exists in any reachable state |
| SyncMachine.DeletionWasAcknowledged | android/services/offline-store.ts:386-408 | a pass that awaits a deletion was answered "synced" or nothing for that same account and id, and has awaited the deletion ever since |
| SyncMachine.Conservation | android/services/offline-store.ts:336-425 | over every interleaving an operation queued at some point is still queued unchanged, or was deleted by a pass that had awaited exactly that deletion ever since a reply ordered it |
| SyncMachine.ReEnqueueIsIdle | android/services/offline-store.ts:346-354 | enqueueing a present id leaves the whole state as it was |
| SyncMachine.AttemptsCountFailedVisits | android/services/offline-store.ts:375-418 | writing back the snapshot's attempts plus one is exact: attempts equals the number of failed visits since the enqueue, pending visits not counted |
| SyncMachine.OwnerIsolation | android/services/offline-store.ts:361-424 | over every run passes for other accounts leave a row alone: only its own account's passes, a retry or an enqueue of its id change it |
| SyncMachine.NoSendWhileAway | android/services/offline-store.ts:373-386 | from the moment an account is left no row of it starts to be sent until it returns |
| SyncMachine.TerminalIsAbsorbing | android/services/offline-store.ts:365-465 | until it is retried by hand a terminal row is neither sent nor deleted nor changed, over any run |
| SyncMachine.NothingOvertakes | android/services/offline-store.ts:365-419 | over every run a pass has read its snapshot once, oldest first, and has sent every earlier row of it that it could open; each earlier activation, end or attempt is now absent from the queue or terminal, unless enqueued or retried meanwhile |
| SyncMachine.MachineComputesTheLoop | android/services/offline-store.ts:372-420 | the await-by-await machine, left undisturbed, ends with the table the drain loop computes, for every snapshot and script |
| WholePass.CallStartsAPassIff | android/services/offline-store.ts:357-364 | from any reachable state a drain call starts a pass for the active account exactly if none is in flight and an account is active |
| WholePass.CallComputesTheLoop | android/services/offline-store.ts:357-425 | from any reachable state with an active account and no call in flight, for every snapshot and script: call, pass and promise end with the table the drain loop computes, nothing in flight, and the next call starts another pass |
| WholePass.EnqueuedIsPending | android/services/offline-store.ts:345-354 | an enqueue of a new id adds exactly its row, untried, without a text and pending |
| WholePass.RetriedIsPending | android/services/offline-store.ts:461-465 | over every run a retried row of any kind is pending again, with everything but its text as before, and nothing else changes |
| WholePass.QueuedThenDeleted | android/services/offline-store.ts:336-425 | for any operation there is a run from the empty store that queues it, sends it and deletes it |
| WholePass.RestartKeepsTheQueue | android/services/offline-store.ts:336-425 | a restart keeps the queue, and the next sign-in and call start a pass on it |
| WholePass.FailingPassSettles | android/services/offline-store.ts:372-424 | if from any point on everything a pass does fails, it settles within three failures with the queue as it was, and the store is free again |
| QueueViews.ViewsAgreeOverRuns | android/services/offline-store.ts:365-455 | over every run in which no failure caught by a pass is a case variant of the tag, counter, issue list and drain query speak of the same rows |
| QueueViews.ViewsAgreeInPlays | android/services/offline-store.ts:409-455 | against the real callback, which never throws, only a failing write of the device's own database can bring such a text in |
| QueueViews.CaughtTextDecides | android/services/offline-store.ts:409-418 | in every run the failure of a guarded write is stored, and counter and issue list then agree on that row iff its text is no case variant |
| QueueViews.CapitalisedFailureSplitsTheViews | android/services/offline-store.ts:409-418 | the input: a write that fails with "Terminal: x" makes counter and issue list disagree on the row |
| SendCallback.ClassifiedTerminalIff | shared/src/utils/classify-sync-error.ts:13-33 | an error is terminal iff it contains one of the twelve listed phrases in lower case, and is passed on unchanged |
| SendCallback.ClassificationIgnoresCaseAndContext | shared/src/utils/classify-sync-error.ts:13-33 | each listed phrase, in any letter case and with any text around it, is terminal |
| SendCallback.FailureReads | android/services/api-client.ts:1330-1342 | maintenance is announced and waits, the five refusal statuses are final with their message, every other failure waits with its own |
| EndToEnd.ExchangeIsSound | android/services/api-client.ts:1241-1343 | an exchange leaves a server with no repeated effect, and nothing it held is lost |
| EndToEnd.AcknowledgedMeansHeld | android/services/api-client.ts:1242-1325 | a reply that deletes the row comes only from a server that holds the effect: applied operation, own token stored, or session ended |
| EndToEnd.DeletedMeansHeld | android/services/api-client.ts:1236-1344 | over every play an operation once queued is still queued unchanged, or the server holds its effect |
| EndToEnd.ExactlyOnce | android/services/api-client.ts:1236-1344 | over every play no row takes effect twice unless it was queued as a scan without attempt id, and a scan or attempt that has left the queue has taken effect |
| EndToEnd.EffectsAreNotShared | android/services/api-client.ts:1243-1297 | two rows that have left the queue have two effects, under different idempotency tokens |
| EndToEnd.ScanRepeatsIff | android/services/api-client.ts:1243-1248 | in every play that is sending a scan: some continuation gives its row a second effect iff it has no attempt id |
| EndToEnd.NothingOvertakesEndToEnd | android/services/api-client.ts:1240-1345 | the no-overtaking law, read off the queue table, in every play against the server |
| Reconciliation.OperationIsNotGivenUp | android/services/api-client.ts:1241-1343 | over every play an operation of any kind stays open or is acknowledged while no call speaks against it (a refusal, a first final result or check that rejects for good, an unknown session, for an activation a 409 with another token or an end) and the device opens and writes its row |
| Reconciliation.GivesUpIff | android/services/api-client.ts:1241-1343 | a call is answered terminal iff it speaks against the operation in that sense, told from deliveries and server state |
| Reconciliation.AnswerIff | android/services/api-client.ts:1240-1343 | every answer for every kind, told from deliveries and server state: exactly when a call is acknowledged, left pending, given up or put off |
| Reconciliation.AnswerTexts | android/services/api-client.ts:1253-1342 | a rejected scan or check carries the server's words, a refusal its message, a lost request its failure's text |
| Reconciliation.CallDecides | android/services/offline-store.ts:386-408 | in every play an acknowledged row is about to be deleted, a pending scan passed over untouched, one given up about to be quarantined, and after anything else the pass notes the failure and stops |
| Reconciliation.CallStandsIff | android/services/api-client.ts:1241-1343 | in every play a call leaves a standing operation standing iff it does not speak against it, so the condition of the run theorem is exact |
| Reconciliation.FaultsAndOwnTokensKeepIt | android/services/api-client.ts:1298-1342 | over every play, from before it is queued: an operation whose calls fail transiently, and an activation whose own token is stored around each of its calls, is never given up |
| Reconciliation.OwnTokenIsAcknowledged | android/services/api-client.ts:1299-1315 | in every play, while its own token is stored, an activation answered by success or 409 and read back has its row, and no other, deleted |
| Reconciliation.AppliedIsGivenUpIff | android/services/api-client.ts:1304-1325 | when requests get through, an activation the server applied is given up iff its stored reply is gone and another token or an end is in its place |
| Reconciliation.LostCommitIsSeenIff | android/services/api-client.ts:1291-1325 | a commit whose reply is lost and no longer stored is answered synced by the next call, or given up exactly if it was a late in-person activation that ended its session without a token |
| Delivery.AnyOperationCanBeDelivered | android/services/api-client.ts:1236-1345 | for any operation of a known kind there is a play from nothing that queues it, sends it once and ends with an empty queue and one effect on the server |
| AttendanceCache.ReplacedReads | android/services/offline-store.ts:307-322 | row by row: awaiting rows survive untouched, the student's other rows are the server's, nobody else's row goes away |
| AttendanceCache.AttendanceClient.CacheAttendanceRecords | android/services/offline-store.ts:259-288 | upserts all records in order, keeping rows under their own id |
| AttendanceCache.AttendanceClient.GetCachedAttendanceRecords | android/services/offline-store.ts:290-305 | returns exactly the student's cached rows, or all rows without a student |
| AttendanceCache.AttendanceClient.ReplaceCachedAttendanceForStudent | android/services/offline-store.ts:307-322 | the filter, delete and re-insert compute the replacement that ReplacedReads describes |
| AttendanceCache.AttendanceClient.RemoveCachedAttendanceAttempt | android/services/offline-store.ts:324-334 | exactly the student's rows of that session go |
| AttendanceCache.AttendanceClient.SubmitScanOffline | android/services/api-client.ts:898-926 | queues the scan unless its id is present, and shows it as unsynced |
| AttendanceCache.AttendanceClient.GetMyAttendance | android/services/api-client.ts:1169-1178 | replaces the rows when online, leaves them when not, and returns exactly the student's rows |
| AttendanceCache.AttendanceClient.SyncScanRow | android/services/api-client.ts:1242-1269 | one sent scan changes cache and queue together as the API step says |
| AttendanceCache.SyncedCacheReads | android/services/api-client.ts:1253-1268 | the cache after a sent scan row by row: the server's record in the place of the student's rows of the session, those rows gone after a final rejection, nothing changed otherwise |
| AttendanceCache.OnlineScanIsShown | android/services/api-client.ts:858-861 | a scan answered at once is shown as the server recorded it |
| AttendanceCache.SubmitCoversIff | android/services/api-client.ts:898-926 | showing an offline scan keeps every awaiting row covered iff the id is fresh or its session already has a queued scan |
| AttendanceCache.ReusedAttemptIdLosesAScan | android/services/offline-store.ts:341-354 | one attempt id used for two sessions shows a scan that was never queued |
| AttendanceCache.SyncKeepsCovered | android/services/api-client.ts:1255-1268 | syncing, rejecting or postponing a scan leaves every awaiting row with a queued scan of its session |
| AttendanceCache.NoPhantomRows | android/services/api-client.ts:1255-1268 | over any calls with an attempt id of its own per scan, every unsynced row has a queued scan of its session, so once none is queued no row of the session awaits confirmation |
| AttendanceCache.ShownIff | android/services/api-client.ts:1255-1268 | a call keeps every open scan shown iff it does not drop the rows of a session with another open scan, by recording or by rejecting, nor retry a scan whose row is gone |
| AttendanceCache.OpenScansAreShownIff | android/services/api-client.ts:1255-1268 | over any calls every open scan is shown throughout iff no call is of that kind |
| AttendanceCache.SyncingStartDropsTheEndRow | android/services/api-client.ts:1266-1268 | whenever both ends of a session are queued and shown, syncing one takes the other's row away |
| AccountSwitch.SyncCoversIff | android/services/offline-store.ts:259-334 | a sync leaves every account covered iff it does not record a scan under another account whose waiting row no other scan covers |
| AccountSwitch.AlwaysCoveredIff | android/services/offline-store.ts:259-334 | over any run with account switches in which each account's scans have ids of their own, every account stays covered iff no sync does that |
| AccountSwitch.RecordLandsWithTheWrongAccount | android/services/api-client.ts:1266-1267 | and then the record is in the cache of the account that is signed in |
| AccountSwitch.OneAccountIsTheCache | android/services/api-client.ts:1240-1268 | without switches the many-account device and the one-account cache hold the same queue and rows after the same calls |
| TrustedClock.ClockStore.SetServerClockOffset | android/services/offline-store.ts:467-479 | stores the rounded offset for the active account only |
| TrustedClock.ClockStore.GetServerClockOffset | android/services/offline-store.ts:481-493 | returns the account's offset, or nothing once it is more than a week old |
| TrustedClock.ClockStore.GetTrustedTimestamp | android/services/api-client.ts:475-478 | adds the offset to the device clock, zero if there is none |
| TrustedClock.ClockStore.PreSyncClock | android/services/api-client.ts:1351-1355 | a readable server time becomes the fresh midpoint offset of the active account; no other account's changes |
| TrustedClock.TrustedTimeIsClose | android/services/api-client.ts:1351-1355 | the trusted time is within half the measured round trip plus half a millisecond of server time |
| TrustedClock.StoredOffsetIsTrusted | android/services/offline-store.ts:467-493 | for seven days after a pre-sync the account's trusted time is within the bound of server time, afterwards it is the device clock |
| TrustedClock.PreSyncThenRead | android/services/api-client.ts:475-478 | the same of the store's methods: measure under one account, read under any; another account without an offset gets the device clock |
| TrustedClock.BoundIsReached | android/services/api-client.ts:1351-1355 | a server clock read on sending is off by half the round trip, so the bound is tight up to rounding |
| QrWindow.CheckersAgree | android/services/api-client.ts:863-966 | for every token either generator can issue and every capture time, both offline checkers accept the same interval, refuse the rest as expired, and agree on present or late |
| QrWindow.CachedExpiryIsLastPresentInstant | android/services/api-client.ts:668-769 | a capture counts as present iff it is not after the cached expiry, which is itself present |
| QrWindow.ScanSavedIff | android/services/api-client.ts:863-898 | a scan is saved offline iff its token verifies, its session is cached, an in-person scan brings a real, accurate, fresh location inside the geofence, and it was captured from 30 s before issuance to validity plus grace |
| QrWindow.SavedScanReads | android/services/api-client.ts:899-924 | a saved scan is disputed iff the device was flagged, pending iff otherwise online, present or late by the capture time otherwise, with check-in or check-out exactly for online tokens |
| QrWindow.RefusalNamesTheFirstFault | android/services/api-client.ts:864-897 | which error a scan with several faults is refused with |
| QrWindow.CheckQueuedIff | android/services/api-client.ts:942-969 | a check is queued iff class data and clock offset are there, the token verifies and belongs to the session, the place is right, and it was captured inside the window and not after the end; present iff within validity |
| QrWindow.CheckNamesAFault | android/services/api-client.ts:944-966 | any other answer names a fault the check has |
| QrWindow.QrCodeIssuedIff | android/services/api-client.ts:610-633 | which in-person tokens are issued, and the validity and grace they carry |
| QrWindow.CheckpointIssuedIff | android/services/api-client.ts:685-723 | which checkpoint tokens are issued: whole seconds from 60 to 300, minutes rounded up, no grace at the end |
| QrWindow.SlackCoversClockError | android/services/api-client.ts:895-897 | the same in terms of the error bound of TrustedTimeIsClose: bounds that sum to at most 30 s suffice, and scans late by more than their sum are refused |
| QrWindow.EndIsNeverLate | android/services/api-client.ts:876-969 | an end-checkpoint token is never late for either checker, whatever grace it carries |
| QrWindow.TimelyScansPassIff | android/services/api-client.ts:895-897 | no scan truly made after issuance and stamped within grace is refused iff the teacher's clock can be ahead and the student's behind by at most 30 s together, given when their requests began and ended |
| QrWindow.LateScansFailIff | android/services/api-client.ts:895-897 | scans truly late by more than a margin are always refused iff that same sum is within the margin |
| AssistantState.ForeignEventsDoNotInterfere | android/lib/assistant-state.ts:86-122 | folding any event list equals folding its concerning events only |
| AssistantState.HandledIff | android/lib/assistant-state.ts:86-122 | an event is handled iff it concerns the guard, others change nothing, and done and error are exactly those of concerning events |
| AssistantState.OnlyTheGuardedMessageChanges | android/lib/assistant-state.ts:9-31 | any event list keeps ids unique, the order and every other message, and adds at most the guarded one at the end |
| AssistantState.ContentIsTheStream | android/lib/assistant-state.ts:17-31 | under any guard, with or without a message: until it is done a reply of the thread is its initial content followed by the deltas for it in order |
| AssistantState.OnlyRepliesAreStreamed | android/lib/assistant-state.ts:24-27 | user messages and messages of other threads take no deltas, even those addressed to their id |
| AssistantState.GuardedStreamIsAll | android/lib/assistant-state.ts:17-31 | under a guard with a message nothing else happens to the thread |
| AssistantState.FinishedReplyIsInstalled | android/lib/assistant-state.ts:9-31 | after any events a finished reply is in the thread as the server sent it, and later deltas extend exactly it |
| AssistantState.ReconcileStoppedThread | android/lib/assistant-state.ts:54-84 | the map and the push loop compute the preferred server rows followed by the carried local ones |
| AssistantState.ReconciledShape | android/lib/assistant-state.ts:54-84 | ids stay unique, the server's rows come first in order with only content changed and never shortened, user messages come only from the server |
| AssistantState.TextIsKeptIff | android/lib/assistant-state.ts:54-84 | a non-blank local assistant text is kept word for word iff a server row of its id, if any, has the same text or is the assistant's with a shorter one |
| AssistantState.TextIsNotShortenedIff | android/lib/assistant-state.ts:54-84 | it is never shortened iff the server does not hold its id as a user message with less text |
| AssistantState.LocalMessageRemainsIff | android/lib/assistant-state.ts:73-81 | a local message is there after reconciling iff the server has its id or it is the assistant's and not blank |
| AssistantState.LongerPrefixWins | android/lib/assistant-state.ts:59-71 | if local and server text are prefixes of one reply the result is the longer of them |
| AssistantState.ReconcileIsIdempotent | android/lib/assistant-state.ts:54-84 | reconciling with the result as server copy changes nothing |
| AssistantState.ReconcileIsStable | android/lib/assistant-state.ts:54-84 | reconciling the result with the same server copy changes nothing |
| Base64.BytesToBase64 | android/lib/base64.ts:8-32 | the loop computes the group-by-group encoding |
| Base64.DecodeEncode | android/lib/base64.ts:8-32 | a strict decoder reads every output back as the input |
| Base64.EncodeDecode | android/lib/base64.ts:8-32 | the outputs are the only texts the strict decoder accepts |
| Base64.EncodedLength | android/lib/base64.ts:10-29 | the output has 4 * ceil(n / 3) characters |
| Base64.EncodeConcat | android/lib/base64.ts:10-24 | encoding distributes over concatenation at multiples of three bytes |
| Base64.NoDots | android/services/offline-crypto.ts:44 | an encoding contains no dot, so it can stand in the envelope |
| Base64.AtobUndoesEncode | android/services/offline-crypto.ts:9-18 | the forgiving decoding of `atob` undoes the encoding |
| Base64.CanonicalIff | android/services/offline-crypto.ts:15-18 | what it decodes is the encoder's own text iff the strict decoder accepts it |
| Envelope.EnvelopeSplits | android/services/offline-crypto.ts:44-49 | splitting the envelope at dots gives prefix, nonce and ciphertext back |
| Envelope.DecryptUndoesEncrypt | android/services/offline-crypto.ts:39-69 | what was sealed is read back, for any cipher and printer that undo each other |
| Envelope.AcceptedIff | android/services/offline-crypto.ts:47-69 | a text decrypts to a value iff it is the prefix and two parts that `atob` decodes to a 24-byte nonce and a ciphertext which opens and parses to that value |
| Envelope.UnsupportedIff | android/services/offline-crypto.ts:48-52 | a text is unsupported iff it is not the prefix and two non-empty parts with dots between |
| Envelope.CanonicalEnvelopeIff | android/services/offline-crypto.ts:44-49 | such a text is the one encryption writes iff both parts are strictly encoded |
| Envelope.PaddingMayBeMissing | android/services/offline-crypto.ts:15-18 | an envelope without its padding is a different text and decrypts to the same value |
| Csv.GuardedCellsAreInert | android/components/BulkImportSheet.tsx:91-95 | no guarded cell starts with =, +, -, @, tab or carriage return; exactly the cells that would get one apostrophe |
| Csv.ReadUndoesPrint | android/components/BulkImportSheet.tsx:91-99 | a reader for RFC 4180, section 2, gives back exactly the guarded cells |
| Csv.RoundTripIff | android/components/BulkImportSheet.tsx:97-99 | that round trip holds iff there is a row and no row is empty |
| BulkImport.ChunkRows | android/components/BulkImportSheet.tsx:75-79 | chunks concatenate to the input, none is empty or too large, only the last is short |
| BulkImport.RealRunsHaveDistinctKeys | android/components/BulkImportSheet.tsx:236-249 | run ids of up to 120 characters and plans of up to 100 000 chunks always have distinct keys |
| BulkImport.ExecuteImport | android/components/BulkImportSheet.tsx:253-288 | the loop computes the recursive run: requests in order, totals, credentials, stop and failure |
| BulkImport.RunKeepsPrefix | android/components/BulkImportSheet.tsx:253-288 | a run keeps the applied chunks a prefix, never shorter; its report totals each number of exactly the answered chunks, and it fails or stops early only for a cause |
| BulkImport.ImportIsExactlyOnce | android/components/BulkImportSheet.tsx:253-288 | over any runs with failures, stops and retries the applied chunks are a prefix, and a full last run has every row applied once, in order, and fully reported; run ids of up to 120 characters and lists of up to 5000 rows |
| Notifications.MergeNotifications | android/lib/notifications.ts:34-45 | the result is ordered, free of duplicates, and holds the newest entries of the union, the incoming version winning |
| Notifications.NewestFirstReads | android/lib/notifications.ts:42-44 | ordered means by position: no id twice and no entry before a newer one |
| Notifications.MergeIntoTop | android/lib/notifications.ts:34-45 | merging a batch into a capped list gives a capped list of everything seen: what the cap dropped never mattered |
| Notifications.StreamKeepsTheTop | android/lib/notifications.ts:34-45 | merging batch by batch always shows the newest of everything seen so far |
| Notifications.StreamingEqualsBatch | android/lib/notifications.ts:34-45 | with times fixed per id and distinct across ids, merging batch by batch equals one merge of everything |

## Left out

- SyncMachine.Conservation: enqueues and retries may land for any account, a superset of what the captured owner allows.
- SyncMachine.NothingOvertakes: assumes that only attendance scans are answered "pending", which SendCallback.OnlyScansPend proves of the callback.
- EndToEnd.ExactlyOnce: assumes a server that recognises a token for ever; the backend forgets a header after ten minutes, and what happens then is modelled only as far as it answers 409.
- Reconciliation.OwnTokenIsAcknowledged: speaks of the token stored when the call begins and when the session is read back, not of changes made afterwards.
- AttendanceCache.NoPhantomRows: one API call is one step, server records are never marked unsynced, and the scanning student is the signed-in user. A scan whose evidence cannot be opened changes no cache row and is left out of the calls.
- AccountSwitch.AlwaysCoveredIff: the account is read once per reply, so a switch between the removal and the insert of one reply does not appear.
- EndToEnd.AcknowledgedMeansHeld: a receipt belongs to one row's request; the backend also shares it between equal batches of one account.
- AttendanceCache.AttendanceClient.GetCachedAttendanceRecords: returns the rows as a set; their order by caching time is not modelled.
- BulkImport.ImportIsExactlyOnce: one validated plan; a new mapping in the same dialog reuses the keys, and nothing is claimed across mappings.
- BulkImport.ExecuteImport: the progress display and the "Import finished" notice, which the screen also shows after a stop, are not modelled.
- Notifications.MergeNotifications: ISO timestamps are integers, so locale collation does not appear; a negative limit is not modelled.
- QrWindow.CheckersAgree: durations are finite numbers (a NaN validity passes the generators' comparisons), and the check for an ended session is excluded by its premise.
- Base64.BytesToBase64: shifts and masks are written as division and remainder.
- Envelope.AcceptedIff: `atob` is the forgiving base64 decoding of the Infra Standard; a runtime that departs from it is not modelled.
- Reconciliation.OperationIsNotGivenUp: a failing local cache write inside the callback appears as a failure of the request before it.
- SQLite, SecureStore and the network: tables are maps and requests have outcomes; statements are atomic.
- Cryptography, JSON, geofences, PIN hashes and QR signatures: an open function, a parse function and booleans stand for them.
- Characters are whole code points; UTF-16 units and lower-casing outside ASCII are not modelled.
- `mergeSummaries` and the validation loop of the import: single sums without a harder claim.
- Session, section and subject caches, the migration of old tables and the web platform (beyond a missing database): no invariant with the queue.
- Sign-out on 401, session replacement and the maintenance screen: outside the queue's state.
- Unread counts, notification routes and settings: one-branch functions.
- React screens, hooks and the assistant's timers: only the pure reducer is modelled.
