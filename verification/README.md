# A Dafny model of the access process

This project models the stateful core of anytty's access process and of the command-line peers that
talk to it, and proves what every run of it guarantees.

Each concurrent or durable part is a state machine: a value for the whole state, a step for every
critical section, frame, timer or crash, and a fold over arbitrary event lists, so that a statement
about `Run` is a statement about every interleaving. Beside a machine stand the objects that the
program mutates; their methods are written as the program writes them and are proved to make exactly
the machine's steps.

| files | what they model |
|---|---|
| `UploadState`, `UploadMachine`, `UploadInvariant`, `UploadSteps`, `UploadRuns` | resumable uploads, one event per critical section, store access or file operation: opens, frames, closes, aborts, cancels, expiry, crashes; the invariant of every run |
| `UploadGuarantees`, `UploadSaves`, `UploadTargets`, `UploadSerial`, `UploadOverlaps` | what is exact in every run, how far stored offsets lag, and the two caller mistakes that void exactness |
| `UploadResumes`, `UploadUnlinked`, `UploadGone`, `UploadNamed`, `UploadWaits`, `UploadCancels`, `UploadFailures` | when an open resumes and from where; overlapping operations on one upload: exact conditions and failing runs |
| `UploadScripts`, `UploadCalls`, `UploadOperations`, `UploadService`, `UploadClient` | the service object, piece by piece and whole operations, as runs of the machine, and the uploading command |
| `Download`, `DownloadPeers`, `DownloadAlone` | the credit-window download between server and command-line client, with the frames in flight; each party against any peer |
| `Estimator` | chunk and window sizes from measured round trips, in 64-bit arithmetic |
| `CloudLifecycle`, `CloudRuns`, `CloudRuntime` | lifecycle revisions, acknowledgements and Cloud session admission |
| `ProxyBuffers`, `ProxyProtocol` | the proxy's byte ring, its credit window, and both composed into one protocol with wakeups |
| `SessionRegistry`, `ServerSession`, `AttachmentStream` | channel and token tables of a session; generation-fenced stream start |
| `PathNames`, `PathResolver`, `RootedPaths`, `RootConfig` | symbolic-link resolution and containment in configured roots |
| `LoginLimiter` | the login limiter and session table of the local web server |
| `ContextPrinter`, `Highlight` | grep-style output of history search and the in-place merge of match ranges |
| `Pagination`, `Decimal` | directory pages, cursors and the client loop that follows them |

`dafny verify dfyconfig.toml` checks the whole project.

## What the model takes for granted

- A file write or a change of the stored map is all-or-nothing; saving the map may fail, which leaves
  the map in memory changed. What the store saves is the map as it is at that moment.
- New transfer IDs and temporary names do not repeat (`FreshUpload`). Nothing is assumed about
  SHA-256, which is a function parameter, nor about the random part of stream tokens.
- A file that is downloaded, a tree that is resolved and a directory that is listed do not change
  meanwhile; a lookup through a non-directory is an error. Paths are Unix paths.
- Clocks do not go back. Connection IDs are new and not empty. 64-bit generation counters do not wrap.

## Where the code falls short of the general property

- A publish is exact only for targets that are not themselves names of the temporary-file form:
  `UploadTargets.SafeTargetIffNotTempName` gives the exact condition,
  `UploadTargets.TempNamedTargetBreaksPublish` the failing runs.
- And only in runs in which opens of one upload come one after the other, which nothing in the service
  ensures: a second one cuts the file back under the first (`UploadSerial.SerialRunIsExact`,
  `UploadOverlaps.OverlapBreaksPublish`). All other results on uploads are about runs without either.
- The deletion of a record need not be final: a resume that has looked the record up stores it again,
  and goes on with a file that has lost its name (`UploadGone.DeleteIsFinalIff`,
  `UploadNamed.OpenUploadStaysResumableIff`, `UploadFailures.ResumeUndoesCancel`). Only the record comes
  back: once a step has removed the file's name, the upload is never published, without any condition
  (`UploadUnlinked.RemovedIsNeverPublished`).
- An expiry pass works on a copy of the store, so it can remove a record that was renewed after the
  copy was made (`UploadWaits.ClosedUploadWaitsIff`, `UploadFailures.StaleExpiryDropsRenewed`).
- A cancel can answer yes and remove nothing, because Close and abort share one once-guard
  (`UploadFailures.CancelAnswersYesAndKeepsRecord`). It can also answer yes and leave the upload published,
  because frames do not look at the guard: a finish that is accepted while the cancel waits for the lock
  goes through (`UploadFailures.CancelAnswersYesAndPublishes`). `UploadCancels.CancelRemovesIff` gives the
  exact conditions for both.
- The uploading command accepts advertised chunks up to 1 MiB, the server at most 64 KiB per frame; and
  an open whose store update fails leaves its record behind: `UploadClient.UploadEndpointFile` states
  exactly when an upload completes and when a record is left, and `Estimator.PolicyIsBounded` that the
  server itself never advertises more.
- Resolving the text of a result again is not the identity when its last name ends in space, which
  request parsing trims (`RootedPaths.ResolveAgainIff`, `RootedPaths.SpacedResultIsLost`).
- The doubled bandwidth-delay product is computed in 64 bits; when the product wraps, the window may
  fall to its minimum (`Estimator.BusyUnlessProductWraps`, `Estimator.WrappedProductStarves`).
- A provider hands out the same stream until it is closed. A second bootstrap that comes while a
  stream is starting, installed or about to be closed therefore shares it, and loses it when the other
  one closes it: `AttachmentStream.StartIsSafeIffQuiet` gives the exact condition,
  `AttachmentStream.PendingCloseReachesNextStart` the shortest run.
- A client that is blocked by its own failures is told to wait for the end of its own window, although it is free
  again as soon as the global window ends (`LoginLimiter.RetryAfterDelayIsAllowed`).
- A list cursor whose offset is negative makes the page slice fault (`Pagination.PageContinues`,
  `Pagination.NegativeCursorFaults`).

## Model

| member | source | states |
|---|---|---|
| `UploadRuns.StepInv` | access/files/transfer_service.go:196-686 | every single step of an open, frame, close, takeover, abort, cancel or expiry pass, every crash after any of them, and every foreign file change keeps: a temporary file holds exactly the accepted bytes while its name leads to it, at most one handle of an upload can write, handles, table, store and saved store agree, publications are exact |
| `UploadRuns.RunInv` | access/files/transfer_service.go:196-686 | that invariant holds after every interleaving of such steps of any number of uploads |
| `UploadRuns.AloofStep` | access/files/transfer_service.go:196-686 | an event leaves every upload that it is not about exactly as it was: record, file and name, handles, open and removals in progress |
| `UploadSteps.HandleEventInv` | access/files/transfer_service.go:539-657 | frames, Close and abortAndRemove, one piece at a time and whatever came between, keep the invariant |
| `UploadSteps.AdvanceInv` | access/files/transfer_service.go:216-316 | takeover, store lookup, validation and cutting back, store update and listing of a resume, each on its own, keep the invariant |
| `UploadSteps.RemoveInv` | access/files/transfer_service.go:343-364 | the table lookup, store lookup, file removal and record deletion of a cancel or expiry, each on its own, keep the invariant |
| `UploadSteps.RenameInv` | access/files/transfer_service.go:673-686 | the rename installs the accepted bytes and from then on nobody can write to them |
| `UploadRuns.RebootInv` | access/files/transfer/record.go:111-146 | a restart on the saved store, which may be older than the one in memory, keeps the invariant |
| `UploadGuarantees.EveryPublishIsExact` | access/files/transfer_service.go:575-607 | every publish of every run installed exactly `size` bytes, the accepted ones, whose digest is the one the client declared |
| `UploadGuarantees.PublishesAtMostOnce` | access/files/transfer_service.go:575-607 | no upload and no handle publishes twice in any run |
| `UploadGuarantees.OpenFileIsExact` | access/files/transfer_service.go:255-286 | whatever overlaps, the file of an open handle holds exactly the hashed bytes up to the offset, no other handle of the upload is open, and stored and saved offsets are at or before it |
| `UploadGuarantees.ResumeKeepsPrefix` | access/files/transfer_service.go:216-286 | a resume that finds the file goes on at the recorded offset with exactly the accepted bytes before it hashed and on disk |
| `UploadGuarantees.TakeoverIsByAnother` | access/files/transfer_service.go:216-222 | in every run an active upload is only taken over by another owner than its own |
| `UploadSaves.OffsetIsSavedOrRecent` | access/files/transfer_service.go:659-671 | in every run, the offset stored for an open upload, or about to be stored, lags behind the accepted bytes by exactly the frames since the last save, and each of these came less than half a second after that save |
| `UploadTargets.SafeTargetIffNotTempName` | access/files/transfer_service.go:243-243 | a target can be used in every otherwise well-behaved run with all publishes exact if and only if it is not a name of the temp-file form |
| `UploadTargets.TempNamedTargetBreaksPublish` | access/files/transfer_service.go:673-686 | for every temp-form name there is a run that publishes one upload's bytes under another's size and digest |
| `UploadSerial.SerialRunIsExact` | access/files/transfer_service.go:216-316 | with any number of opens in progress beside each other, publishes are exact in every run in which no open of an upload begins while another one of it is in progress |
| `UploadSerial.SerialIsMachine` | access/files/transfer_service.go:216-316 | such a run is, apart from where the opens are kept, a run of the machine, so that all results on its runs carry over |
| `UploadOverlaps.ExactIffOpensDoNotOverlap` | access/files/transfer_service.go:216-316 | publishes are exact in all runs with well-behaved targets if and only if the runs are held to opens of one upload that come one after the other |
| `UploadOverlaps.OverlapBreaksPublish` | access/files/transfer_service.go:216-316 | a run with two overlapping resumes that publishes an empty file under the size and digest of one byte |
| `UploadUnlinked.UnnamedIsNeverPublished` | access/files/transfer_service.go:673-686 | whenever the temporary file of an upload has lost its name, no continuation publishes the upload or gives the name back, whatever frames, closes, resumes and crashes come |
| `UploadUnlinked.RemovedIsNeverPublished` | access/files/transfer_service.go:640-657 | so after the step of an abort, cancel or expiry that removes the file the upload is never published, even if a resume brings its record back |
| `UploadGone.GoneForGoodIff` | access/files/transfer_service.go:343-364 | an upload without record, table entry and open file stays so and is not published in any continuation if and only if the saved store has no record of it either and no open is past its store lookup with the file still there |
| `UploadGone.DeleteIsFinalIff` | access/files/transfer_service.go:640-657 | the deletion step of an abort, cancel, expiry or failed validation ends the upload for good, without a publish, if and only if no handle is listed at that moment and no open holds its record |
| `UploadGone.FinishIsFinalIff` | access/files/transfer_service.go:589-607 | the answered finish ends the upload for good if and only if its record is gone from the store in memory and from the saved one |
| `UploadGone.ComesBack` | access/files/transfer_service.go:310-316 | in every other state there is a continuation that brings the upload back |
| `UploadNamed.OpenUploadStaysResumableIff` | access/files/transfer_service.go:343-364 | while a handle has its file open, name and record stay in every continuation if and only if both are there and no cancel, expiry or earlier abort is past its look at the table of active uploads |
| `UploadNamed.Strikes` | access/files/transfer_service.go:355-363 | in every other state there is a continuation in which the open handle loses its name or record |
| `UploadWaits.ClosedUploadWaitsIff` | access/files/files.go:99-119 | a record in nobody's use stays as it is, with its file, in every continuation that does not resume, cancel or rightly expire it, crashes included, if and only if the file has its name, the record is saved as it is and no removal of the upload is under way, also not one that has only seen an earlier record |
| `UploadWaits.LosesRun` | access/files/files.go:99-119 | in every other state there is such a continuation that loses the record or the file |
| `UploadCancels.CancelRemovesIff` | access/files/transfer_service.go:326-353 | a cancel that has found the upload active answers yes whenever it answers, in every run that leaves the upload to it, the Close and the uploading client; the upload is then published if and only if a finish was accepted meanwhile with the file still named, and the record is gone if and only if no Close had taken the once-guard before or the upload is published |
| `UploadCancels.CancelCanAnswer` | access/files/transfer_service.go:640-657 | from every such state the handle ends and the cancel answers |
| `UploadFailures.ResumeUndoesCancel` | access/files/transfer_service.go:223-316 | for every resumable record: a cancel between lookup and store update of a resume answers yes and removes file and record, and the resume then stores the record again |
| `UploadFailures.ClosedFits` | access/files/transfer_service.go:616-632 | a first upload, opened and closed, is such a record |
| `UploadFailures.StaleExpiryDropsRenewed` | access/files/files.go:99-119 | for every open upload whose record has run out: a pass that saw it, then a close that renews it, then the rest of the pass, which removes record and file |
| `UploadFailures.CancelAnswersYesAndKeepsRecord` | access/files/transfer_service.go:326-353 | a run in which a cancel answers yes and the record is kept |
| `UploadFailures.CancelAnswersYesAndPublishes` | access/files/transfer_service.go:539-607 | runs, with the once-guard taken by the cancel and by a Close, in which a cancel answers yes and the upload is published and its record gone |
| `UploadService.Service.OpenUpload` | access/files/transfer_service.go:196-323 | the open in place makes exactly the machine's steps; with a token, from any state that a run reaches, it succeeds if and only if the store can be saved, the record survives the expiry pass with this target and size, its file has its name and no active handle has this owner, and then the new handle is the active one, at the recorded offset or where the displaced handle stood, with exactly the accepted bytes up to there hashed and on disk; a record whose file is lost is dropped |
| `UploadResumes.OpenGoesOn` | access/files/transfer_service.go:216-316 | the same of the machine's steps, for every order of the pass and every outcome of its saves |
| `UploadService.Service.ResumeUpload` | access/files/transfer_service.go:216-316 | takeover, lookup, validation, cut, store update and listing in place are the machine's steps in that order |
| `UploadService.Service.OpenTemp` | access/files/transfer_service.go:228-286 | a missing file discards the record, a short one is refused, a long one is cut back to the recorded offset and hashed, as the machine's step does |
| `UploadService.Service.HandleData` | access/files/transfer_service.go:544-574 | a data frame is refused unchanged or written, hashed and persisted as the machine's two steps do |
| `UploadService.Service.HandleFinish` | access/files/transfer_service.go:575-607 | a finish frame succeeds exactly if size, offset and digest agree, the target is free or may be overwritten, the temp file has its name and the answer can be sent; then the target leads to that file |
| `UploadService.Service.CloseUpload` | access/files/transfer_service.go:616-632 | a Close makes the machine's steps and ends the handle, a second one nothing; of a handle in use it keeps the record at the offset reached, for 15 minutes, and takes the upload off the table |
| `UploadService.Service.AbortAndRemove` | access/files/transfer_service.go:640-657 | an abort that gets the guard makes the machine's steps and leaves neither name nor record |
| `UploadService.Service.CancelByToken` | access/files/transfer_service.go:343-364 | a cancel that nothing interrupts, with the guard free, answers yes exactly when the upload was active or stored, and leaves neither name nor record; with a Close in the way see `UploadCancels.CancelRemovesIff` |
| `UploadService.Service.CancelByResource` | access/files/transfer_service.go:326-341 | a cancel of the session's own transfer that nothing interrupts answers yes exactly for an active upload, which it leaves without name and record, and else changes nothing |
| `UploadService.Service.PruneExpired` | access/files/files.go:99-119 | the loop over a copy of the store, in any order, makes the machine's steps record by record and counts the removals that could be saved |
| `UploadCalls.PassDropsExpired` | access/files/files.go:99-119 | a pass that nothing interrupts drops exactly the expired records of uploads that are not active |
| `UploadCalls.PassUnlinksExpired` | access/files/files.go:99-119 | and exactly their files' names |
| `UploadOperations.OpenIsRun` | access/files/transfer_service.go:196-323 | an open of any kind on a reachable state, expiry pass, takeover, resume, fresh upload or refusal, is a run of the machine |
| `UploadOperations.DataIsRun` | access/files/transfer_service.go:544-574 | so is a data frame with its store update |
| `UploadOperations.FinishIsRun` | access/files/transfer_service.go:575-607 | so is a finish frame, accepted or not, renamed or not, answered or not |
| `UploadOperations.CloseIsRun` | access/files/transfer_service.go:616-632 | so is a Close, with or without a record to save |
| `UploadOperations.CancelIsRun` | access/files/transfer_service.go:343-364 | so is a cancel, of an active upload, of a stored one or of neither |
| `UploadOperations.ResourceCancelIsRun` | access/files/transfer_service.go:326-341 | so is a cancel of the session's own transfer |
| `UploadOperations.PassIsRun` | access/files/files.go:99-119 | so is an expiry pass in any order |
| `UploadClient.UploadEndpointFile` | clients/cli/file_command.go:594-712 | the whole command completes if and only if the target is free or may be overwritten, the open's store update can be saved and the chunk size is in range and within the server's limit, whichever other saves fail; then the target holds the local file; otherwise a record is left exactly if the open's update could not be saved |
| `UploadClient.SendChunks` | clients/cli/file_command.go:636-680 | the sending loop succeeds exactly if every chunk fits the server's limit, and then all bytes are accepted, hashed and on disk |
| `UploadClient.FeedUploads` | access/files/transfer_service.go:544-574 | a chunk of the local file at the current offset, up to 64 KiB, makes the accepted bytes the next prefix of the file |
| `Download.RunInv` | access/files/transfer_service.go:423-510 | after every run: credit balance, the frames in flight are the missing stretch of the file in order, the client has a prefix |
| `Download.NothingIsRefused` | access/files/transfer_service.go:423-510 | credit + bytes in flight + unacknowledged bytes + window × pending acks is always one window; no party ever rejects a frame and the one-slot ack channel never overflows |
| `Download.WaitingServerIsFed` | access/files/transfer_service.go:429-440 | a server waiting for credit always has data or an acknowledgement in flight |
| `Download.CompletedMeansWholeFile` | clients/cli/file_command.go:482-525 | a completed client has the whole file |
| `Download.NeverStuck` | access/files/transfer_service.go:423-486 | until the client completes, some party can move |
| `Download.EveryDownloadCompletes` | access/files/transfer_service.go:423-510 | every run has at most 5·size + 5 events, and one that cannot be continued has delivered the whole file |
| `DownloadAlone.ClientCompletesIff` | clients/cli/file_command.go:482-525 | whatever a peer sends, the client completes if and only if the frames up to some finish are in sequence, within the window, make up the announced size and have the digest of that finish; it then has exactly those bytes |
| `DownloadAlone.ClientTakes` | clients/cli/file_command.go:482-525 | frames in sequence are all taken, and each full window is acknowledged once |
| `DownloadAlone.ServerSendsInOrder` | access/files/transfer_service.go:423-510 | whatever a peer acknowledges, the server sends the file in order in frames of at most a chunk, is never more than one window ahead of what was confirmed to it, and sends the finish only after the whole file |
| `DownloadPeers.DownloadServer.SendBurst` | access/files/transfer_service.go:423-486 | between two waits the loop, with reads of any length, sends exactly the bytes that credit and file allow, contiguous and in frames of at most one chunk |
| `DownloadPeers.DownloadServer.TakeAcknowledgement` | access/files/transfer_service.go:429-440 | taking an acknowledgement adds its window, or breaks the transfer if its offset is not the server's |
| `DownloadPeers.DownloadServer.HandleFrame` | access/files/transfer_service.go:488-510 | an acknowledgement is queued if it is in range and the slot is free, else refused |
| `DownloadPeers.DownloadClient.Receive` | clients/cli/file_command.go:482-525 | the client accepts exactly the next bytes within its window, acknowledges full windows, and completes only on a matching size and digest |
| `Estimator.PolicyIsBounded` | access/files/estimator.go:72-87 | whatever was measured, wrapped sums and products included, 4 KiB ≤ chunk ≤ 64 KiB ≤ window ≤ 1 MiB: valid for downloads, within the upload frame limit |
| `Estimator.BusyUnlessProductWraps` | access/files/transfer/policy.go:49-78 | the window covers twice the bandwidth-delay product, up to the caps, if and only if the 64-bit product does not wrap or wraps to something still large enough |
| `Estimator.WrappedProductStarves` | access/files/transfer/policy.go:49-78 | ten seconds at one gigabyte per second gets the minimum window |
| `Estimator.EstimateIsElapsedTime` | access/files/estimator.go:42-69 | over every run shorter than an eighth of the clock's range the averaged round trip lies between zero and the time elapsed |
| `Estimator.RunMeasures` | access/files/estimator.go:33-69 | over every run the estimates are the smoothed round trips, from the last send to an acknowledgement of exactly what was sent, and throughputs, between acknowledgements that advance; every acknowledgement counts |
| `Estimator.SmoothedWithin` | access/files/estimator.go:42-69 | an estimate lies between the smallest and the largest of its samples |
| `Estimator.SmoothedFollows` | access/files/estimator.go:42-69 | samples that keep coming out the same pull the estimate to within 7 units below them, one unit per sample at least |
| `Estimator.PolicyInUse` | access/files/transfer/policy.go:49-78 | the defaults until two acknowledgements have come; then the chunk of the round-trip table and its window, lowered to twice the bandwidth-delay product and no less than 64 KiB |
| `Estimator.Estimates.ObserveAck` | access/files/estimator.go:42-69 | an acknowledgement updates averages exactly when it matches the last send, or advances the last acknowledgement |
| `Estimator.Estimates.CurrentPolicy` | access/files/estimator.go:72-87 | the advertised sizes respect all bounds in every object state |
| `CloudRuns.RunInv` | access/cloud/runtime.go:721-924 | over every interleaving of connection attempts, writers, state applications, admissions and ends, all tables, fences and pending applications stay consistent |
| `CloudRuns.ActiveWasAcknowledged` | access/cloud/runtime.go:893-924 | whenever admission is open, the current connection became ready, stayed so, and afterwards acknowledged exactly the revision that has been held since |
| `CloudRuns.ActiveIffAcknowledged` | access/cloud/runtime.go:893-924 | admission is open if and only if the revision held is ACTIVE and the ready connection has acknowledged it after it became ready and while it was held |
| `CloudRuns.SessionBeginsIff` | access/cloud/runtime.go:782-804 | a session begins if and only if admission is open in that sense, no unfinished session has its ID, and fewer are unfinished than configured, by default 256 |
| `CloudRuns.AdmissionIsReached` | access/cloud/runtime.go:721-924 | from every run that is connecting, an ACTIVE state that may be adopted, readiness and its acknowledgement lead to a session being admitted |
| `CloudRuns.StateIsTakenIff` | access/cloud/runtime.go:721-750 | in every run, a valid state is the one held after its application if and only if none was held, or this one, or an older one that is not DELETED; it waits for exactly the open sessions unless it is ACTIVE; otherwise nothing changes |
| `CloudRuns.EnrollmentDeletedIff` | access/cloud/runtime.go:758-780 | the enrollment is deleted if and only if an application of DELETED has ended successfully |
| `CloudRuns.ReadyHasBegun` | access/cloud/runtime.go:899-916 | a connection that is ready became so at an enabled step and has stayed ready |
| `CloudRuns.LateAckIsInert` | access/cloud/runtime.go:918-924 | an acknowledgement of another connection or another revision can be left out of any run without a trace |
| `CloudRuns.UnfinishedAreTabled` | access/cloud/runtime.go:782-885 | the unfinished sessions are exactly those in the two tables, which share no ID and together respect the limit |
| `CloudRuns.ReadmittedAfterFinish` | access/cloud/runtime.go:782-804 | an ID is admitted only when no unfinished session carries it |
| `CloudRuns.NoSessionBetweenAttempts` | access/cloud/runtime.go:384-403 | from the end of an attempt until a later connection is ready and acknowledged no session is open |
| `CloudRuns.RevisionsOnlyAdvance` | access/cloud/runtime.go:721-780 | over any stretch of a run revisions never decrease, one revision names one record, DELETED is absorbing, and a deleted enrollment stays DELETED |
| `CloudRuns.AppliedMeansNoSession` | access/cloud/runtime.go:744-780 | when applying a non-ACTIVE state succeeds and no newer state came in, no session is open |
| `CloudRuntime.Lifecycle.ApplyDaemonState` | access/cloud/runtime.go:721-750 | each of the four refusals is given exactly in its case: invalid, older, another record of the revision held, anything new after DELETED; every other state is adopted, and the open sessions are handed out to be cancelled unless it is ACTIVE |
| `CloudRuntime.Lifecycle.BeginCloudSession` | access/cloud/runtime.go:782-804 | admission answers and effects agree with the machine: inactive, duplicate, full, or admitted |
| `CloudRuntime.Lifecycle.DetachCloudSessions` | access/cloud/runtime.go:851-869 | the loop, in any order, moves every open session to the closing table, keeps what was there, and counts them |
| `CloudRuntime.Lifecycle.FinishCloudSession` | access/cloud/runtime.go:871-885 | a finish removes exactly this session from either table, not a newer one under its ID |
| `ProxyBuffers.UploadQueue.EnqueuePayload` | access/proxy/upload_queue.go:23-41 | the wrapped copy appends the payload to the byte sequence the ring stands for; a refused payload changes nothing |
| `ProxyBuffers.UploadQueue.PeekInto` | access/proxy/upload_queue.go:43-60 | one look: ended if closed, blocked if empty, else the wrapped copy out yields the longest prefix that fits; the ring is left as it is |
| `ProxyBuffers.UploadQueue.ConsumeCount` | access/proxy/upload_queue.go:62-67 | consuming drops exactly the first bytes of the sequence |
| `ProxyBuffers.SlotIsRemainder` | access/proxy/upload_queue.go:23-60 | the position arithmetic of the ring is the remainder of head plus index |
| `ProxyBuffers.ReceiveWindow.Available` | access/proxy/receive_window.go:26-56 | a grant is the credit capped by the limit, and none is given at zero credit |
| `ProxyBuffers.ReceiveWindow.Record` | access/proxy/receive_window.go:58-67 | a recording outside the window or past the largest int64 is refused and changes nothing |
| `ProxyBuffers.ReceiveWindow.AcknowledgeUpTo` | access/proxy/receive_window.go:69-83 | an acknowledgement that does not advance by its own credit within what was sent is refused and changes nothing |
| `ProxyProtocol.RunInv` | access/proxy/proxy.go:156-291 | the data, credit and wakeup invariants hold in every interleaving of sender, queue, writer, removal from the queue and acknowledgements |
| `ProxyProtocol.CreditIsNeverExceeded` | access/proxy/proxy.go:156-291 | the ring never overruns, every emitted acknowledgement is accepted, and at most one window is outstanding |
| `ProxyProtocol.GrantIsRecordable` | access/proxy/receive_window.go:26-67 | an amount granted can be recorded if and only if the counter stays within int64 |
| `ProxyProtocol.TargetGetsAPrefix` | access/proxy/proxy.go:221-249 | bytes at the target are always a prefix of the accepted ones, these of the sent ones, and target plus queue is what was accepted, a chunk just written apart |
| `ProxyProtocol.NoLostWakeup` | access/proxy/upload_queue.go:36-77 | a blocked consumer with data or a close, and a blocked sender with credit, always have a wakeup waiting |
| `ProxyProtocol.BlockedSenderIsServed` | access/proxy/proxy.go:221-291 | a sender out of credit while the proxy is open sees at most 8 times the window plus 8 steps of the others, in any order, and until it can wake one of them can step |
| `ProxyProtocol.ServiceWorks` | access/proxy/proxy.go:221-291 | each of those steps strictly decreases one measure of what is under way |
| `ProxyProtocol.BlockedSenderWakes` | access/proxy/proxy.go:221-291 | so from every such state the others' steps lead to one in which the sender can wake |
| `ProxyProtocol.EverythingSentArrives` | access/proxy/proxy.go:156-291 | while the proxy is open, the steps of the others come to an end after at most 8 times the window plus 8 of them, in any order; then all bytes sent are at the target and acknowledged, and the sender may send a chunk or the whole window again |
| `ProxyProtocol.ServiceComesToRest` | access/proxy/proxy.go:221-291 | from every open state such a run exists |
| `ProxyProtocol.ClosedProxyEnds` | access/proxy/upload_queue.go:69-77 | after a close nothing more is accepted in any continuation, and the consumer can always step until it ends, at most four times |
| `ProxyBuffers.WindowHolds` | access/proxy/receive_window.go:58-83 | whatever a peer acknowledges, at most one window is outstanding and what counts as acknowledged is the sum of the credits taken |
| `SessionRegistry.TokenNamesChannel` | access/files/transfer_service.go:736-742 | equal tokens have equal channels, whatever their random parts |
| `SessionRegistry.RunInv` | access/server/session.go:297-642 | all table, range and retirement invariants hold after every run |
| `SessionRegistry.TablesAreInBijection` | access/server/session.go:324-346 | the channel and token tables hold the same bindings and are inverse to each other |
| `SessionRegistry.ChannelsAreNeverReused` | access/server/session.go:297-303 | no two bindings of a session ever share a channel |
| `SessionRegistry.LateFramesAreIgnored` | access/server/session.go:364-378 | every frame on a channel at any time after its retirement is ignored without an error |
| `SessionRegistry.FramesReachTheLive` | access/server/session.go:364-392 | a frame reaches a published binding exactly until its own retirement or a release of all streams comes in the run |
| `SessionRegistry.UnpublishedIsUnbound` | access/server/session.go:364-392 | a frame on a channel that was never published is an error, unless it is an empty close |
| `SessionRegistry.AttachmentIsPublishedIff` | access/server/terminal.go:249-273 | an attachment is published on the next channel, from 7 on, under a token that begins with its two bytes, if and only if fewer than 65529 channels have been asked for |
| `SessionRegistry.LocalIsPublished` | access/server/session.go:297-346 | a local open gets its channel by the same count and publishes one binding on it |
| `SessionRegistry.TwoLooksAreOne` | access/server/session.go:364-378 | the two separate looks at the tables give the answer of one look, at the first moment or at the second, whatever comes between |
| `ServerSession.Session.AllocateChannel` | access/server/session.go:297-303 | channels are handed out upward and refused at the 16-bit end |
| `ServerSession.Session.PublishAttachmentBinding` | access/server/terminal.go:249-273 | an attachment gets the next channel and a token that names it |
| `ServerSession.Session.RetireStream` | access/server/session.go:589-614 | only entries that are still this binding go; the channel is marked retired in any case |
| `ServerSession.Session.ReleaseAllStreams` | access/server/session.go:616-642 | the loop, in any order, retires every live channel and empties both tables |
| `ServerSession.Session.RouteFrame` | access/server/session.go:364-392 | delivery, silent drop or error, as the registry says |
| `AttachmentStream.RunInv` | access/server/session.go:415-460 | starts in progress, installations, undoings and decided and finished closes stay consistent in every interleaving, also when starts share a stream |
| `AttachmentStream.SupersededIsNeverInstalled` | access/server/session.go:415-460 | a start overtaken by a stop, a retirement or a newer start before it is ready is never installed later |
| `AttachmentStream.ReadyIsInstalledIff` | access/server/session.go:415-447 | a start whose stream is ready is installed if and only if no stop, retirement or newer start has come since it began and nothing was installed then |
| `AttachmentStream.InstalledIsKeptOrClosed` | access/server/session.go:426-460 | an installed stream stays until a stop or retirement comes, which removes it and decides its close |
| `AttachmentStream.EachInstallationIsUndoneOnce` | access/server/session.go:415-460 | every installation ever made is the current one or was undone by exactly one step, which decided the close of its stream |
| `AttachmentStream.StartIsSafeIffQuiet` | access/provider/pool/typed.go:289-301 | after orderly starts, one more start keeps every installed stream open until it is undone, in all orderly continuations, if and only if nothing is installed, no start is in progress and no decided close is still to be done when it begins |
| `AttachmentStream.StartWhileInstalled` | access/server/session.go:433-438 | a start while a stream is installed can close that stream and leave it installed |
| `AttachmentStream.StartWhileStarting` | access/server/session.go:433-438 | a start while another is in progress can install a stream that the overtaken one has closed |
| `AttachmentStream.StartWhileClosing` | access/provider/pool/typed.go:434-449 | a start while a decided close is still to be done can install the stream that is then closed |
| `AttachmentStream.PendingCloseReachesNextStart` | access/server/session.go:433-438 | the shortest such run: start, stop, refusal, start again, and only then the close of the first |
| `AttachmentStream.StreamBinding.InstallReady` | access/server/session.go:426-447 | a ready stream is installed exactly if its generation is current and nothing is installed |
| `AttachmentStream.StreamBinding.HaltStream` | access/server/session.go:451-460 | a stop moves the generation on and hands out exactly the stream whose close it decides |
| `PathNames.CleanRender` | access/files/path.go:76-103 | cleaning the text of a canonical path gives the path back |
| `PathNames.CleanDotDot` | access/files/path.go:91-91 | ".." takes away the name before it, anywhere in the text |
| `PathNames.CleanDotDotAtRoot` | access/files/path.go:91-91 | ".." at the root stays at the root |
| `PathNames.CleanSkips` | access/files/path.go:91-91 | empty pieces and "." can be left out anywhere |
| `PathNames.LawsDetermineClean` | access/files/path.go:91-91 | no other function on absolute text reads canonical text back and meets these three laws |
| `PathNames.CleanIsCanonical` | access/files/path.go:76-103 | cleaning always yields proper names only: no dots, no empty names, no slashes |
| `PathNames.PrefixTestIsContainment` | access/files/path.go:179-195 | the string-prefix test on rendered paths holds if and only if one path is a component prefix of the other |
| `PathResolver.ResolvePath` | access/files/path.go:204-244 | the loop within a recursion computes the pass-by-pass resolution |
| `PathResolver.ResolvedFollowsLinks` | access/files/path.go:204-244 | walking a path component by component, the first one that does not exist ends the resolution with the path as it is, a lookup or link that cannot be read is an error, a link is followed to the clean form of its target, in its directory if relative, with the rest appended, and an existing path is itself; over 40 links is an error |
| `PathResolver.LinksDetermineResolved` | access/files/path.go:204-244 | no other function on canonical paths does that |
| `PathResolver.ResolvedWithoutLinks` | access/files/path.go:204-244 | a path without a link or a failing lookup on it is its own resolution |
| `PathResolver.ResolvedIsSettled` | access/files/path.go:204-244 | a result is canonical, has no link at any existing prefix, and resolves to itself |
| `PathResolver.ResolvedIffAtMostFortyLinks` | access/files/path.go:204-244 | resolution succeeds if and only if at most 40 followed links lead to a path on which a pass settles |
| `PathResolver.LinkCycleIsAnError` | access/files/path.go:204-244 | a path whose links lead into a cycle of any length is an error |
| `RootedPaths.WithinRoots` | access/files/path.go:179-195 | the loop answers whether some root passes the textual test, and on the text of a clean path whether it lies at or under a root by components |
| `RootedPaths.InRootsIsContainment` | access/files/path.go:179-195 | the textual root test is component-wise containment under the platform's case folding |
| `RootedPaths.ResolveIsSafe` | access/files/path.go:76-103 | with roots configured, every success is canonical, link-free, stable under resolution, and at or under a root |
| `RootedPaths.ResolveIsComplete` | access/files/path.go:76-103 | Resolve in full: invalid if nothing is asked for or it does not resolve, the path itself without roots, else the resolved path if it lies under a root, and outside if not |
| `RootedPaths.ResolveParentIsSafe` | access/files/path.go:108-147 | the result keeps the requested last name, has no link above it, and lies under a root |
| `RootedPaths.ResolveParentIsComplete` | access/files/path.go:108-147 | below the root, the result is the resolved directory with the requested last name, if that lies under a root, and else outside; invalid exactly if the directory does not resolve |
| `RootedPaths.ResolveParentElse` | access/files/path.go:108-147 | for the root itself, for a request for nothing, and without roots it answers as Resolve does |
| `RootedPaths.RequestedIgnoresSpace` | access/files/path.go:157-177 | space around a request does not count |
| `RootedPaths.RequestedBlank` | access/files/path.go:157-160 | blank text asks for nothing |
| `RootedPaths.RequestedAbsolute` | access/files/path.go:85-91 | text that begins with a slash asks for its clean form |
| `RootedPaths.RequestedRelative` | access/files/path.go:81-91 | text that begins neither with a slash nor a tilde asks for what the base directory's text with it appended asks for, or for nothing without one |
| `RootedPaths.RequestedHome` | access/files/path.go:157-177 | a tilde, alone or before a slash or backslash, stands for the home directory, and asks for nothing if that is unknown |
| `RootedPaths.ReadBackIff` | access/files/path.go:157-177 | the text of a path is read back as that path if and only if its last name does not end in space |
| `RootedPaths.SlashKeepsSpace` | access/files/path.go:157-177 | every canonical path is what some request asks for: a trailing slash protects the space |
| `RootedPaths.ResolveAgainIff` | access/files/path.go:76-103 | feeding the text of a result back gives the same result if and only if its last name does not end in space or the path without that space resolves to it too, which takes a link |
| `RootedPaths.SpacedResultIsLost` | access/files/path.go:157-177 | in an empty tree every name that ends in space is a result, and its text resolves to another path |
| `RootedPaths.SpacedNameIsLost` | access/files/path.go:157-177 | for one, "/a /" resolves to the name "a " and the text of that to the name "a" |
| `RootConfig.NormalizeRoots` | access/files/path.go:246-280 | the loop reads the texts in order: blank ones are dropped, one that does not resolve is kept as its own path, and the first that asks for nothing is an error |
| `RootConfig.RootsAreCanonical` | access/files/path.go:246-280 | all configured roots come out canonical |
| `RootConfig.ConfiguredRootsAdmitIff` | access/files/path.go:246-280 | a request is granted if and only if it resolves to a path below what some configured root text resolves to, or below that text's own path where it does not resolve |
| `RootConfig.ConfigurationIff` | access/files/path.go:246-280 | configuration fails if and only if some text that is not blank asks for nothing; it leaves no restriction if and only if all texts are blank |
| `LoginLimiter.RunInv` | access/localweb/auth.go:89-203 | window, count, per-client and session invariants hold after every sequence of attempts and lookups |
| `LoginLimiter.FailuresAreLimited` | access/localweb/auth.go:140-180 | at most 50 failed comparisons per global window, and at most 100 in any 60 seconds |
| `LoginLimiter.ClientFailuresAreLimited` | access/localweb/auth.go:140-180 | since its last success one client has at most 5 failed comparisons per global window and at most 10 in any 60 seconds |
| `LoginLimiter.ClientOutlastsGlobal` | access/localweb/auth.go:140-169 | a client's window never starts, so never ends, before the global one |
| `LoginLimiter.BlockedIff` | access/localweb/auth.go:140-180 | in every run an attempt is blocked if and only if, in the global window of the moment, 50 comparisons have failed or 5 of this client since its last success |
| `LoginLimiter.RetryAfterDelayIsAllowed` | access/localweb/auth.go:140-180 | a blocked client that is next to try is free exactly from the end of the global window on; the delay it was given is at most 60 seconds and reaches at least that far |
| `LoginLimiter.LoginLasts` | access/localweb/auth.go:89-138 | an attempt that is not blocked and has the right password logs in: its 43-character token is accepted at any time in the next twelve hours, as long as at most 64 logins succeed from then on |
| `LoginLimiter.AcceptedWasIssued` | access/localweb/auth.go:108-138 | a cookie is accepted only if a login issued it less than twelve hours before |
| `LoginLimiter.SessionsAreBounded` | access/localweb/auth.go:182-203 | there are never more than 64 sessions |
| `LoginLimiter.WebAuthenticator.RetryAfter` | access/localweb/auth.go:140-152 | an elapsed global window starts over and forgets all clients; the delay is the global one, else the client's |
| `LoginLimiter.WebAuthenticator.PruneExpired` | access/localweb/auth.go:182-188 | the loop, in any order, keeps exactly the sessions that have not expired |
| `LoginLimiter.WebAuthenticator.EvictOldest` | access/localweb/auth.go:190-203 | a full table loses exactly one session, and none that stays expires earlier |
| `LoginLimiter.WebAuthenticator.Authenticate` | access/localweb/auth.go:89-119 | blocked, refused, without a token or granted, each exactly in its case; the object makes the run's step for the attempt |
| `LoginLimiter.WebAuthenticator.Authenticated` | access/localweb/auth.go:121-138 | a cookie is accepted exactly if it has 43 characters and its session is known and has not expired; an expired one is dropped |
| `ContextPrinter.NextMeaning` | clients/cli/history_search_command.go:295-356 | after any stream of lines the window, counters and output are what all lines so far call for, and one more line keeps them so |
| `ContextPrinter.MatchExtends` | clients/cli/history_search_command.go:295-312 | a counted match adds exactly its context that is not out yet, and itself, after everything shown so far |
| `ContextPrinter.DoneIsFinal` | clients/cli/history_search_command.go:311-329 | once the printer is done, no continuation of the stream would print anything |
| `ContextPrinter.DoneIff` | clients/cli/history_search_command.go:311-329 | the printer is done if and only if nothing that could follow would print anything |
| `ContextPrinter.ShownIncreasing` | clients/cli/history_search_command.go:295-356 | shown lines are listed once each and in order |
| `ContextPrinter.HistoryContextPrinter.WriteLine` | clients/cli/history_search_command.go:336-356 | one row, after a gap marker exactly if an ID was skipped since the last row |
| `ContextPrinter.HistoryContextPrinter.Write` | clients/cli/history_search_command.go:295-334 | after every line the output is exactly the lines within reach of a counted match (all, or the first max-count), with a marker exactly at gaps and `:` exactly on counted matches |
| `ContextPrinter.PrintMatches` | clients/cli/history_search_command.go:202-217 | feeding consecutive lines and stopping as soon as the printer is done prints what the whole history calls for |
| `Highlight.MergeIsUnion` | clients/cli/history_search_command.go:362-375 | merging sorted ranges, reversed, overlapping or outside the text, gives disjoint segments that do not touch and cover exactly the clipped union |
| `Highlight.SortByStart` | clients/cli/history_search_command.go:362-362 | in place: ordered by start, and a permutation |
| `Highlight.MergeInPlace` | clients/cli/history_search_command.go:363-375 | the merge within the input's own storage overwrites no range before it is read |
| `Highlight.WriteSegments` | clients/cli/history_search_command.go:376-386 | for disjoint segments the output opens and closes emphasis exactly where coverage changes |
| `Highlight.HighlightMatches` | clients/cli/history_search_command.go:358-387 | for arbitrary ranges exactly the covered characters are emphasised, and without the escape sequences the output is the text |
| `Highlight.CellsKeepText` | clients/cli/history_search_command.go:376-386 | emphasis adds escape sequences and changes no character |
| `Highlight.EmphasisIsCoverage` | clients/cli/history_search_command.go:358-387 | read back, a character is emphasised if and only if one of the ranges covers it |
| `Decimal.FormatParses` | access/files/service.go:60-61 | parsing the decimal text of any int64 gives it back |
| `Pagination.CursorRoundTrip` | access/files/service.go:223-240 | a cursor decodes to its offset, negative ones included, under its own version and is refused under every other |
| `Pagination.CursorMeans` | access/files/service.go:223-240 | a cursor is read as version and offset around its first colon, and text without one is refused |
| `Decimal.ParseIff` | access/files/service.go:232-240 | parsing accepts exactly an optional sign, zeros and the digits of a 64-bit integer |
| `Pagination.SortSorts` | access/files/service.go:39-39 | the listing is ordered and a permutation of the directory |
| `Pagination.ReadOrderIsIrrelevant` | access/files/service.go:35-39 | the listing does not depend on the order in which the directory was read |
| `Pagination.PageContinues` | access/files/service.go:40-64 | a page is served exactly for cursors denoting a position, starts there, has as many entries as asked for, up to 500, or all that are left, and its cursor denotes where it stops; a negative offset, and only that, faults |
| `Pagination.NegativeCursorFaults` | access/files/service.go:223-240 | every cursor made up with a negative position, such as "0:-1", is a fault |
| `Pagination.StaleCursorIsRefused` | access/files/service.go:223-240 | a cursor handed out for one directory version is refused under any other |
| `Pagination.ListCommand` | clients/cli/file_command.go:109-150 | from any cursor, `--all` ends, never meets a repeated cursor and returns the rest of the sorted listing, each entry once; it fails exactly on cursors that denote no position |

## Left out

- gRPC, TLS, WebRTC, sockets, Edge probing, discovery and the HTTP server: plumbing over libraries.
- Tickets, grants, identities and password hashing: cryptography outside this model.
- zstd data frames: the command-line client never asks for them; data is sent as it is.
- Downloads that start at an offset, and a source file that changes while it is read.
- Starting the file service over an existing store: in the model that is a crash and restart of the machine.
- Partial file writes and failing acknowledgement sends during an upload; an open that fails after its lookup is a step of the machine.
- The text form of resource and resume tokens beyond the channel prefix that `SessionRegistry.TokenNamesChannel` needs.
- The Base64url text of list cursors (section 5 of RFC 4648): cursors are their decoded `version:offset` text.
- Windows paths and drive roots; the listing of file system roots.
- Concurrent change of the file tree during resolution; results are canonical for the tree as it is, and are not compared with a kernel walk, since link targets are cleaned lexically.
- Copy, move, delete, preview and stat of files: single operating-system calls.
- Stitching of history pages in the search command: depends on history windows served elsewhere; lines reach the printer consecutively numbered.
- Output errors of the context printer and the row text it prints in colour; `Highlight` covers the latter on its own.
- Per-command validation and the mapping of protocol messages.
- Pool process records, storage, configuration editing, logging and table output.
- UploadClient.UploadEndpointFile: states its result for a service whose other uploads stand still during the command; interleavings are covered by the machine.
- Highlight.SortByStart: an insertion sort stands for the library sort; only order and permutation are used.
- CloudRuntime.Lifecycle.ApplyDaemonState: the critical section only; waiting for sessions, storage and the final return are steps of `CloudRuns`.
- Estimator.Estimates.ObserveAck: the floating-point throughput sample is a parameter, so its rounding is not modelled.
- Streams that a provider closes on its own, on detach or failure.
- ServerSession.Session.RouteFrame: nothing comes between its two looks at the tables; `SessionRegistry.TwoLooksAreOne` covers what comes between.
- ProxyProtocol.RunInv: the timeouts of the sender and of the target connection are left out.
- ProxyBuffers.UploadQueue.PeekInto: one look of the loop; its waits are the wakeups of `ProxyProtocol`.
- ProxyBuffers.ReceiveWindow.Available: one look of the loop, without the wait, the timeout and the closed window; the wait is that of `ProxyProtocol`.
- ContextPrinter.PrintMatches: one consecutive stream of lines, without pages and restarts.
- UploadService.Service.OpenUpload: the open that nothing interrupts; it requires that no frame and no stop of an active upload is under way, and the machine covers the rest.
- UploadService.Service.CancelByResource: requires the same of this upload, as does the next.
- UploadService.Service.CancelByToken: requires that no Close or frame of the upload is under way, since it is the call that nothing interrupts; the machine covers the rest.
