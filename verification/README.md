# Verified models of the driving-analysis backend

This project models the parts of the Worker backend and its shared synchronization
rules that carry the most state, and proves what they promise for every input, every
run and every interleaving.

* **GPU lease coordinator** (`LeaseQueue`, `WaiterOrder`, `GpuLeaseCoordinator`,
  `LeaseMeaning`, `LeaseRuns`). The class keeps the persisted fields: an unsorted array of
  waiters with ordinals, a fence counter, a lease with a separate hold clock, and terminal
  marks. Each of its methods is proved to be one step of a first-in-first-out line; what
  each call answers and changes, and the promises over whole runs, are proved on that line.
  `now` is an arbitrary input of each call, so nothing depends on a clock that only goes
  forward.
* **Corner evidence** (`GateGeometry`, `SegmentContinuity`, `SegmentContract`,
  `CornerMeasurement`, `PassPairing`, `PassOrigins`, `CornerRanking`,
  `ClipSpecification`). Loops over observations, gaps, events and passes, each proved
  against a meaning that does not mention the loop. Coordinates and times are exact reals.
* **Multipart upload** (`RecordingUpload`, `RecordingUploadSafety`, `RecordingUploadRuns`,
  `RecordingUploadEntry`, `RecordingUploadEffects`), **driving-analysis lifecycle**
  (`AnalysisTable`, `AnalysisLifecycle`, `AnalysisRuns`, `AnalysisTheorems`,
  `AnalysisEffects`) and **Settings operations** (`SettingsSync`, `SettingsSafety`,
  `SettingsTheorems`, `SettingsEffects`).
  Each database statement or batch and each storage call is one atomic step; each
  asynchronous method is a caller with a program counter, and between two steps any other
  caller may run or any caller may stop. Identifiers drawn at random are never reused. The
  checks and triggers of the `driving_analysis` table are part of the model: what they
  refuse aborts the whole statement or batch.
* **Completion batch** (`AnalysisCompletion`). Joins are modelled on sets of rows; the
  store's fields are updated by the two statements in order.
* **Subject frame queue** (`FrameCache`, `FrameQueue`, `FrameQueueInvariant`,
  `SubjectFrameQueue`, `FrameQueueRuns`). The class has the queue's cache, accounts, pending
  map and serialized jobs; a promise's continuations are separate methods. The accounts,
  bounds and single load hold for any loads; only what the answers are needs loads that
  agree with the recording.
* **Playback** (`ByteRange`, `ContentStream`, `ContentStreamRuns`,
  `RaceRecordingContentStream`, `RecordingPlayback`). Storage may answer with any chunks,
  fail, be short or long, or change, and a cancellation may arrive at any wait.
* **Offline photo edits** (`PhotoSync`, `PhotoTheorems`), **canonical JSON**
  (`CanonicalJson`, `CanonicalTheorems`) and **maintenance baselines** (`MaintenanceSync`,
  `MaintenanceTheorems`).

Some promises fail in a corner. Each corner has an input, and the condition under which
the promise holds is proved for all inputs:

* The table keeps an analysis from falling back, by refusing writes that the code asks for.
  It refuses exactly four (`RefusedExactly`); so tracking never starts in a workflow whose
  preparation reported more than 21 (`LargerReportsBlockTracking`,
  `LargerReportIsAccepted`; the workflow always reports 20,
  `SteadyReportsAreNotRefused`), a failed state is not recorded while the analysis waits for
  an identification (`WaitingIsNotFailed`), and a completion of an analysis that
  does not run throws (`AbortsExactly`).
* Photo changes that do not overlap commute unless they are two deletions that pass the
  primary mark on in one order only (`ChangesCommuteExactly`,
  `OrderShowsWithoutTheConditions`), and a photo base may stop matching because a deletion
  promoted the photo it reviewed (`BaseStillMatchesExactly`, `BaseStopsMatching`).
* A recording may enter validating while a part is claimed, because a claim does not look
  at the recording: the rows are uploaded parts 1..n exactly when no part has a claim since
  the completion read them that is outstanding or was lost (`RowsAtEntry`,
  `ValidatesBesideAClaim`).
* A satisfiable range is refused exactly when it names a number that is not a safe integer
  (`RoundTrip`, `LargeNumbersAreRefused`).
* A playback body of at most 8 MiB is complete exactly when storage answered with as many
  bytes as were asked for, which nothing checks (`ReceivedIsTheRange`,
  `ShortReadIsPassedOn`).
* Archiving two services in the order in which they were completed undoes them exactly when
  they have one date other than the plan's, or the first had changed nothing
  (`ForwardArchivingUndoesExactly`).

Assumptions stated where they are used: a manifest's frames strictly increase in index and
timestamp, as src/driving-analysis/tracking/track-view-contracts.ts:198-209 requires; for
the answers of the frame queue, a frame loader is deterministic up to the image it may
carry when none was asked for; invite codes, identifiers and creator slots are unique, as
migrations/0014_invite_registration.sql:1-5 and migrations/0015_invite_invariants.sql:4-5
declare; photo identifiers are compared by their place in one collation order.

`dafny verify dfyconfig.toml` checks the whole project.

## Model

| member | source | states |
|---|---|---|
| GpuLease.GpuLeaseCoordinator.MarkTerminal | src/driving-analysis/gpu-lease-coordinator.ts:488-494 | a terminal mark is set once and its first reason stays |
| GpuLease.GpuLeaseCoordinator.DropOverdue | src/driving-analysis/gpu-lease-coordinator.ts:449-453 | the scan keeps the waiters that are due later, in array order, and marks every other one expired unless already marked |
| GpuLease.GpuLeaseCoordinator.Expire | src/driving-analysis/gpu-lease-coordinator.ts:448-474 | dropping overdue waiters, ending an expired hold and pushing an expired lease back is one expiry of the line, with the lease back at its very front; the guards against a double push never fire |
| GpuLease.GpuLeaseCoordinator.Enqueue | src/driving-analysis/gpu-lease-coordinator.ts:145-163 | pushing a waiter with the next ordinal is joining the back of the line; a full queue leaves the state as it was |
| GpuLease.GpuLeaseCoordinator.Serve | src/driving-analysis/gpu-lease-coordinator.ts:174-210 | the sort-and-shift loop serves the front of the line, and dropping one overdue head is all it ever does before that |
| GpuLease.GpuLeaseCoordinator.GrantFirst | src/driving-analysis/gpu-lease-coordinator.ts:187-208 | shifting the sorted array and granting is granting the front of the line, with the next fence and an ordinal below every waiter left |
| GpuLease.GpuLeaseCoordinator.Acquire | src/driving-analysis/gpu-lease-coordinator.ts:165-214 | sort-on-acquire is taking the front of a first-in-first-out line, with a fence one higher than any before |
| GpuLease.GpuLeaseCoordinator.Renew | src/driving-analysis/gpu-lease-coordinator.ts:216-231 | a renewal extends exactly the current, unheld lease, within its deadline, and nothing else |
| GpuLease.GpuLeaseCoordinator.Witness | src/driving-analysis/gpu-lease-coordinator.ts:233-245 | a witness answers the expiry of exactly the current lease |
| GpuLease.GpuLeaseCoordinator.Release | src/driving-analysis/gpu-lease-coordinator.ts:247-288 | a release ends the lease or the place it left in the line, or replays a completed one; the state and the answer are those of the abstract line |
| GpuLease.GpuLeaseCoordinator.Cancel | src/driving-analysis/gpu-lease-coordinator.ts:290-332 | a cancellation removes the segment from wherever it is and marks it, or is refused; comparing array lengths tells whether it was waiting |
| GpuLease.GpuLeaseCoordinator.RestoreCapacityBusy | src/driving-analysis/gpu-lease-coordinator.ts:334-380 | giving a lease up for capacity or provider loss puts the job back at the front of the line, although the array only appends |
| GpuLease.GpuLeaseCoordinator.BeginCommitHold | src/driving-analysis/gpu-lease-coordinator.ts:382-407 | a hold replaces the lease clock by its own, within the deadline |
| GpuLease.GpuLeaseCoordinator.ReleaseCommitHold | src/driving-analysis/gpu-lease-coordinator.ts:409-424 | ending a hold needs its own identifier and keeps the lease |
| GpuLease.GpuLeaseCoordinator.Alarm | src/driving-analysis/gpu-lease-coordinator.ts:426-431 | an alarm is an expiry |
| WaiterOrder.PushBack | src/driving-analysis/gpu-lease-coordinator.ts:157-158 | appending the newest ordinal to the unsorted array is joining the back of the line |
| WaiterOrder.PushFront | src/driving-analysis/gpu-lease-coordinator.ts:461-472 | appending the oldest ordinal, at the end of the array, is joining the front of the line |
| WaiterOrder.LineKept | src/driving-analysis/gpu-lease-coordinator.ts:449-453 | filtering the unsorted array is filtering the line |
| GpuLease.NeverWaiting | src/driving-analysis/gpu-lease-coordinator.ts:461-473 | while a segment holds the lease it neither waits nor is marked, so the re-checks before a push always pass |
| GpuLease.OrdinalsShifted | src/driving-analysis/gpu-lease-coordinator.ts:175-187 | the shifted waiter has an ordinal below every one left: the active ordinal is below every waiter |
| LeaseQueue.StepInv | src/driving-analysis/gpu-lease-coordinator.ts:145-474 | every call, whatever the clock says, keeps: waiting, held and terminal segments disjoint, the held fence equal to the counter, the lease within its deadline, at most the limit plus one jobs, receipts only for completed segments |
| LeaseRuns.FencesAreConsecutive | src/driving-analysis/gpu-lease-coordinator.ts:187-200 | over any run the i-th grant carries the i-th next fence: fences are granted once each and strictly increase |
| LeaseRuns.StaleForever | src/driving-analysis/gpu-lease-coordinator.ts:216-424 | once a lease stops being current, renew, witness, beginCommitHold and releaseCommitHold with it answer stale forever |
| LeaseRuns.AnsweredLeaseIsLive | src/driving-analysis/gpu-lease-coordinator.ts:189-407 | an answer with an expiry names a held lease whose expiry is after the clock reading and within the deadline |
| LeaseRuns.TerminalForever | src/driving-analysis/gpu-lease-coordinator.ts:488-494 | a terminal segment keeps its first reason and is never granted again |
| LeaseRuns.ReceiptForever | src/driving-analysis/gpu-lease-coordinator.ts:275-283 | a completed-release receipt is written at most once per segment |
| LeaseRuns.CompletedReleaseReplays | src/driving-analysis/gpu-lease-coordinator.ts:250-256 | repeating a completed release at any later time answers ok and changes nothing |
| LeaseRuns.JobsAreNotLost | src/driving-analysis/gpu-lease-coordinator.ts:145-474 | a job leaves the system only into a terminal mark or by its own unfinished release |
| LeaseRuns.ExpirySettles | src/driving-analysis/gpu-lease-coordinator.ts:448-474 | one expiry leaves at most one waiter overdue, exactly when the held lease was; a second at the same time leaves none; a third changes nothing |
| LeaseRuns.NoOvertaking | src/driving-analysis/gpu-lease-coordinator.ts:145-474 | over any run a segment that stays behind another that stays is never granted before it |
| LeaseMeaning.AlarmMeans | src/driving-analysis/gpu-lease-coordinator.ts:448-474 | an expiry drops the overdue waiters with their mark, ends a lease that ran out and puts its job first in the line, and changes nothing else |
| LeaseMeaning.AcquireServesTheNextJob | src/driving-analysis/gpu-lease-coordinator.ts:165-214 | a live lease makes the call busy; otherwise the next job, one whose lease ran out within its deadline or else the first that is due, is granted under the next fence and up to the lesser of 90 seconds and its deadline exactly when the call names it or nobody; a call that names another segment is busy and the job stays first; it is empty exactly when no job is next |
| LeaseMeaning.AcquireKeepsTheOthers | src/driving-analysis/gpu-lease-coordinator.ts:165-214 | nobody but the served segment and the overdue loses its place when the GPU is asked for |
| LeaseMeaning.AcquireMarksTheOverdue | src/driving-analysis/gpu-lease-coordinator.ts:172-186 | acquiring marks exactly the overdue as expired, and marks that were there keep their reason |
| LeaseMeaning.RenewMeans | src/driving-analysis/gpu-lease-coordinator.ts:216-231 | exactly the live lease without a hold is extended, to the lesser of 90 seconds from now and its deadline; any other is stale and changes nothing |
| LeaseMeaning.WitnessMeans | src/driving-analysis/gpu-lease-coordinator.ts:233-245 | exactly the live lease is told its expiry |
| LeaseMeaning.BeginCommitHoldMeans | src/driving-analysis/gpu-lease-coordinator.ts:382-407 | a hold is begun on exactly the live lease that has none, for the lesser of 30 seconds and the time to its deadline |
| LeaseMeaning.ReleaseCommitHoldMeans | src/driving-analysis/gpu-lease-coordinator.ts:409-424 | a hold is ended by exactly its own identifier, and the lease keeps the time it has |
| LeaseMeaning.UnfinishedReleaseMeans | src/driving-analysis/gpu-lease-coordinator.ts:247-288 | an unfinished release takes effect exactly when the lease is live or its segment has its place back; the segment is then gone without a mark and the others stay |
| LeaseMeaning.CompletedReleaseMeans | src/driving-analysis/gpu-lease-coordinator.ts:247-288 | a completed release of the live lease ends its segment for good and leaves a receipt; its repetition is told ok, and any other is stale |
| LeaseMeaning.CancelMeans | src/driving-analysis/gpu-lease-coordinator.ts:290-332 | a cancellation takes effect exactly on a segment that is not over and is waiting, or is held under the lease it names; otherwise it tells why not and changes nothing |
| LeaseMeaning.RestoreMeans | src/driving-analysis/gpu-lease-coordinator.ts:334-380 | giving the live lease up puts its job first in the line again if there is room; repeating it is told ok, and any other is stale |
| LeaseMeaning.EnqueueMeans | src/driving-analysis/gpu-lease-coordinator.ts:145-163 | a segment is queued last exactly when it is not over, has no place and no lease, and there is room |
| GateGeometry.CrossingIsMeeting | src/driving-analysis/evidence/corner-evidence.ts:99-125 | a crossing is returned exactly when the half-open movement meets the closed gate coming from the gate's side, and its time is the time of that meeting |
| GateGeometry.MeetingFractions | src/driving-analysis/evidence/corner-evidence.ts:112-117 | when the movement meets the gate the denominator is nonzero and the two quotients are the positions on the movement and on the gate |
| GateGeometry.CrossingInTime | src/driving-analysis/evidence/corner-evidence.ts:118-124 | a crossing is after the first observation and not after the second |
| GateGeometry.OverlayCentreIsOnGate | src/driving-analysis/clips/corner-clips.ts:38-61 | the subject centre recomputed for the overlay is the point where the movement meets the gate |
| ClipSpecification.EligiblePassHasClip | src/driving-analysis/clips/corner-clips.ts:22-61 | every eligible pass gets the least clip of whole milliseconds, and of more than none, that covers it, with its subject centre on the entry gate |
| SegmentContinuity.AssertObservationContinuity | src/driving-analysis/evidence/corner-evidence.ts:324-384 | a segment is accepted exactly when, from the seed frame on, every frame is observed once in order, or lies in one closed gap, or is in the tail that begins at the open gap, with trusted observations and gaps within the frame limit |
| SegmentContinuity.Walk | src/driving-analysis/evidence/corner-evidence.ts:338-384 | the single walk over the observations decides that tiling in both directions |
| SegmentContinuity.SkipGap | src/driving-analysis/evidence/corner-evidence.ts:348-360 | the frame search stops at the gap's end frame, or shows there is none within the limit |
| SegmentContract.CheckGaps | src/driving-analysis/tracking/contracts.ts:277-298 | one forward scan decides that gaps are apart and each lies between two consecutive observations, ending at the second |
| SegmentContract.TilingMeetsContract | src/driving-analysis/tracking/contracts.ts:263-298 | every accepted tiling meets the observation and gap contract |
| CornerMeasurement.CollectEvents | src/driving-analysis/evidence/corner-evidence.ts:160-188 | the loop with its gap cursor yields, for each pair of observations, its gap or else its crossings |
| CornerMeasurement.OneEventPerGap | src/driving-analysis/evidence/corner-evidence.ts:168-183 | the gap events are exactly the closed gaps, in order |
| CornerMeasurement.CrossingsAreClear | src/driving-analysis/evidence/corner-evidence.ts:169-188 | no crossing happens inside a closed gap or across one |
| PassPairing.PairEventsIntoPasses | src/driving-analysis/evidence/corner-evidence.ts:194-262 | the event machine gives each event the pass its neighbours in time determine, numbered from 1, and refuses exactly when the shared budget is exceeded |
| PassPairing.EveryCrossingOnce | src/driving-analysis/evidence/corner-evidence.ts:194-262 | the crossings used by the passes, in order, are the crossings of the events: each lands in exactly one pass |
| PassPairing.EligiblePassesAreSound | src/driving-analysis/evidence/corner-evidence.ts:240-249 | an eligible pass lasts a non-negative time and every closed gap lies entirely before or after it |
| PassPairing.MeasureCorner | src/driving-analysis/evidence/corner-evidence.ts:153-264 | events, pairing and ranking together give one corner's passes, or refuse exactly on the budget |
| PassPairing.MeasureAcceptedSegment | src/driving-analysis/evidence/corner-evidence.ts:386-406 | a segment is measured exactly when it is within the frame budget, accepted, has a usable frame rate and its corners fit the shared budget of passes; the result is every corner's passes in order |
| PassOrigins.EveryCrossingOfItsGate | src/driving-analysis/evidence/corner-evidence.ts:153-264 | the crossings that appear as entries of the passes are exactly, and in order, those of the entry gate between consecutive observations with no closed gap between them; those that appear as exits are exactly those of the exit gate |
| PassOrigins.SegmentCrossingsOfTheirGates | src/driving-analysis/evidence/corner-evidence.ts:386-406 | so it is for a whole accepted segment, corner after corner |
| PassOrigins.EligiblePassGoesThrough | src/driving-analysis/evidence/corner-evidence.ts:240-249 | an eligible pass enters where the movement meets the entry gate, leaves where it next meets the exit gate, lasts the time between, and no gate is crossed and no closed gap lies in between |
| PassOrigins.IneligiblePassHasItsReason | src/driving-analysis/evidence/corner-evidence.ts:200-262 | every other pass lacks its exit or its entry for the reason it names: another crossing came first, a gap did, or the segment ended |
| CornerRanking.RankCornerPasses | src/driving-analysis/evidence/corner-evidence.ts:267-301 | the greedy loop over sorted durations gives an eligible pass the number of tie-group leaders at or below it, and any other pass none |
| CornerRanking.SameRankIsTied | src/driving-analysis/evidence/corner-evidence.ts:267-301 | passes of one rank differ by at most the tolerance |
| CornerRanking.LeadersAreApart | src/driving-analysis/evidence/corner-evidence.ts:267-301 | leaders of two groups differ by more than the tolerance, and the slower has the higher rank |
| CornerRanking.RankIsPositive | src/driving-analysis/evidence/corner-evidence.ts:267-301 | ranks start at 1 |
| CornerRanking.RankMonotone | src/driving-analysis/evidence/corner-evidence.ts:267-301 | a slower pass never has a better rank |
| CornerRanking.RanksAreDense | src/driving-analysis/evidence/corner-evidence.ts:267-301 | below a pass of rank n there is a pass of every rank from 1 |
| CornerRanking.BestIsNearFastest | src/driving-analysis/evidence/corner-evidence.ts:267-301 | the best passes are exactly those within the tolerance of the fastest |
| CornerRanking.RankIsLocal | src/driving-analysis/evidence/corner-evidence.ts:267-301 | a rank depends only on the eligible durations at or below its own |
| CornerRanking.RanksFollowTheirPasses | src/driving-analysis/evidence/corner-evidence.ts:267-301 | reordering the passes carries each pass's rank along |
| CornerRanking.SlowerPassesChangeNothing | src/driving-analysis/evidence/corner-evidence.ts:267-301 | adding passes that are no faster changes no existing rank |
| CornerRanking.RerankIsIdempotent | src/driving-analysis/evidence/corner-evidence-review.ts:189-192 | ranking ranked passes again changes nothing |
| RecordingUpload.PartSizesTile | src/driving-analysis/race-recording/race-recording-authority.ts:126-134 | expected part sizes are positive, at most the part size, and sum to the declared size |
| RecordingUploadSafety.TakeKeeps | src/driving-analysis/race-recording/race-recording-authority.ts:280-1293 | every step of every concurrent caller, storage loss and deletion keeps the invariant of rows, callers and storage |
| RecordingUploadSafety.AssembledIsPrefixSum | src/driving-analysis/race-recording/race-recording-authority.ts:588-625 | whatever storage assembles from a complete snapshot of parts has the size those parts sum to |
| RecordingUploadRuns.NoUploaderBesideCompletion | src/driving-analysis/race-recording/race-recording-authority.ts:356-553 | in every reachable state, while a recording completes or validates, no uploader that passed the parent recheck still owns its claim |
| RecordingUploadRuns.OneOwnerPerPart | src/driving-analysis/race-recording/race-recording-authority.ts:356-505 | in every reachable state at most one uploader past the recheck owns a part |
| RecordingUploadRuns.TakeoversAreResumptions | src/driving-analysis/race-recording/race-recording-authority.ts:324-411 | in every run a claim on a part is taken over only when it is stale and only by the same transfer request, although reading and claiming are separate steps |
| RecordingUploadRuns.UploadedByItsOwner | src/driving-analysis/race-recording/race-recording-authority.ts:453-505 | a part becomes uploaded only by the caller whose claim is on the row, with what that caller stored, or by giving back the earlier upload |
| RecordingUploadRuns.ValidatingOnce | src/driving-analysis/race-recording/race-recording-authority.ts:641-690 | a recording enters validating at most once, and while it validates the stored object has exactly the declared size |
| RecordingUploadRuns.EnteringValidating | src/driving-analysis/race-recording/race-recording-authority.ts:555-690 | the step that enters validating persists a snapshot of uploaded parts numbered exactly 1..n, each of its expected size |
| RecordingUploadEntry.SnapshotWasGathered | src/driving-analysis/race-recording/race-recording-authority.ts:560-590 | the parts a completion goes on with are exactly what the uploaded rows were at one earlier moment of the run, when that very call read them |
| RecordingUploadEntry.RowAfterRun | src/driving-analysis/race-recording/race-recording-authority.ts:280-690 | over any run, a part that was uploaded is uploaded at the end exactly when the last claim on it since then is neither outstanding nor lost, and its row is the same exactly when nobody claimed it or the last claim gave that row back: a finished transfer always leaves another etag |
| RecordingUploadEntry.RowsAtEntry | src/driving-analysis/race-recording/race-recording-authority.ts:356-690 | when a recording enters validating, its rows are uploaded parts 1..n exactly when no part has a claim since the completion read them that is outstanding or was lost, and each row is the persisted one exactly when it was not claimed or was given back |
| RecordingUploadEntry.ValidatesBesideAClaim | src/driving-analysis/race-recording/race-recording-authority.ts:356-421 | with no reset, a claim made between that reading and the end leaves a recording validating with its only part still marked as uploading and nobody uploading it |
| RecordingUploadRuns.SettledForever | src/driving-analysis/race-recording/race-recording-authority.ts:1219-1293 | a recording that validates, is being deleted or is deleted never takes uploads again, and a deletion is final |
| RecordingUploadEffects.UploadBegins | src/driving-analysis/race-recording/race-recording-authority.ts:280-322 | an upload begins exactly while the recording takes parts, with a part of the expected size |
| RecordingUploadEffects.ClaimsUnlessBusy | src/driving-analysis/race-recording/race-recording-authority.ts:324-411 | reading and claiming turn away exactly a part that another request is storing, or this one since less than fifteen minutes, and otherwise put a fresh claim on the row |
| RecordingUploadEffects.StoredAndFinalized | src/driving-analysis/race-recording/race-recording-authority.ts:422-505 | an upload that has its claim and that storage takes leaves the part uploaded under a fresh etag, and no claim |
| RecordingUploadEffects.RefusedAndReleased | src/driving-analysis/race-recording/race-recording-authority.ts:1063-1105 | an upload that storage refuses gives the row back to the upload before it, or removes it when there was none |
| RecordingUploadEffects.LateClaimIsReleased | src/driving-analysis/race-recording/race-recording-authority.ts:412-421 | a claim made while the recording no longer takes parts is released without storing anything |
| RecordingUploadEffects.UploadAlone | src/driving-analysis/race-recording/race-recording-authority.ts:280-505 | uninterrupted, with storage at hand, a part that is not being stored is uploaded, whatever was there before |
| RecordingUploadEffects.RecoveryMeans | src/driving-analysis/race-recording/race-recording-authority.ts:1107-1135 | a claim that is recovered leaves its row to be uploaded again; without its claim a row stays |
| RecordingUploadEffects.CompletionIsClaimed | src/driving-analysis/race-recording/race-recording-authority.ts:512-553 | a completion is claimed exactly while the recording takes parts and none of them is being stored |
| RecordingUploadEffects.CompletionIsJoined | src/driving-analysis/race-recording/race-recording-authority.ts:512-553 | a completion may be joined while one is under way |
| RecordingUploadEffects.IncompleteReopens | src/driving-analysis/race-recording/race-recording-authority.ts:570-582 | a completion whose uploaded rows are not parts 1..n of the expected sizes leads, by its own two steps, back to a recording that takes parts, with the same parts, so that the missing part can be uploaded; one that may not reset leaves the status |
| RecordingUploadEffects.UnverifiedReopens | src/driving-analysis/race-recording/race-recording-authority.ts:600-625 | so does a completion that sees no object of the declared size |
| RecordingUploadEffects.VerifiedValidates | src/driving-analysis/race-recording/race-recording-authority.ts:600-690 | a completion that sees an object of the declared size, in its answer or by asking, lets the recording validate |
| RecordingUploadEffects.CompletionAlone | src/driving-analysis/race-recording/race-recording-authority.ts:512-690 | uninterrupted, with every part uploaded and held by storage, a completion leads to validating an object of the declared size |
| RecordingUploadEffects.DeletionMeans | src/driving-analysis/race-recording/race-recording-authority.ts:1219-1293 | a deletion begins from the status it names, if that is one that can be deleted; then the object goes, and then the rows |
| AnalysisRuns.StepMoves | src/driving-analysis/analysis/driving-analysis-authority.ts:330-1013 | every effective write raises the state version by exactly one, follows a status transition that the code asks for and the table accepts, acts for the current workflow, and within it lowers neither progress nor stage |
| AnalysisRuns.RefusedExactly | migrations/0029_driving_analysis_retry.sql:42-72 | in every reachable state the table refuses exactly four things that the code asks for: a preparation report below the progress there is, a start of tracking above 21, a failure or a further wait of an analysis that waits for an identification, and a completion of one that does not run |
| AnalysisTable.AcceptsExactly | migrations/0029_driving_analysis_retry.sql:42-72 | checks and triggers together accept exactly a status move within a workflow, with neither stage nor progress falling, and the restart of an ended analysis as a fresh row of the next sequence; either takes the next version |
| AnalysisRuns.RefusedLeavesNothing | migrations/0029_driving_analysis_retry.sql:42-72 | a refused statement or batch leaves row, runs, receipts and workflow as they were |
| AnalysisRuns.RemoveMoves | src/driving-analysis/analysis/analysis-lifecycle.ts:100-180 | a removal names only a version, and that alone keeps it off a deleting or deleted analysis |
| AnalysisRuns.RetryTakesEffect | src/driving-analysis/analysis/driving-analysis-authority.ts:605-694 | a retry takes effect exactly when its witness holds and its command has no receipt; then the row restarts under a fresh workflow, which the table always accepts, one receipt is left, and only a failed or completed analysis is restarted |
| AnalysisTheorems.VersionCountsWrites | src/driving-analysis/analysis/driving-analysis-authority.ts:330-1013 | over any run the version grows by exactly the number of effective writes |
| AnalysisTheorems.SameVersionSameRow | src/driving-analysis/analysis/driving-analysis-authority.ts:330-1013 | two moments of one run with the same version have the same row: the version identifies it |
| AnalysisTheorems.EarlierWorkflowsWriteNothing | src/driving-analysis/analysis/driving-analysis-authority.ts:606-1013 | after a retry no write made for an earlier workflow changes the row, ever |
| AnalysisTheorems.EndingsAreFinal | src/driving-analysis/analysis/analysis-lifecycle.ts:100-347 | cancelled leads only to deleting, deleting only to deleted, and deleted nowhere, over any run |
| AnalysisTheorems.TrackingMapIsMonotone | src/driving-analysis/analysis/driving-analysis-authority.ts:96-123 | tracking progress maps monotonically into 21..99, and to 99 exactly from 99 on or on completion; only failing, cancelled and awaiting tracking change the status |
| AnalysisTheorems.ProgressNeverFalls | migrations/0029_driving_analysis_retry.sql:46-56 | whatever preparation and tracking report and whatever else runs, neither progress nor stage falls while the workflow stays, over any run |
| AnalysisTheorems.ProgressNeverFallsFromCreation | migrations/0029_driving_analysis_retry.sql:46-56 | so between any two moments of any run from creation on, with one workflow, progress and stage never fall |
| AnalysisTheorems.SteadyReportsAreNotRefused | src/driving-analysis/analysis/driving-analysis-creation-workflow.ts:187-191 | while preparation reports one value of at most 21, as it does with 20, no publication of the workflow is refused |
| AnalysisTheorems.LargerReportsBlockTracking | src/driving-analysis/analysis/driving-analysis-authority.ts:821-854 | once more than 21 was reported, tracking never starts in that workflow, whatever runs |
| AnalysisTheorems.LargerReportIsAccepted | src/driving-analysis/analysis/driving-analysis-authority.ts:776-854 | an input: a report above 21 is accepted, and the start of tracking after it refused |
| AnalysisTheorems.WaitingIsNotFailed | src/driving-analysis/analysis/driving-analysis-authority.ts:856-952 | an input: a failed state published for an active run whose analysis waits for an identification is refused; the run stays active and the analysis waits on |
| AnalysisTheorems.RepeatedPublishIsReplayed | src/driving-analysis/analysis/driving-analysis-authority.ts:1048-1065 | a workflow statement that took effect and is repeated after anything else ran changes nothing; it is told replayed exactly while its workflow is current and the row has passed the version its payload names, as it always has for a payload that names no later one, and stale otherwise |
| AnalysisTheorems.RejectedInputsAreNotRetried | src/driving-analysis/analysis/driving-analysis-authority.ts:577-592 | no interleaving restarts an analysis whose current run was rejected for its inputs, although check and restart are separate steps |
| AnalysisTheorems.ReceiptsAreForever | src/driving-analysis/analysis/driving-analysis-authority.ts:538-562 | a retry receipt is never changed or lost |
| AnalysisTheorems.SequenceCountsReceipts | src/driving-analysis/analysis/driving-analysis-authority.ts:606-680 | the workflow sequence is one more than the number of retry receipts: a command restarts the analysis at most once |
| AnalysisTheorems.RunsEndWithTheAnalysis | src/driving-analysis/analysis/driving-analysis-authority.ts:350-952 | cancelling, retrying, removing and failing tracking end the active run exactly when they change the analysis |
| AnalysisTheorems.EndedRunsStayEnded | src/driving-analysis/analysis/driving-analysis-authority.ts:350-1013 | a tracking run that left the active status never changes again |
| AnalysisTheorems.CompletionNeedsEvidence | src/driving-analysis/analysis/driving-analysis-completion.ts:105-161 | from creation on, an analysis completes only while it is running and only by the completion batch, together with its still active run, when the highest-order segment is completed, every segment is measured in this workflow and every eligible pass is clipped and published |
| AnalysisTheorems.CompletionStaysInStep | src/driving-analysis/analysis/driving-analysis-completion.ts:116-161 | on rows that agree with a lifecycle state, the completion step and the two-statement batch leave rows and state in agreement and are refused together, so what is proved of whole runs holds of the batch |
| AnalysisEffects.CancelTakesEffect | src/driving-analysis/analysis/driving-analysis-authority.ts:350-400 | while the row still is what was reviewed, a cancellation leaves it cancelled at the next version and its active run cancelled, and changes nothing else; otherwise row and runs stay |
| AnalysisEffects.CancelAlone | src/driving-analysis/analysis/driving-analysis-authority.ts:330-400 | uninterrupted, a cancellation cancels exactly an open analysis at the version it names |
| AnalysisEffects.RemoveTakesEffect | src/driving-analysis/analysis/analysis-lifecycle.ts:107-170 | while the row has the version that was reviewed, a removal leaves it deleting at the next version and every active run cancelled, and changes nothing else; otherwise row and runs stay |
| AnalysisEffects.RemoveAlone | src/driving-analysis/analysis/analysis-lifecycle.ts:107-170 | uninterrupted, a removal takes effect exactly at the version it names, from any status but deleting and deleted |
| AnalysisEffects.FailureTakesEffect | src/driving-analysis/analysis/driving-analysis-authority.ts:954-1013 | a failure ends the active run of its workflow in any case, and leaves the row failed at the next version exactly while it is the one that was read, of that sequence |
| AnalysisEffects.FailureAlone | src/driving-analysis/analysis/driving-analysis-authority.ts:954-1013 | uninterrupted, a failure fails exactly the queued or running analysis of its workflow and sequence |
| AnalysisEffects.TargetMeans | src/driving-analysis/analysis/driving-analysis-authority.ts:96-123 | a tracking state stands for one status and progress: 21, and 78 more in 99 even parts, rounded down |
| AnalysisEffects.TrackingTakesEffect | src/driving-analysis/analysis/driving-analysis-authority.ts:856-952 | a tracking state is published exactly while the row is the one that was read and may take it: its status, the greater of the two progresses, the next version, and a failed run with its code |
| AnalysisEffects.TrackingAlone | src/driving-analysis/analysis/driving-analysis-authority.ts:856-952 | uninterrupted, a tracking state is published exactly for an active run, or a failed one that says so, whose analysis is in tracking, running or waiting, and does not show it yet, unless the table withholds it |
| AnalysisEffects.RetryAlone | src/driving-analysis/analysis/driving-analysis-authority.ts:527-690 | uninterrupted, a retry restarts the analysis exactly when its command is new, its version is the row's, the row has ended, its inputs were not rejected and its source is ready |
| AnalysisEffects.BeginPreparationTakesEffect | src/driving-analysis/analysis/driving-analysis-authority.ts:738-774 | preparation begins exactly on the queued row of its workflow, at the version it names |
| AnalysisEffects.PreparationProgressTakesEffect | src/driving-analysis/analysis/driving-analysis-authority.ts:776-819 | a report is stored exactly on the row that is being prepared, at the version it names, when it is no step back |
| AnalysisEffects.TrackingStartTakesEffect | src/driving-analysis/analysis/driving-analysis-authority.ts:821-854 | tracking starts, at 21, exactly on the row that is being prepared, at the version it names and at most at 21 |
| AnalysisEffects.CleanupTakesEffect | src/driving-analysis/analysis/analysis-lifecycle.ts:318-331 | a cleanup ends exactly a deletion |
| AnalysisEffects.CompletionTakesEffect | src/driving-analysis/analysis/driving-analysis-completion.ts:116-161 | a completion takes effect exactly on a running analysis of its workflow whose run is active with complete evidence, or completed |
| AnalysisCompletion.MissingEvidenceMeans | src/driving-analysis/analysis/driving-analysis-completion.ts:46-68 | the anti-join finds nothing exactly when every segment of the run has an accepted artifact with a batch of this very workflow |
| AnalysisCompletion.TerminalMeans | src/driving-analysis/analysis/driving-analysis-completion.ts:105-115 | the row whose order is the maximum of the run exists exactly when the named segment is of the run, is completed, and no segment of the run comes after it |
| AnalysisCompletion.MissingClipsMeans | src/driving-analysis/analysis/driving-analysis-completion.ts:69-104 | the two left joins find nothing exactly when every eligible pass of the run's batches has a clip of this workflow and all such clips are published |
| AnalysisCompletion.OnePublishedClipEach | src/driving-analysis/clips/clip-schema.ts:37-41 | with the unique index on a clip's pass, that is one published clip for every eligible pass |
| AnalysisCompletion.CompletionStore.Publish | src/driving-analysis/analysis/driving-analysis-completion.ts:116-161 | the two conditional updates, in this order and with the first rolled back when the second is refused, have the effect of the batch and report whether the analysis moved, no row matched or the database threw |
| AnalysisCompletion.AbortsExactly | migrations/0029_driving_analysis_retry.sql:60-72 | the batch is aborted, leaving nothing, exactly when it would complete an analysis that is queued or waits for an identification: its run is active with complete evidence, or completed already |
| AnalysisCompletion.RunCompletesExactly | src/driving-analysis/analysis/driving-analysis-completion.ts:105-138 | a run completes exactly when it is active, its analysis running, the highest-order segment completed, and evidence and clips complete |
| AnalysisCompletion.CompleteTogether | src/driving-analysis/analysis/driving-analysis-completion.ts:116-161 | when the run completes so does the analysis, in the same batch; both go to their next version, and no other row changes |
| AnalysisCompletion.AnalysisCompletesBesideItsRun | src/driving-analysis/analysis/driving-analysis-completion.ts:139-161 | an analysis completes only while it is running, beside a run of its workflow that is completed by then |
| AnalysisCompletion.RepeatingChangesNothing | src/driving-analysis/analysis/driving-analysis-completion.ts:116-188 | while both rows stay completed the batch changes nothing and answers completed |
| AnalysisCompletion.NotReadyMeansIncomplete | src/driving-analysis/analysis/driving-analysis-completion.ts:116-188 | when nothing else ran, an active run of an open analysis is told not-ready exactly when evidence or clips are incomplete, completed exactly when they are complete and the analysis runs, and nothing, because the database throws, otherwise |
| AnalysisCompletion.ToldExactly | src/driving-analysis/analysis/driving-analysis-completion.ts:161-188 | completed is told exactly when both rows are completed by then, not-ready exactly for an active run of an open analysis whose evidence is incomplete, and nothing exactly when the database throws |
| AnalysisCompletion.IdentityNamesRows | src/driving-analysis/analysis/driving-analysis-completion.ts:31-45 | a completion names a run by identifier, owner, analysis and workflow, and an analysis by identifier, owner and workflow |
| SettingsSafety.InsertsTakeFirstFree | src/routes/settings-sync.ts:187-217 | of the five inserts of a batch at most one takes effect, in the first free slot, and none only when no slot is free |
| SettingsTheorems.EffectAtMostOnce | src/routes/settings-sync.ts:123-289 | over any interleaving, crash or repetition an operation's own write matches a row at most once, and then its receipt says applied |
| SettingsTheorems.NoEffectAfterTerminal | src/routes/pending-sync-receipt.ts:10-28 | once a receipt is terminal no request for that operation has an effect again |
| SettingsTheorems.TerminalForever | src/routes/settings-sync.ts:98-118 | a receipt keeps its request hash, and once terminal never changes |
| SettingsTheorems.AnswersAreTheReceipt | src/routes/settings-sync.ts:61-97 | every answer is the operation's one terminal receipt, or says the receipt belongs to another request |
| SettingsTheorems.RepeatedRequestsAgree | src/routes/settings-sync.ts:73-97 | two requests with one identifier and hash are answered alike whenever they ran |
| SettingsTheorems.ReplayFindsATerminalReceipt | src/routes/settings-sync.ts:63-72 | a request that goes on to replay always finds a terminal receipt, so replay never throws for a pending one |
| SettingsTheorems.AppliedWhereItHolds | src/routes/settings-sync.ts:146-289 | a receipt becomes applied only in a step after which its claim holds on the rows |
| SettingsTheorems.TimezoneReplacesReviewed | src/routes/settings-sync.ts:123-183 | an operation changes a timezone only from the reviewed base to its own value, for its own owner, with an applied receipt |
| SettingsTheorems.InviteCreatedExactly | src/routes/settings-sync.ts:184-250 | an invite is created exactly when its identifier and code are unused, its owner exists and one of five slots is free; the operation is applied exactly then or when its identifier already names an invite of this owner with this code, and otherwise rejected with nothing created |
| SettingsTheorems.AllowanceHolds | migrations/0015_invite_invariants.sql:4-5 | whatever runs, no creator has more than five invites in slots |
| SettingsEffects.BeginsExactly | src/routes/settings-sync.ts:61-97 | a new operation is claimed and decided; a repeated one is answered from its receipt, told that its hash is another, or goes on while it is open |
| SettingsEffects.TimezoneAlone | src/routes/settings-sync.ts:123-183 | uninterrupted, a timezone operation is applied and the owner has the new zone exactly when the zones are known, the owner exists and its zone is the base or the new one; it is a conflict with the stored zone exactly when that is neither, and rejected otherwise |
| SettingsEffects.BatchApplies | src/routes/settings-sync.ts:146-168 | when the zone still is the one that was read, or is the new one by then, the batch applies the operation |
| SettingsEffects.ChangedBeforeTheBatch | src/routes/settings-sync.ts:146-183 | when the zone is a third one by then, nothing is written and the answer is a conflict with the zone there is, or with the base when the owner is gone |
| SettingsEffects.CreateAlone | src/routes/settings-sync.ts:184-250 | an invite with a valid code is made in the owner's least free slot exactly when there is one, the owner exists and neither identifier nor code is used; a code that is not valid is rejected |
| SettingsEffects.RevokeAlone | src/routes/settings-sync.ts:252-289 | a revocation is applied exactly to an invite of the owner that is available, which it revokes, or revoked already; otherwise it is rejected and changes nothing |
| FrameCache.ReadKeeps | src/driving-analysis/race-recording/subject-frame-queue.ts:74-84 | reading finds exactly a live entry, drops only an expired one, and keeps the accounts |
| FrameCache.EvictMakesRoom | src/driving-analysis/race-recording/subject-frame-queue.ts:90-98 | eviction drops from the front only, ends with room, and keeps the accounts |
| FrameCache.FullIsNotEmpty | src/driving-analysis/race-recording/subject-frame-queue.ts:90-95 | while the loop runs there is an oldest entry: its break is unreachable |
| FrameCache.RememberKeeps | src/driving-analysis/race-recording/subject-frame-queue.ts:86-105 | remembering a new key keeps the accounts, 8 entries and 4 MiB |
| FrameCache.AccountsNeedANewKey | src/driving-analysis/race-recording/subject-frame-queue.ts:99-104 | the accounts survive remembering exactly when the key is no longer in the cache |
| FrameCache.RememberThenRead | src/driving-analysis/race-recording/subject-frame-queue.ts:74-105 | a remembered frame is read back for exactly its lifetime |
| FrameCache.RecentReadSurvives | src/driving-analysis/race-recording/subject-frame-queue.ts:74-98 | the entry read last is the last one evicted |
| FrameRequests.SubjectFrameQueue.ReadEntry | src/driving-analysis/race-recording/subject-frame-queue.ts:74-84 | a frame is found exactly when a live entry has the key; it is then the newest entry, an expired one is gone, no other entry changes and the accounts still add up |
| FrameRequests.SubjectFrameQueue.RememberFrame | src/driving-analysis/race-recording/subject-frame-queue.ts:86-105 | the eviction loop, without its break, makes room and stores the frame |
| FrameRequests.SubjectFrameQueue.Select | src/driving-analysis/race-recording/subject-frame-queue.ts:32-61 | a call is answered with a live entry's masked frame if there is one, else joins a pending request that serves it and starts none, else is turned away exactly when four are pending, else is queued last under a new job; no other caller, job or promise changes and the queue stays valid |
| FrameRequests.SubjectFrameQueue.StartHead | src/driving-analysis/race-recording/subject-frame-queue.ts:45-50 | a job at the head is settled with a live entry's masked frame if there is one, and otherwise it alone loads, for a key that is not cached; callers and pending entries stay |
| FrameRequests.SubjectFrameQueue.LoadEnded | src/driving-analysis/race-recording/subject-frame-queue.ts:50-58 | a load settles exactly its own job with what it ended with and nothing loads any more; a frame that fits can then be read for exactly its lifetime, a failure leaves the cache as it was, and the accounts and bounds hold |
| FrameRequests.SubjectFrameQueue.Resume | src/driving-analysis/race-recording/subject-frame-queue.ts:43-64 | a waiting caller gets the masked frame of a request that serves its own, or the failure; an owner gives up exactly its own place and any other caller none |
| FrameQueueRuns.AnswersAreLoads | src/driving-analysis/race-recording/subject-frame-queue.ts:32-72 | when loads agree with the recording, every answer, cached, joined or loaded, is what loading directly and masking the image gives |
| FrameQueueInvariant.CacheStaysBounded | src/driving-analysis/race-recording/subject-frame-queue.ts:86-105 | over any run, whatever is loaded, cacheBytes is the sum of the entries, at most 4 MiB in at most 8 entries with distinct keys |
| FrameQueueInvariant.OneLoadForANewKey | src/driving-analysis/race-recording/subject-frame-queue.ts:45-53 | over any run at most one load runs, for a key the cache does not hold, so what it ends with overwrites nothing |
| FrameQueueInvariant.OneJobPerKey | src/driving-analysis/race-recording/subject-frame-queue.ts:40-59 | over any run no two unsettled jobs are for one key |
| FrameQueueInvariant.FewJobs | src/driving-analysis/race-recording/subject-frame-queue.ts:44-59 | over any run at most four jobs are unsettled, each still pending |
| FrameQueueInvariant.IdleQueueIsEmpty | src/driving-analysis/race-recording/subject-frame-queue.ts:59-64 | over any run, when nobody waits nothing is pending or queued: no failure leaves a place taken |
| ByteRange.RoundTrip | src/driving-analysis/race-recording/race-recording-playback.ts:73-93 | printing any range specifier and parsing it gives exactly the bytes it asks for, and nothing exactly when it is unsatisfiable (section 14.1.2 of RFC 9110) or names a number that is not a safe integer |
| ByteRange.AcceptedMeans | src/driving-analysis/race-recording/race-recording-playback.ts:73-93 | whatever is accepted is one range specifier after trimming; the range is non-empty, inside the object and exactly what it asks for |
| ByteRange.SatisfiableMeans | src/driving-analysis/race-recording/race-recording-playback.ts:73-93 | satisfiable means that the specifier wants some byte of the object |
| ByteRange.LargeNumbersAreRefused | src/driving-analysis/race-recording/race-recording-playback.ts:83-90 | a suffix or an end above the largest safe integer asks for every byte of the object, and is refused |
| PlaybackStream.RaceRecordingContentStream.OpenReader | src/driving-analysis/race-recording/race-recording-content-stream.ts:30-38 | the next storage read is the next window of the range; it is read on exactly when the same object answers and nobody cancelled, otherwise the stream ends, in an error exactly when it was not cancelled; nothing is delivered, and what was delivered stays the object's bytes |
| PlaybackStream.KeptMeans | src/driving-analysis/race-recording/race-recording-content-stream.ts:22-60 | between any two calls the reads so far are the first windows of the range, a closed stream has delivered exactly the requested number of bytes, and an error means that some window was not answered whole for the same object |
| PlaybackStream.KeptDelivers | src/driving-analysis/race-recording/race-recording-content-stream.ts:39-55 | between any two calls what was delivered is the bytes, from the start of the range, of whatever object storage answers honestly from |
| PlaybackStream.RaceRecordingContentStream.PullOnce | src/driving-analysis/race-recording/race-recording-content-stream.ts:22-60 | the pull loop delivers one chunk, goes to the next window, closes, errors or stops, wherever a cancellation arrives, and the stream stays valid |
| ContentStreamRuns.WindowsTile | src/driving-analysis/race-recording/race-recording-content-stream.ts:4-31 | windows are contiguous, non-empty, at most 8 MiB and cover exactly the range |
| ContentStreamRuns.WindowsInOrder | src/driving-analysis/race-recording/race-recording-content-stream.ts:25-31 | the storage reads are the range's windows in order, all of them when the stream closes |
| ContentStreamRuns.DeliversTheRange | src/driving-analysis/race-recording/race-recording-content-stream.ts:22-60 | for any chunking, what was delivered is the object's bytes from the start of the range, and a closed stream delivered all of them |
| ContentStreamRuns.ClosedIsComplete | src/driving-analysis/race-recording/race-recording-content-stream.ts:26-56 | whatever storage answers, a closed stream delivered exactly the requested number of bytes |
| ContentStreamRuns.ClosesExactlyWhenAllGood | src/driving-analysis/race-recording/race-recording-content-stream.ts:22-60 | pulled on, a stream closes exactly when every window was answered for the same etag with exactly its bytes; a short, long, failing or changed answer ends it in an error |
| RecordingPlayback.RespondMeans | src/driving-analysis/race-recording/race-recording-playback.ts:118-174 | a request is refused for its range exactly when the range is in force and is unsatisfiable or not in safe numbers; otherwise the answer is about exactly the bytes asked for, with their number as its length, and they are read in windows exactly when they are more than 8 MiB; a HEAD request gets the status and length of the full answer |
| RecordingPlayback.ReadsAreBounded | src/driving-analysis/race-recording/race-recording-playback.ts:152-159 | whatever is asked for, no storage read is longer than 8 MiB, and together the reads are exactly the bytes asked for |
| RecordingPlayback.ReceivedIsTheRange | src/driving-analysis/race-recording/race-recording-playback.ts:152-174 | what arrives is the object's bytes from the right position: all that was asked for when windows were read to a normal end, and from a single read exactly when storage answered with as many |
| RecordingPlayback.ShortReadIsPassedOn | src/driving-analysis/race-recording/race-recording-playback.ts:152-174 | a short answer to a single read is passed on as it is, under the length that was promised |
| PhotoTheorems.RevisionsIdentify | shared/photo-sync.ts:51-91 | over any history without reused identifiers revisions never fall, and an equal identifier and revision mean an identical record |
| PhotoTheorems.MatchingBaseProvesNothingChanged | shared/photo-sync.ts:32-50 | a base that matched the gallery it was taken from and matches a later one proves that the reviewed photos are the identical records, no more and no fewer |
| PhotoTheorems.BaseMatchesExactly | shared/photo-sync.ts:32-50 | a base matches exactly when it names each reviewed photo once with the revision it has, in whatever order, and nothing else |
| PhotoTheorems.AtMostOnePrimaryIsKept | shared/photo-sync.ts:55-79 | no change makes a second primary photo |
| PhotoTheorems.ChosenPrimary | shared/photo-sync.ts:78-90 | choosing a primary leaves one exactly when the chosen photo is in the gallery |
| PhotoTheorems.DeletingKeepsAPrimary | shared/photo-sync.ts:55-79 | a gallery with a primary that is not emptied by a deletion keeps one |
| PhotoTheorems.DeletingPromotesTheFirst | shared/photo-sync.ts:55-79 | when the primary photo is deleted, the remaining one with the least place, and then the least identifier, becomes primary and no other |
| PhotoTheorems.ReplacingChangesOnePhoto | shared/photo-sync.ts:69-90 | replacing changes one photo's file facts and revision and nothing else |
| PhotoTheorems.ReorderingOrders | shared/photo-sync.ts:76-90 | after reordering each listed photo is at its place in the order, and repeating it changes nothing |
| PhotoTheorems.ChangesCommuteExactly | shared/photo-sync.ts:51-102 | two changes that do not overlap give the same gallery, revisions included, in either order exactly unless they are deletions of which one and only one hands the primary mark to the other and the photo that gets it in the end is not marked as not primary |
| PhotoTheorems.ReplacementsCommute | shared/photo-sync.ts:55-91 | replacements of two photos always commute |
| PhotoTheorems.ReplacementAndDeletionCommute | shared/photo-sync.ts:55-91 | a replacement and a deletion of two photos always commute |
| PhotoTheorems.IndependentChangesCommute | shared/photo-sync.ts:51-102 | so changes that do not overlap commute while at most one photo is primary and the marks are set |
| PhotoTheorems.OrderShowsWithoutTheConditions | shared/photo-sync.ts:55-91 | inputs where the order shows: three photos, and either a second primary or an unset mark |
| PhotoTheorems.BaseStillMatchesExactly | shared/photo-sync.ts:45-91 | a base keeps matching after a change to another photo exactly when that change gives the reviewed photo no new revision, as a deletion that moves the primary mark does |
| PhotoTheorems.BaseStopsMatching | shared/photo-sync.ts:45-91 | an input where it stops: deleting the primary photo promotes the one that a replacement had reviewed |
| CanonicalTheorems.ParseInvertsRaw | src/driving-analysis/tracking/inference-profile.ts:92-98 | a parser gives back exactly the tree whose text was written, whatever follows |
| CanonicalTheorems.ParseInvertsPrint | src/driving-analysis/tracking/inference-profile.ts:92-98 | parsing the canonical text gives the tree with its members sorted |
| CanonicalTheorems.BodyInverts | src/driving-analysis/tracking/inference-profile.ts:93-96 | unquoting inverts quoting for every sequence of UTF-16 units, lone surrogates included (section 7 of RFC 8259) |
| CanonicalTheorems.PlainIsWrittenAsIs | src/driving-analysis/tracking/inference-profile.ts:93-93 | text without control characters, quotes and backslashes and with its surrogates paired is written as it is |
| CanonicalTheorems.TextIsPaired | src/driving-analysis/tracking/inference-profile.ts:93-93 | whatever the string, its text has no control character and no surrogate alone |
| CanonicalTheorems.PrintsAlikeExactly | src/driving-analysis/tracking/inference-profile.ts:92-98 | two trees print alike exactly when they are equal as maps: injective, and independent of insertion order |
| CanonicalTheorems.PrintedKeysAscend | src/driving-analysis/tracking/inference-profile.ts:92-98 | in the printed text the keys of every object ascend by code units: at the first place where two differ the earlier one ends or has the smaller unit |
| MaintenanceTheorems.ReverseArchivingUndoes | shared/maintenance-sync.ts:82-133 | completing any services on a plan and archiving them in reverse restores every plan and leaves earlier records alone |
| MaintenanceTheorems.ForwardRestoringRedoes | shared/maintenance-sync.ts:82-133 | restoring them in order gives back exactly the collection in which all were completed |
| MaintenanceTheorems.MissingCountIsZero | shared/maintenance-sync.ts:107-132 | archiving or restoring a record from before session counts were kept puts the date it has and counts from zero |
| MaintenanceTheorems.ArchivingOneOfMany | shared/maintenance-sync.ts:82-133 | after any number of services, archiving one of them leaves every plan alone exactly when the last service has another date or it had replaced the very baseline the plan has now; otherwise the plan goes back to what it replaced, whatever came in between |
| MaintenanceTheorems.CorrectedServiceStillUndoes | shared/maintenance-sync.ts:82-133 | however often the date of the latest service was corrected, the plan has the last date, and archiving the service still puts the plan back |
| MaintenanceTheorems.ForwardArchivingUndoesExactly | shared/maintenance-sync.ts:82-133 | archiving the earlier of two services first undoes both exactly when they have one date other than the plan's, or the first had the plan's own date and session count |

## Left out

- HTTP routing, authentication, field validation (the enqueue deadline window included), OpenAPI text and query building: only the guards that decide whether a step takes effect are modelled.
- Object storage, compression, digests, signing and container calls: storage is a map or a sequence of answers, digests are opaque values.
- `src/driving-analysis/tracking/tracking-authority.ts` and the prepared track-view contracts are not part of this model, but for what they do to a run's status: a run appears active and without a failure code, and may at any time be fenced or fail as unavailable (lines 1671-1705 and 1840-1870) while the analysis row stays.
- `DrivingAnalysisWorkflow` and the GPU provider client: only the statements they call are modelled.
- `src/driving-analysis/gpu-lease-schema.ts`: the coordinator persists one state object, not these tables.
- Floating-point rounding of crossings, durations and overlay centres: arithmetic is over exact reals.
- Segment identifiers that name properties of every JavaScript object: marks and receipts are finite maps.
- Scheduling of alarms: an alarm may run at any time.
- Enqueue's refusal of a full queue is an answer that leaves the state unchanged; the source throws and abandons its storage transaction.
- An upload's look at other parts of the same transfer request (src/driving-analysis/race-recording/race-recording-authority.ts:297-338) only refuses calls and is not modelled; nor are the owner's quota and the guards against deleting a recording that an analysis uses.
- Aborting the multipart upload and deleting the object are one step of a deletion.
- RecordingUploadRuns.EnteringValidating: speaks of the parts the finishing call had read, not of the rows at that moment, which a claim made since then may have changed; RecordingUploadEntry.RowsAtEntry says exactly when.
- AnalysisTheorems.RunsEndWithTheAnalysis: publishWorkflowFailure ends its run without looking at the analysis, so nothing is claimed about that run.
- AnalysisTheorems.RepeatedPublishIsReplayed: the input check that precedes each publishing statement only turns callers away and is not modelled.
- Triggers and indexes of other tables and on creation: an analysis's first row and the sources it names (migrations/0029_driving_analysis_retry.sql:7-27, migrations/0026_driving_analysis_creation.sql:78-113), the identity of runs and recordings, which no modelled write names (migrations/0019_tracking_authority.sql:195-206, migrations/0021_resumable_race_recording.sql:65-72), the owner's quota and one transfer request per part, which only refuse calls (migrations/0021_resumable_race_recording.sql:52-53 and 74-89), validation rows (migrations/0025_race_video_validation.sql:73-124), the immutability of evidence (migrations/0032_accepted_corner_evidence.sql:68-90) and the revision that other writers of photos leave (migrations/0042_photo_change_contract.sql:73-77).
- What a caller does after the database throws: it stops. Which tracking state is published when: any may be, at any time.
- The restart of processing after a cancellation, retry or removal, and cleanup's deletion of stored media.
- The wording and status codes of Settings answers, time-zone validity and invite-code syntax: a command carries what those policies decided.
- Listing order of plans and records in a maintenance collection, plan edits and consumables.
- Playback's conditional headers: the status they call for, and whether If-Range holds, are inputs of a request. Storage that has no content at all makes playback fail before there is an answer.
- JavaScript's own order of object keys, which canonical sorting removes.
