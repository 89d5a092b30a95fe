# Firehose to Parquet: a verified model of ownership, control slots, resume and pruning

The repository streams blocks from a Firehose endpoint into Parquet datasets, on a local disk or
in an S3 bucket. This project models the parts of it whose correctness is an argument rather than
a lookup, and proves that argument for every input, every run and every reachable state.

**Bucket ownership and control slots.** One object of a bucket says who owns it. It is changed only
by create-if-absent and by compare-and-swap on its version; there is no expiry and no takeover.
On top of it, the owner keeps two control records (`state.json`, `pending.json`) in slots that are
also changed only by compare-and-swap and are cleared by tombstones. `OwnershipProtocol` is a state
machine over any number of sessions and operators. A request is sent once, may be executed late,
several times or never, and its response may be lost; a session may stop at any step. Versions are
the stored contents themselves, as an ETag that digests the contents is, so nothing about freedom
from ABA is assumed. `OwnershipInvariant` and `OwnershipSteps` give one inductive invariant and its
preservation by every action; `OwnershipTheorems`, `OwnershipReads`, `OwnershipCalls`, `OwnershipProgress`
and `OwnershipRecovery` draw the conclusions: mutual exclusion, quiescence, sound readback, a
consistent status, the origin of every slot record, what each call achieves in spite of lost
responses and failed reads, and that the bucket can always be recovered.

**One register, two implementations.** `CasRegister` is the abstract compare-and-swap register.
`S3Register` shows that the remote slot with tombstones refines it; `LocalStateStore` and
`LocalHistory` show that the local slot with file removal refines it, across failed system calls
and crashes.

**Crash atomicity.** `LocalDisk` is a directory whose changes reach the disk late and in order,
whose unsynced file contents come back as anything, and whose own entry may be lost until its
parent is synced. `LocalStateStore` and `CursorFile` are the two writers on it.

**Resume.** `FirehoseStream` is the reconnecting client over a server chain, with an arbitrary network;
`QuietPeriod` is its quiet callback.

**Kernels.** `Canary` (qualifying a store and choosing the ETag form), `OwnerRequest`, `OwnerRecordText`,
`LookupPruning`, `CivilDays`, `DatePartition`, `Base64`, `FlushSizing`. `Wrappers` and `Shared` hold
what several modules use.

`dafny verify dfyconfig.toml` checks the whole project.

## Code and documentation that disagree

- The cursor writer's comment (`firehose-parquet/src/cursor.rs:538-540`) describes an atomic save that
  syncs the file and then the directory. Atomicity holds. Durability of a save that returned Ok holds if and only if the cursor directory
  was already there and already durable: a missing directory is created, and synced, but the parent
  that names it is not. `CursorFile.Save` states both directions; `CursorFile.FirstSaveCanVanish`
  is the counterexample. The control store does sync the parent and has no such gap.
- The stream loop promises one quiet callback per message-free period, which reconnects do not end
  (`firehose-parquet/src/grpc.rs:305-309`). Line 429 clears the flag on stream errors and clean ends
  too, so the handler is called again in the same period. `QuietPeriod.OncePerPeriodIff` gives the
  exact condition and `QuietPeriod.SecondCall` the shortest run; that a quiet period is reported at
  all holds as documented.

## Model

| member | source | states |
|---|---|---|
| OwnershipInvariant.OwnerAlternates | firehose-parquet/src/dataset_lock_s3.rs:301-320 | in every history of owner records Owned and Released alternate, each release is of the record just before it, and the generation counts the Owned records so far |
| OwnershipInvariant.OwnerNeverRepeats | firehose-parquet/src/dataset_lock_s3.rs:407-418 | no owner-record contents recur, although versions are derived from contents |
| OwnershipInvariant.RevisionsGrow | firehose-parquet/src/durable_state_s3.rs:107-151 | within one incarnation slot revisions strictly grow, whatever removes and creates come between |
| OwnershipInvariant.SlotNeverRepeats | firehose-parquet/src/durable_state_s3.rs:142-151 | no slot contents recur, so a content-derived slot version has no ABA |
| OwnershipSteps.StepKeeps | firehose-parquet/src/dataset_lock_s3.rs:288-486 | every action of every session, operator, and the network keeps the protocol invariant |
| OwnershipSteps.RunKeeps | firehose-parquet/src/dataset_lock_s3.rs:288-486 | the invariant holds at the end of every run from an empty bucket |
| OwnershipSteps.LiveGuardStays | firehose-parquet/src/dataset_lock_s3.rs:395-457 | no request in flight, however late, can replace the record of a live guard |
| OwnershipSteps.ExactIsApplied | firehose-parquet/src/durable_state_s3.rs:262-291 | reading back exactly the proposed control record proves that this very PUT was applied and that no copy of it can land again |
| OwnershipTheorems.MutualExclusion | firehose-parquet/src/dataset_lock_s3.rs:288-332 | in every run two live guards are one guard, and the bucket stores exactly its record |
| OwnershipTheorems.OwnedChangesOnlyByRelease | firehose-parquet/src/dataset_lock_s3.rs:418-486 | an Owned record changes only to its own release: by its session, which began that release earlier in the run with a clear latch and no control call running and has no control PUT left that could land, or by an operator whose owner is stopped and has nothing in flight |
| OwnershipTheorems.OwnerRecordsNeverRecur | firehose-parquet/src/dataset_lock_s3.rs:301-320 | over every run contents never recur at the owner key and the stored generation is the number of Owned records ever applied |
| OwnershipTheorems.LateReleaseIsRefused | firehose-parquet/src/dataset_lock_s3.rs:407-457 | executing a resent or delayed release changes nothing unless its own Owned record is stored |
| OwnershipTheorems.OwnedThenReleasedThenLater | firehose-parquet/src/dataset_lock_s3.rs:407-457 | from Owned(A) every run stores Owned(A), a release of exactly that record, or a later generation |
| OwnershipTheorems.ReleasedIsQuiescent | firehose-parquet/src/durable_state_s3.rs:220-305 | whenever the stored record is Released, or absent, no control PUT already sent by anyone can change a slot, now or later in any run |
| OwnershipTheorems.OnlyTheOwnerWritesSlots | firehose-parquet/src/durable_state_s3.rs:220-305 | a control PUT that changes a slot belongs to the stored owner; under a live guard with a clear latch it is the call that guard is running |
| OwnershipTheorems.ClearLatchIsResolved | firehose-parquet/src/durable_state_s3.rs:294-305 | a guard that is idle with a clear latch has no control PUT left that could land, in any continuation |
| OwnershipTheorems.ReleaseOkIsFinal | firehose-parquet/src/dataset_lock_s3.rs:406-437 | a release that returned Ok was applied, and in every continuation no control PUT of its session, sent or not, can change a slot |
| OwnershipTheorems.LatchBlocksRelease | firehose-parquet/src/dataset_lock_s3.rs:395-422 | from a latched guard, in every continuation its Released record is never stored, and its Owned record stays until an operator release of a stopped and quiescent owner |
| OwnershipTheorems.EndedSendsNothing | firehose-parquet/src/dataset_lock_s3.rs:418-437 | a session that has ended stays as it is and sends or resends nothing, in every continuation |
| OwnershipTheorems.ReleaseWasBegun | firehose-parquet/src/dataset_lock_s3.rs:418-437 | whenever a release was sent or is under way, the run holds the step that began it, taken with a clear latch and no control call running |
| OwnershipTheorems.SlotLifecycle | firehose-parquet/src/durable_state_s3.rs:107-151 | over every run a slot record is either a live record of an incarnation new to the slot, on an empty or cleared slot, or the next revision of the live record just before it |
| OwnershipCalls.CallGoesAheadIff | firehose-parquet/src/durable_state_s3.rs:107-180 | a control call goes ahead exactly when its guard is idle with a clear latch and the slot allows it: create on an empty or cleared slot, replace and remove of exactly the stored live version below the last revision; it then carries the precondition and edit it stands for |
| OwnershipCalls.EveryRecordWasAsked | firehose-parquet/src/durable_state_s3.rs:107-151 | over every run each slot record is the result of one call that a ready guard asked for and the slot allowed: a create fills only an empty or cleared slot, a replace or remove follows exactly the live record it named |
| OwnershipTheorems.EachVersionAuthorizesOnce | firehose-parquet/src/durable_state_s3.rs:107-180 | over every run no precondition, neither a version nor emptiness, authorizes two successful control calls or two applied PUTs |
| OwnershipTheorems.StaleVersionNeverSucceeds | firehose-parquet/src/durable_state_s3.rs:171-180 | a version that the slot has left bails out before sending, forever, also after a remove and re-create |
| OwnershipReads.ExactOwnerIsApplied | firehose-parquet/src/dataset_lock_s3.rs:605-614 | an owner record equal to the proposed one proves that this very request was applied last |
| OwnershipReads.OtherRecordRefutes | firehose-parquet/src/dataset_lock_s3.rs:746-751 | an owner record that is neither the proposed nor the expected one rules the request out in every continuation |
| OwnershipReads.WriteAndVerify | firehose-parquet/src/dataset_lock_s3.rs:728-781 | Ok only if this request was applied with the returned version; stopping early on another record means it can never take effect afterwards; stopping on an unusable object, or running out of reads, only after every read failed or still saw its precondition |
| OwnershipReads.EqualReadsMeanUnchanged | firehose-parquet/src/recovery.rs:239-254 | two equal owner reads have seen no change at any point in between |
| OwnershipReads.RemoteStatus | firehose-parquet/src/recovery.rs:239-265 | status fails exactly when a read fails or the two owner reads differ; otherwise the reported owner, or absence, was stored throughout, and without a current owner both slots are one consistent snapshot |
| OwnershipProgress.AcquireSucceeds | firehose-parquet/src/dataset_lock_s3.rs:288-332 | acquiring a free bucket yields the guard of the next generation although the response is lost and up to four readbacks fail or come too early |
| OwnershipProgress.AcquireGivesUp | firehose-parquet/src/dataset_lock_s3.rs:615-629 | five readbacks without proof end the acquisition and its session |
| OwnershipProgress.OwnedBucketIsBusy | firehose-parquet/src/dataset_lock_s3.rs:295-305 | a session that reads an Owned record, or an exhausted generation, ends there: in no continuation does it send anything or does a record name it as owner |
| OwnershipProgress.ReleaseSucceeds | firehose-parquet/src/dataset_lock_s3.rs:418-457 | releasing a guard with a clear latch leaves exactly its record, released, although up to four attempts cannot read it and up to four readbacks fail or come too early |
| OwnershipProgress.ReleaseGivesUp | firehose-parquet/src/dataset_lock_s3.rs:426-436 | five attempts that cannot read the record end the release, and the record stays |
| OwnershipProgress.ReleaseRecognisesItself | firehose-parquet/src/dataset_lock_s3.rs:439-446 | a release that landed without proof recognises its own record in the next attempt |
| OwnershipProgress.ReleaseStopsOnForeign | firehose-parquet/src/dataset_lock_s3.rs:440-449 | a release that reads any other record, or none, stops at once and never sends again |
| OwnershipProgress.ControlCallSucceeds | firehose-parquet/src/durable_state_s3.rs:107-151 | an allowed call leaves exactly its record (a new incarnation at revision 0, the next revision, or that as a tombstone) although up to four readbacks fail or come too early, and touches no other slot, owner record or latch |
| OwnershipProgress.UnresolvedCallLatches | firehose-parquet/src/durable_state_s3.rs:262-294 | a call without proof after five readbacks latches its guard |
| OwnershipProgress.InterruptedCall | firehose-parquet/src/durable_state_s3.rs:248-305 | a call refused with 401 or 403 leaves its guard ready and nothing that could land; one dropped before sending leaves no trace; one dropped after sending latches |
| OwnershipProgress.MarkedNeverReleases | firehose-parquet/src/dataset_lock_s3.rs:395-422 | from any live guard, once it is marked uncertain its Released record is never stored in any continuation, and its Owned record stays until an operator release of a stopped and quiescent owner |
| OwnershipProgress.LatchedReleaseEnds | firehose-parquet/src/dataset_lock_s3.rs:418-422 | asking a latched guard to release ends its session, which never sends again |
| OwnershipRecovery.OperatorSendsIff | firehose-parquet/src/dataset_lock_s3.rs:461-485 | an operator request is sent exactly for a record stored as Owned with an attested owner, and carries that record, released, with the receipt |
| OwnershipRecovery.OperatorReleaseSucceeds | firehose-parquet/src/dataset_lock_s3.rs:461-485 | the operator release of a stopped and quiescent owner leaves exactly its record, released with the receipt, and changes no session and no slot |
| OwnershipRecovery.OperatorRecordIsAttested | firehose-parquet/src/dataset_lock_s3.rs:459-485 | over every run an operator record belongs to an owner that is stopped and has nothing in flight, in every continuation |
| OwnershipRecovery.AlwaysRecoverable | firehose-parquet/src/dataset_lock_s3.rs:459-485 | from every reachable state with a generation left some continuation gives the bucket to a new session: nothing strands it for good |
| CasRegister.RetiredStays | firehose-parquet/src/durable_state_s3.rs:171-180 | in every register history retired versions stay retired and are never visible again |
| CasRegister.VersionRetiresOnce | firehose-parquet/src/durable_state_s3.rs:171-180 | in every register history a version authorizes at most one replace or remove and is not read again |
| S3Register.SlotRefinesRegister | firehose-parquet/src/durable_state_s3.rs:89-151 | every step of every run moves each remote slot as the register moves |
| S3Register.SlotTraceIsHistory | firehose-parquet/src/durable_state_s3.rs:89-151 | the whole run of a remote slot is one register history |
| S3Register.RegisterMeaning | firehose-parquet/src/durable_state_s3.rs:89-105 | the register's value is the live record that load shows, every acknowledged replace or remove has retired its version, and a retired version is one the slot has left and refuses |
| LocalDisk.CrashLeavesASurvivor | firehose-parquet/src/durable_state.rs:331-424 | after any crash the disk is sound, the record read is one that could survive, and it is then settled |
| LocalDisk.SyncsAreNeeded | firehose-parquet/src/durable_state.rs:396-409 | without the directory sync a crash may undo a rename, and without the file sync it may lose the contents |
| LocalStateStore.DurableSurvivesCrashes | firehose-parquet/src/durable_state.rs:284-319 | what is durable survives every crash, and is durable again afterwards |
| LocalStateStore.Store.PrepareDirectory | firehose-parquet/src/durable_state.rs:331-368 | succeeds exactly when every system call does, and then every slot is durable as it is; failure at any call changes no record |
| LocalStateStore.Store.Write | firehose-parquet/src/durable_state.rs:378-424 | at every step a crash leaves what was there or the complete new record; it returns Ok exactly when every system call succeeds and there is nothing it must not replace, and then the new record survives every later crash |
| LocalStateStore.Store.Create | firehose-parquet/src/durable_state.rs:253-258 | returns a durable version exactly when the slot is empty and every system call succeeds, and uses up no version |
| LocalStateStore.Store.Replace | firehose-parquet/src/durable_state.rs:260-275 | succeeds exactly from the expected version, below the last revision, when every system call does; the durable next revision uses that version up; a stale version changes nothing |
| LocalStateStore.Store.Remove | firehose-parquet/src/durable_state.rs:277-282 | succeeds exactly from the expected version when every system call does; the durable absence uses that version up |
| LocalStateStore.Store.Stabilize | firehose-parquet/src/durable_state.rs:284-319 | succeeds exactly when the observed record or absence is the expected one and every system call succeeds, and then it survives every later crash; no record ever changes |
| LocalStateStore.Store.Crash | firehose-parquet/src/durable_state.rs:331-424 | a crash keeps the store valid, reveals a survivor and brings back no used-up version |
| LocalHistory.Perform | firehose-parquet/src/durable_state.rs:253-319 | which calls go through, and that any call, failing anywhere, and any crash is one register step of every slot |
| LocalHistory.Play | firehose-parquet/src/durable_state.rs:232-329 | over every sequence of calls and crashes a slot is one register history, and no version is used up twice |
| CursorFile.Save | firehose-parquet/src/cursor.rs:545-580 | at every step a crash leaves the old cursor or the complete new one; it returns Ok exactly when every system call succeeds; what it saved then survives every later crash if and only if the directory was there and durable before |
| CursorFile.CrashKeepsApart | firehose-parquet/src/cursor.rs:560-575 | after any crash the fixed temporary name still shares no file with the cursor, so the next save may truncate it |
| CursorFile.FirstSaveCanVanish | firehose-parquet/src/cursor.rs:553-579 | a successful first save into a missing directory can be lost in a crash |
| FirehoseStream.RequestCoversRange | firehose-parquet/src/grpc.rs:886-891 | a bounded request is never endless, covers every wanted block, and asks for an unwanted one only for stop 0 or 1 |
| FirehoseStream.ServedIsEnough | firehose-parquet/src/grpc.rs:371-377 | what the server sends for the requested stop block holds exactly the blocks the handler must see, for every chain and stop |
| FirehoseStream.StopOneDropsBlockOne | firehose-parquet/src/grpc.rs:466-479 | for the exclusive stop 1 block 1 is served and never handed over |
| FirehoseStream.ReconnectState.RecordProgress | firehose-parquet/src/grpc.rs:684-688 | a message clears the failures and the stall timer together |
| FirehoseStream.ReconnectState.RecordFailure | firehose-parquet/src/grpc.rs:692-716 | the stall timer is set exactly while attempts have failed; refusal happens exactly at the attempt limit or the stall timeout since the first failure |
| FirehoseStream.CompleteMeansAll | firehose-parquet/src/grpc.rs:912-929 | in an ascending log, having received block stop - 1 or a later one leaves no block below the stop to hand over |
| FirehoseStream.ReadSession | firehose-parquet/src/grpc.rs:402-492 | after every message of a session the handler's calls are exactly the wanted blocks up to the cursor, and the session stops exactly at the first message without metadata, the end or its count |
| FirehoseStream.HighestIsMaximum | firehose-parquet/src/grpc.rs:462-465 | the highest block received is one that was received and none is higher |
| FirehoseStream.EndSession | firehose-parquet/src/grpc.rs:493-563 | exactly which session end completes, exhausts, rejects, shuts down or gives up the stream, and that every other end but an idle one is paid for by progress or a counted failure |
| FirehoseStream.OneAttempt | firehose-parquet/src/grpc.rs:342-564 | which outcome every attempt has, in both directions: complete, exhausted, given up, rejected, shut down, bad message, handler error or still running, with the exact cursor, failure count, stall timer and resume flag |
| FirehoseStream.DeliveredIsPrefix | firehose-parquet/src/grpc.rs:460-490 | the handler's calls are a prefix of the wanted blocks of the whole log after the start |
| FirehoseStream.StreamBlocks | firehose-parquet/src/grpc.rs:310-565 | for any network: every attempt but the last left the stream running and the last had the outcome returned; exactly-once in-order delivery; Complete means every block below the stop was handed over in an ascending chain; without a stall timeout an attempt that serves the rest completes, and giving up takes 30 failures since the last message; a live stream never ends by itself; the loop returns after a bounded number of attempts that are not idle timeouts |
| FirehoseStream.StreamCompletes | firehose-parquet/src/grpc.rs:342-565 | without a stall timeout a stream completes at an attempt that serves the rest of a chain holding the last requested block and closes, however many harmless attempts came before |
| QuietPeriod.WatchQuiet | firehose-parquet/src/grpc.rs:402-429 | the loop that carries the flag calls the handler in exactly the waits that are due while the flag is clear |
| QuietPeriod.ReportedIff | firehose-parquet/src/grpc.rs:409-429 | the flag is set exactly when a due wait was followed by idle timeouts only |
| QuietPeriod.OncePerPeriodIff | firehose-parquet/src/grpc.rs:305-309 | at most one call per message-free period if and only if no stream error or clean end lies between two due waits of one period |
| QuietPeriod.SecondCall | firehose-parquet/src/grpc.rs:425-429 | one stream error in a quiet period is enough for a second call |
| QuietPeriod.DueIsReported | firehose-parquet/src/grpc.rs:409-420 | a period that becomes quiet is always reported in that period |
| Canary.RenderQuoted | firehose-parquet/src/dataset_lock_s3.rs:81-97 | unquoting is injective on quoted ETags and always changes them |
| Canary.SameVersionIsEquality | firehose-parquet/src/dataset_lock_s3.rs:783-795 | in either form a readback recognises the expected version, and with quoted ETags no other ETag and no other version ID |
| Canary.UsableIff | firehose-parquet/src/dataset_lock_s3.rs:631-664 | a usable ETag has 1 to 1024 visible characters, no wildcard and no comma |
| Canary.QuotedIsCarried | firehose-parquet/src/dataset_lock_s3.rs:85-116 | either form can carry every quoted ETag, so a compare-and-swap on one never fails for want of a version |
| Canary.RunCanary | firehose-parquet/src/dataset_lock_s3.rs:873-1001 | one run passes, or reports a refused correct version, exactly for the stores that behave so at the probe, and leaves nothing behind |
| Canary.QualifyConditions | firehose-parquet/src/dataset_lock_s3.rs:837-858 | As-returned on a store that follows section 13.1.1 of RFC 9110, Unquoted on one comparing the bare tag, refusal on any store that ignores create-if-absent or If-Match, and for any other store the exact condition of each answer; only the two probe keys are touched |
| Canary.Rfc9110Qualifies | firehose-parquet/src/dataset_lock_s3.rs:890-1001 | a store that follows RFC 9110 meets every probe step with the ETag as returned |
| Canary.BareTagQualifies | firehose-parquet/src/dataset_lock_s3.rs:890-1001 | a store that compares the bare tag refuses the quoted version and meets every probe step without quotes |
| Canary.IgnoringNeverQualifies | firehose-parquet/src/dataset_lock_s3.rs:890-935 | a store that ignores a precondition fails the negative steps in either form |
| Canary.BothKindsExist | firehose-parquet/src/dataset_lock_s3.rs:75-79 | stores of both qualifying kinds exist |
| OwnerRequest.NormalizeRequest | firehose-parquet/src/dataset_lock_s3.rs:488-524 | the in-place loop computes the normal form, including every refusal |
| OwnerRequest.NormalizeIsIdempotent | firehose-parquet/src/dataset_lock_s3.rs:488-524 | a normal form is ascending, without repeats, holds the trimmed scopes and nothing else, and normalizes to itself |
| OwnerRequest.ScopeIff | firehose-parquet/src/dataset_lock_s3.rs:499-516 | a scope is accepted as t exactly when it is t, or t and one slash, short enough, of the allowed characters and without an empty component, `.` or `..` |
| OwnerRequest.AllowedCharacters | firehose-parquet/src/dataset_lock_s3.rs:489-508 | operation names are 1 to 64 ASCII letters, digits, `_` and `-`; scopes may also hold `.`, `/` and `=` |
| OwnerRequest.NormalizeIff | firehose-parquet/src/dataset_lock_s3.rs:488-524 | a request is accepted as n exactly when the operation is valid, there are 1 to 32 accepted scopes that are short enough together, and n lists them in ascending order, each once |
| OwnerRequest.ValidatedIsPlain | firehose-parquet/src/dataset_lock_s3.rs:165-205 | a record that validates has clean ascending scopes, no receipt while owned, and nothing that JSON would escape |
| OwnerRequest.IdIff | firehose-parquet/src/dataset_lock_s3.rs:165-167 | an owner id is five groups of lower-case hexadecimal digits, 8-4-4-4-12, the third one starting with 4 |
| OwnerRecordText.BuiltRecordsFit | firehose-parquet/src/dataset_lock_s3.rs:808-819 | every Owned or Released record built from a normalized request, with or without a receipt, validates and fits the 32 KiB limit |
| OwnerRecordText.JsonDetermines | firehose-parquet/src/dataset_lock_s3.rs:131-147 | different valid records have different texts, so a version that digests the text stands for the whole record |
| Shared.LessIff | firehose-parquet/src/dataset_lock_s3.rs:521-523 | scopes are ordered by their first differing byte, prefixes first |
| CivilDays.NextDayIsOneMore | blocks/examples/bench_ingestion_concurrency.rs:311-318 | for every proleptic Gregorian date the next calendar day has the next number |
| CivilDays.EpochIsZero | blocks/examples/bench_ingestion_concurrency.rs:318 | 1970-01-01 is day 0 |
| CivilDays.DaysIncrease | blocks/examples/bench_ingestion_concurrency.rs:311-318 | the day number is strictly increasing in calendar order |
| CivilDays.DaysAreInjective | blocks/examples/bench_ingestion_concurrency.rs:311-318 | different dates have different numbers |
| CivilDays.CivilRoundTrip | blocks/examples/bench_ingestion_concurrency.rs:311-318 | walking the calendar from the epoch by the day number leads back to the date |
| DatePartition.ParsePath | firehose-parquet/src/date_partition.rs:48-68 | every directory name that path writes parses back to its day |
| DatePartition.PathParse | firehose-parquet/src/date_partition.rs:59-92 | an accepted directory name is exactly what path writes for its day |
| DatePartition.FromTimestampIsTheDay | firehose-parquet/src/date_partition.rs:27-45 | a time has a partition exactly when its day lies in years 0 to 9999, and then it is that UTC day |
| DatePartition.SuffixNamesTheDay | firehose-parquet/src/writer.rs:44-57 | the partition suffix is the table and the directory of the UTC day that contains the lower routing time |
| DatePartition.SuffixIff | firehose-parquet/src/writer.rs:44-57 | there is a suffix exactly when the lower routing time falls on a day of years 0 to 9999 and the upper one, if any, in years -9999 to 9999 |
| DatePartition.ValidateDateColumn | firehose-parquet/src/writer.rs:128-152 | accepts exactly a missing date column, or one of dates that all equal the valid day of the routing time |
| DatePartition.ValidatePartition | firehose-parquet/src/writer.rs:63-122 | accepts exactly the well-typed batches for which one valid UTC day contains both routing times and every non-null row time, in milliseconds or microseconds, and equals every non-null date |
| Base64.Base64Decode | blocks/examples/replay_sec.rs:111-139 | the chunk loop computes the decoding of the whole input, including every refusal |
| Base64.DecodeEncode | blocks/examples/replay_sec.rs:111-139 | decoding inverts padded encoding (section 4 of RFC 4648) for every byte sequence |
| Base64.AcceptedShape | blocks/examples/replay_sec.rs:122-136 | every accepted input has padding only in its last group and yields 3/4 of its length minus the padding |
| Base64.AlphabetIsTable1 | blocks/examples/replay_sec.rs:112-121 | the alphabet and the padding symbol are those of Table 1 of RFC 4648 |
| Base64.AcceptedIff | blocks/examples/replay_sec.rs:122-134 | an input is accepted exactly when its length is a multiple of four, at most two padding symbols end it and every other symbol is in the alphabet |
| Base64.EncodeDecode | blocks/examples/replay_sec.rs:127-138 | encoding what was decoded gives every accepted input back, up to the bits that no byte uses |
| LookupPruning.ExclusionIsSound | firehose-parquet/examples/bench_lookup_properties.rs:391-414 | a group excluded by truthful statistics or a Bloom filter holds no match |
| LookupPruning.PruningIsExact | firehose-parquet/examples/bench_lookup_properties.rs:391-414 | a group is excluded if and only if no rows that its statistics and filter allow hold a match: nothing more is read than the metadata demands |
| LookupPruning.Select | firehose-parquet/examples/bench_lookup_properties.rs:388-416 | selects exactly the groups that are not excluded, in order, loses no match, and counts every pruned group and every consulted filter |
| LookupPruning.Scan | firehose-parquet/examples/bench_lookup_properties.rs:426-431 | counting batch by batch gives the count over all rows |
| LookupPruning.Query | firehose-parquet/examples/bench_lookup_properties.rs:374-431 | the pruned lookup finds exactly the matches of a full scan, for keys and for NULL |
| FlushSizing.FromTableSizes | firehose-parquet/src/flush.rs:17-24 | the saturating fold is the true maximum and min(exact sum, u64::MAX) |
| FlushSizing.SumIgnoresOrder | firehose-parquet/src/flush.rs:17-24 | the total does not depend on the order of the tables |
| FlushSizing.MaximumIgnoresOrder | firehose-parquet/src/flush.rs:17-24 | nor does the maximum |
| FlushSizing.RatioStaysInRange | firehose-parquet/src/flush.rs:76-93 | over any run of observations the ratio stays in [1/1024, 1024] and, once trained, in the range of the accepted samples; it is trained exactly once one was accepted |
| FlushSizing.SampleIsTheRatio | firehose-parquet/src/flush.rs:85-86 | a sample is file bytes per mapper byte within the limits, and else the limit |
| FlushSizing.AcceptedIff | firehose-parquet/src/flush.rs:77-83 | a commit teaches exactly when there is a target, it wrote a file and its mapper bytes reach 1 MiB or a quarter of the target |
| FlushSizing.EqualSamplesConverge | firehose-parquet/src/flush.rs:87-91 | after any training, n further commits with equal samples shrink the distance to them by exactly 2^n |
| FlushSizing.NewSizing | firehose-parquet/src/flush.rs:43-51 | a zero memory threshold is refused, any other starts untrained |
| FlushSizing.Sizing.ObserveCommitted | firehose-parquet/src/flush.rs:76-93 | the mutable ratio is always the one learned from the observations so far |
| FlushSizing.Sizing.PredictedFileBytes | firehose-parquet/src/flush.rs:57-60 | the prediction is bytes times ratio rounded up, saturating |
| FlushSizing.Sizing.TriggerFor | firehose-parquet/src/flush.rs:62-71 | memory comes first; the size trigger fires exactly when the rounded prediction reaches a positive target |

## Left out

- Chain mappers, schemas, network lists, table documentation: data and rendering, easy members only.
- gRPC transport, TLS, authentication, metrics, command line, S3 client construction: plumbing over libraries.
- Parquet and Arrow encoding, SHA-256, UUIDs, JSON parsing: digests and encodings are injective functions, UUIDs are fresh values.
- Reading an object in chunks and decoding it: a read fails, meets an unusable object or gives the whole record.
- Weak, missing or version-ID-only ETags in the protocol: there a version is the stored contents; the ETag forms are modelled in `Canary`.
- Durations, back-off delays and jitter: delays are absent and a timeout is a nondeterministic step.
- Messages with unknown fork steps, and the durations behind a due quiet callback: a wait is due or not.
- OwnershipProtocol.Step: an operator release is one sent request; its own readback and the canary before it change no shared record and are not steps of the protocol.
- OwnershipProtocol.Step: the data mutations that set the latch (uploads, the Delta log) are the one action `MarkUncertain`; their objects are not modelled.
- Canary.RunCanary: every canary request is answered and the probe key and the wrong tag are fresh; lost answers make the source refuse.
- FirehoseStream.StreamBlocks: the server's chain is one fixed sequence whose cursors are positions; a fork that rewrites history shows up as further messages, and Complete is stated for ascending chains, as final-only streams are.
- CivilDays.NextDayIsOneMore: the text of a log line and its time of day are not parsed.
- FlushSizing.RatioStaysInRange: ratios are real numbers; floating-point rounding is not modelled.
- LocalDisk.CrashLeavesASurvivor: one control directory with one parent stands for the whole ancestry, directory changes become durable in order, and symbolic links, permissions and the process lock are not modelled.
- The ingest transaction, Delta commits, dataset locks, native uploads and flush pacing.
