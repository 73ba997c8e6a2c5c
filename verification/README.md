# Verification of the store, its byte log, its recovery and its units

This project models `buff`'s content store and proves what it promises: a write that was acknowledged survives, a
secret meant for one reader reaches at most one, a waiter is never left asleep on something readable, the quota is
conserved to the byte, and a read that ends cleanly at a client is a whole generation.

## How the model is laid out

**The store as a machine.** `StoreMachine` is every operation in flight over every name, interleaved one atomic step at a
time. A step is one critical section of a name's gate, one registry call, one access to the quota counters, or one stage
of the durable protocol; creates, writes, closes, aborts, opens, waits, claims, reader closes, deletes, sweeps, crashes
of the machine, kills of the process, scans cut short, changes of settings and boots all interleave freely. It is built
on pure rules: ids (`GenIds`), generations and what a read resolves (`Generations`), the gate's critical sections
(`Transitions`), records (`Records`) and the disk with the states a crash may leave it in (`DiskModel`).

The invariant comes in groups, each kept by every step: leases (`Leases`), who will reclaim each generation (`Ownership`,
`OwnershipSteps`, `OwnershipTail`), ids, cursors, waiters and conditional writes (`Gates`), the counters
(`QuotaInvariant`), and what is on disk and what a crash may make of it (`Storage` and the `Storage...` modules).
`Invariant` puts the groups together, `Runs` lifts them to runs, and the results are in `Survival`, `Refinement`, `Listing`,
`Requests` (what was asked for is what there is, over whole runs), `Promises`, `Outcomes` (what each operation comes to, and that
each can end), `Accounting` and `Progress`. Where a result is about a rule -- what a read resolves, when a value expires, what a
create is refused for -- it says so in terms of the request, the instants and the name's value, not of the rule's own function.

**The byte log.** `ByteLog` is one writer and any readers, interleaved; `Buffers` holds the log's own objects, each
writer's call and each turn of a follower proved to be that machine's steps; `LogMirror` proves that every step of the
store is, on each generation's log, the log's own writer steps; `ReadShare` is the shared descriptor; `Completion` is
the server's stream and the client's body; `EndToEnd` joins them to the store.

**Recovery.** `Recovery` judges one directory and the whole tree; `RecoveryScan` is the scan itself; `RecoveryBridge` shows
that it keeps the survivors the store machine restores.

**The objects of the store.** `Handles` (the handle, its gate's closures, the registry), `Medium` (one generation's home),
`Quota` (the counters and their compare-and-swap loops), `Writers` (one upload) and `Sweeps` (the reaper and the create
that self-heals) follow the program's own classes and loops. Their methods are proved against the functions of
`Transitions` and `DiskModel` the machine is made of.

**Units.** `Units` is the renderer and parser pair, over the decimal text of `Text`; `Typed` says what each text a person may
type is read as.

## What is assumed

- Random tails are fresh: no id is minted twice. On a collision `create` would remove the directory it collided with.
- A handle whose seed is zero, because the name is new or its handle was evicted, meets a clock ahead of every id of that
  name a crash could still bring back (`ClockAhead`). Within one handle's lifetime nothing is assumed of the clock.
- No id seed has reached the top of the 64-bit range; `NextPrefixAdvances` says exactly what happens there.
- Durability is on: the crash results are about a store whose flushes are flushes. Directory entries settle one by one, so
  a crash of the machine may keep either half of an unflushed rename, and may lose any write not flushed; what it keeps
  has settled. A kill of the process leaves every entry as it was seen, flushed or not, for a later crash to decide. A
  kill while recovery runs is a scan cut short.
- Disk reads made by recovery succeed in the store machine; `Recovery` and `RecoveryScan` take every read and every
  removal, rename and stat that may fail into account.
- `NoLostWakeup` is about runs in which the clock has not stepped back (`steady`); a flip and an admission serve their waiters
  whatever the clock does (`FlipServesTheWaiters`, `AdmissionServesTheWaiters`).
- The network delivers a prefix of the body, and a trailer only after all of it, from a handler that returned (sections 7.1
  and 8 of RFC 9112, section 6.5 of RFC 9110).
- Footprints fit an int64 in the store machine; `ClaimIsExactBelowTheTop` says what happens when they do not.
- Of the standard library's number and duration parsers and of float64 conversion, only what `ReadsDecimals`,
  `ExactOnIntegers`, `Standard` and `FloatOf` say.

## Where the code does less than its comments say

- `store/genid.go:29-32` says a clock that jumps backwards cannot mint an id before an earlier one. It can, once: from the
  top of the range the increment wraps to zero (`NextPrefixWrapsAtTheTop`); a clock before 1970 reads as near the top.
- `store/quota.go:8-9` says the store never overshoots. Near the top of an int64 the sum in the check wraps and the claim is
  let through (`ClaimWrapsAtTheTop`).
- `store/recovery.go:35-38` says recovery needs no durability of its own, and `store/recovery.go:89-127` removes what it
  does not keep on that ground. After a process is killed between a publish rename and its flush, the scan keeps the new
  record, removes the acknowledged one it supersedes, and a power loss may then take the new one back
  (`KilledMidPublishMayLoseBoth`). `KillIsSafeExactlyWhenFlushed` says exactly when that cannot happen.
- `store/reaper.go:82-83` says the throttle holds however the clock steps. A sweep at the instant the clock calls zero is
  remembered as none (`SweepAtZeroIsForgotten`), and a clock that falls back far enough wraps the difference
  (`SweepPastTheBottom`); `PermittedSweepIsSpaced` is the exact condition.
- `units/units.go:4-5` says the parsers accept everything the renderers emit. Not `8.0EiB`, nor the negative counts that
  render with a sign (`WhichSizesDoNotReadBack`).

## Model

| member | source | states |
|---|---|---|
| `GenIds.NextPrefixAdvances` | store/genid.go:34-46 | a name's counter moves strictly forward however the clock jumps, and is the clock itself when the clock is ahead; it fails to advance exactly from the top of the 64-bit range |
| `GenIds.NextPrefixWrapsAtTheTop` | store/genid.go:35-38 | the failing case: a clock one nanosecond before 1970 mints the top prefix, and the next id starts again at zero |
| `GenIds.AfterIsStrictTotalOrder` | store/genid.go:62-67 | `after` is irreflexive, transitive and total on ids |
| `GenIds.ParseAcceptsExactlyTheRendering` | store/recovery.go:310-322 | a directory name parses to an id exactly when it is that id's canonical rendering |
| `GenIds.StringIsInjective` | store/genid.go:48-50 | two ids render alike only if they are one id |
| `GenIds.LexicalOrderIsAfter` | store/genid.go:17-20 | string order of the renderings is the `after` order, so the greatest string is the latest generation |
| `Generations.SelectorsPartitionTheCurrent` | store/generation.go:118-141 | every finalized current belongs to exactly one of the readers' and the reaper's selectors |
| `Generations.ResolutionRespectsRetention` | store/generation.go:164-217 | no read resolves a finalized value past its deadline, a live consume-once generation, or a consumed one |
| `Generations.ReplacementIsInvisible` | store/generation.go:143-148 | while a present finalized value stands, no upload in flight changes what a read resolves |
| `Generations.FollowNextIsNewer` | store/generation.go:209-217 | whatever follow-next resolves is after its baseline, given that anything live was minted past it |
| `Generations.WaitingOnlyEndsByAChange` | store/generation.go:164-217 | the passage of time alone never makes an absent name readable |
| `Records.RecordRoundTrip` | store/disk.go:225-246 | what finalize writes, recovery loads, validates for that directory alone and rebuilds as the same generation, under any checksum settings |
| `Records.ChecksumCatchesAnyByte` | store/disk.go:405-427 | a data file with any one byte changed does not match the checksum it was published with: the CRC's every step is one to one |
| `Records.NamesArePlain` | clip/name.go:8-24 | a valid name is 1 to 128 ASCII letters, digits and, past the first character, dots, underscores and hyphens: nothing that separates a path |
| `Records.NormalizedKeepsWhatTheKindCarries` | clip/clip.go:69-79 | normalizing keeps a filename on files and archives alone and the executable bit on files alone |
| `Leases.LeasePins` | store/registry.go:61-75 | an operation's lease pins its handle as the one its name maps to |
| `Leases.OneHandlePerName` | store/registry.go:32-49 | two operations on one name are on one handle |
| `Leases.AcquireKeepsLeases` | store/registry.go:65-75 | an acquire keeps every lease count exact and every handle in use registered |
| `Leases.ReleaseKeepsLeases` | store/registry.go:120-131 | a release keeps them too, evicting only an empty handle nobody leases |
| `OwnershipSteps.AdmitKeepsOwnership` | store/store.go:215-302 | an admission, refused or not, leaves every generation with exactly one owner |
| `OwnershipSteps.FlipKeepsOwnership` | store/writer.go:99-125 | the publish flip hands the superseded generation to exactly one reclaimer, and none of it if a reader owns its end |
| `OwnershipSteps.DiscardKeepsOwnership` | store/writer.go:176-189 | a discard moves the live generation from its slot to its writer's debt and nowhere else |
| `OwnershipTail.ResolveKeepsOwnership` | store/store.go:464-510 | a claim, delivered or forfeited, moves the current generation to its reader's debt; every other resolve moves nothing |
| `OwnershipTail.RetireKeepsOwnership` | store/store.go:666-673 | a delete or a reap that took moves the current generation to its own debt, one that did not moves nothing |
| `OwnershipTail.ReclaimKeepsOwnership` | store/store.go:616-619 | reclaiming settles exactly one debt |
| `OwnershipTail.ClearKeepsOwnership` | store/store.go:627-638 | clearing a consumed current never touches a replacement |
| `Gates.AdmitKeepsGate` | store/store.go:234-296 | an admission keeps ids ordered, cursors behind the seed, waiters unable to miss a wake, and conditional writes on their match |
| `Gates.FlipKeepsGate` | store/writer.go:99-125 | so does the publish flip |
| `Gates.DiscardKeepsGate` | store/writer.go:176-185 | so does a discard |
| `Gates.ResolveKeepsGateQuietly` | store/gate.go:146-181 | so does a turn of an open that claims nothing: it parks, under the same hold, on the channel it will be woken by |
| `Gates.ResolveKeepsGateClaiming` | store/store.go:471-509 | so does a claim, including the forfeit that wakes nobody |
| `Gates.RetireKeepsGate` | store/store.go:640-673 | so does a retire |
| `Gates.ClearKeepsGate` | store/store.go:627-638 | so does the cleanup of a consumed generation |
| `Gates.TickKeepsGate` | store/store.go:379-391 | so does the clock, as long as it does not step back |
| `Gates.CursorCaptured` | store/store.go:351-391 | the cursor captured at the first resolve is behind the seed and behind anything in flight |
| `QuotaInvariant.AdmittedKeepsQuota` | store/store.go:261-289 | an admitted generation adds one to the clip counter and one to the footprints, within the cap |
| `QuotaInvariant.ReserveKeepsQuota` | store/writer.go:43-64 | a reservation, taken or refused, keeps the byte counter equal to the logs and the reservations, within both caps |
| `QuotaInvariant.AppendKeepsQuota` | store/writer.go:65-69 | storing part of a chunk moves exactly that part from reservation to log |
| `QuotaInvariant.ReturnTailKeepsQuota` | store/writer.go:66-68 | the tail the backing did not store is given back |
| `QuotaInvariant.ReclaimKeepsQuota` | store/quota.go:86-98 | a reclamation gives back one count and exactly the generation's bytes |
| `QuotaInvariant.BootKeepsQuota` | store/quota.go:36-45 | a boot sets the counters to the footprint it restored, whatever the caps |
| `StorageSteps.PublishKeepsStore` | store/disk.go:214-255 | every outcome of the publish keeps what is stored: a record beside exactly the bytes it names, durable before it is visible |
| `StorageSteps.AbortPublishKeepsStore` | store/disk.go:316-342 | every outcome of retiring a failed publish keeps it; a durable one seals the directory |
| `StorageFates.AdmitKeepsStore` | store/disk.go:147-198 | a fresh or half-made home keeps it, and once the disk has settled the id seed still bounds every directory a crash could return |
| `StorageFates.FlipKeepsStore` | store/writer.go:93-138 | the flip acknowledges only what no crash can lose |
| `StorageTail.ClaimKeepsStore` | store/disk.go:284-297 | a claim delivers only once its rename is durable, and only what was never delivered |
| `StorageTail.RetireKeepsStore` | store/disk.go:299-314 | a retire that reports success leaves nothing a crash could return |
| `StorageTail.ReclaimKeepsStore` | store/disk.go:344-366 | a removal, however far it got, never touches an acknowledged value |
| `StorageRestart.CrashKeepsStore` | store/recovery.go:35-40 | the machine going down at any step leaves only directories that are durable or garbage, each name's survivor beating everything that could return |
| `StorageRestart.KillKeepsStore` | store/recovery.go:35-40 | the process dying alone, on a machine that stays up, keeps what is stored as it was seen, flushed or not |
| `StorageRestart.ScanKeepsStore` | store/recovery.go:89-127 | a scan cut short anywhere keeps that |
| `StorageRestart.ReconfigureKeepsStore` | store/recovery.go:199-212 | so does restarting under other caps or another checksum setting |
| `StorageRestart.BootKeepsStore` | store/recovery.go:335-364 | the boot installs the survivors, re-seeds each name's ids past everything on disk, and restores nothing that had ended |
| `Invariant.NextKeepsInv` | store/store.go:215-673 | every step of the whole store keeps the whole invariant: leases, ownership, ids, waiters, quota, disk, deliveries |
| `Runs.ReachableInv` | store/store.go:215-673 | so the invariant holds in every state any run reaches |
| `Runs.NextRemembers` | store/disk.go:214-255 | no step un-publishes, un-acknowledges or un-ends a generation, or changes what was published |
| `Survival.SurvivorsAreDecided` | store/recovery.go:35-40 | from the stop to the boot, no number of interrupted scans and changes of settings changes which generations survive; nor, once the machine has gone down, does its going down again |
| `Survival.AcknowledgedIsTheValue` | store/writer.go:84-138 | while the store serves, a write whose Close returned nil and that nothing has ended is its name's value, under the record and bytes it published |
| `Survival.AcknowledgedWritesSurvive` | store/recovery.go:89-127 | after the machine goes down or the process is killed at any step, and the boot that follows, that write is its name's value again, same generation, same bytes, unless a later write of the name had already taken its publish rename, which is then the value; a machine that goes down after a kill needs what recovery found for the name to have been flushed |
| `Survival.KillIsSafeExactlyWhenFlushed` | store/recovery.go:89-127 | a kill, the scan after it and a power loss after that leave the name an heir, whatever the scan removes and the loss undoes, exactly when what recovery found for it had been flushed; otherwise they may leave it nothing |
| `Survival.KilledMidPublishMayLoseBoth` | store/disk.go:378-389 | the failing case: a process killed between an upload's publish rename and its flush, over an acknowledged value, may lose both |
| `Survival.GoneNeverReturns` | store/recovery.go:142-152 | a generation durably claimed, deleted or retired by an aborted publish survives no later scan and is never readable again |
| `Survival.DeletedStaysDeleted` | store/store.go:543-579 | a delete that returns nil removed the very value it found, for good |
| `Survival.DeliveredStaysGone` | store/store.go:435-463 | a delivered consume-once generation is gone for good |
| `Survival.DeliveredAtMostOnce` | store/store.go:464-510 | over every run, a consume-once generation is handed to at most one reader |
| `Refinement.StepRefinesTheValue` | store/store.go:215-673 | each name is one atomic value: only a publish flip puts it, only a claim, delete or reap whose rename took removes it, and every other step leaves it |
| `Refinement.ReadsReturnTheLatestValue` | store/store.go:312-423 | a reader that attaches holds its name's unexpired value, or follows the one upload in flight when there is none it may take; on a consume-once value it is the one delivery |
| `Refinement.AdmissionMatchesTheValue` | store/store.go:241-257 | a conditional write is admitted only against the readable value, and records which |
| `Listing.ListShowsTheReadable` | store/store.go:581-599 | a list, visiting its handles one by one while everything else moves, shows of each name its value at the visit, unexpired at the list's instant, or nothing; and never nothing of a name that had an unexpired value throughout |
| `Listing.NoNameIsListedTwice` | store/registry.go:93-101 | two names of the snapshot are two handles |
| `Listing.StatSeesWhatAnOpenWould` | store/store.go:512-533 | a stat answers with the unexpired value, or failing that the upload in flight unless it is consume-once, or that a reader has taken it, as a plain open would, and with nothing exactly when there is none of these |
| `Listing.StatLeavesNoTrace` | store/store.go:512-533 | and leaves the store as it found it |
| `Requests.RequestsBecomeOperations` | store/store.go:202-345 | a create starts with its own options and what its kind may carry of its metadata, an open waits if told to or if it asks for the next write, a delete judges as of its own instant |
| `Requests.NextKeepsStory` | store/store.go:269-284 | no step of any operation, no crash and no boot makes a generation, wherever it is found, anything but what its create asked for |
| `Requests.GenerationIsWhatWasAsked` | store/store.go:269-284 | over any run from its admission on, a generation has the name, metadata, creation instant and consume-once flag its create asked for, and a deadline exactly if its span is positive: its own, none if it says keep, or else the store's |
| `Requests.OneReaderIfAsked` | store/store.go:464-510 | over any run, a reader holds the claim on what it reads exactly if the create asked for consume-once; then there is one such reader at most, and one delivery |
| `Requests.DeadlineIsExact` | store/generation.go:118-141 | a value closed at an instant with a span is an open's, a stat's, a list's and a delete's exactly until the span has run out, and a sweep's exactly after |
| `Requests.RetentionIsWhatWasAsked` | store/writer.go:88-91 | over any run, crashes and boots included: from the instant its Close stamped, a write is readable exactly as long as its request says -- for ever if keep, its own positive span, or else the store's -- and a sweep takes it exactly after |
| `Outcomes.AdmissionIsExact` | store/store.go:241-267 | a create is refused exactly for a condition its name's unexpired value does not meet, then for an upload in flight, then for the cap, in this order, and otherwise admitted |
| `Outcomes.AdmissionInstalls` | store/store.go:268-296 | an admitted create installs an empty live upload under a fresh id past the seed, remembers the value its condition met, takes one of the count and wakes the waiters |
| `Outcomes.RefusalLeavesNothing` | store/store.go:234-300 | a create that fails leaves every value, upload, log and counter, and one that is refused leaves all of it |
| `Outcomes.ChunksThatFitAreReserved` | store/writer.go:47-64 | a chunk that fits both caps is reserved, one that does not leaves no trace |
| `Outcomes.WriteOutcome` | store/writer.go:43-71 | a write of a chunk that fits appends what the backing stores of it, counts just that and leaves the upload ready for the next |
| `Outcomes.CloseOutcome` | store/writer.go:84-138 | a close that meets no fault makes its upload its name's value, acknowledged, durable, closed as of the instant it began and over exactly the bytes written; it ends what it replaced and nothing else |
| `Outcomes.ResolutionIsExact` | store/generation.go:164-217 | an open by either rule finds the unexpired value after the cursor it steps past, if any; failing that the upload in flight unless it is consume-once; and otherwise nothing, or that a reader has the value |
| `Outcomes.FlipServesTheWaiters` | store/writer.go:99-125 | after a publish flip everyone parked on the name can go on, and, whether waiting for any value or for the next, finds the new one as long as it is unexpired |
| `Outcomes.AdmissionServesTheWaiters` | store/store.go:285-296 | after an admission everyone parked can go on, and follows the new upload unless it is consume-once or there is a value to take |
| `Outcomes.PlainTurn` | store/gate.go:146-181 | a turn that found nothing to claim attaches to what it found, waits on the channel that was open, or leaves, and moves nothing else |
| `Outcomes.ClaimingTurn` | store/store.go:471-509 | a claim canceled or not taken leaves the value; one that took empties the name and hands the value over, once, exactly if it is durable and its reader opened, and is otherwise this open's to destroy |
| `Outcomes.DeleteOutcome` | store/store.go:543-579 | a delete takes its name's value exactly if that was unexpired as the delete began and the rename took, and nothing else |
| `Outcomes.SweepsSeeTheExpired` | store/reaper.go:122-139 | a sweep observes a value exactly if it is past its deadline at the sweep's instant, by name and id, and can go back for it |
| `Outcomes.ReapOutcome` | store/reaper.go:141-175 | a reap takes its name's value exactly if it is the generation the sweep saw, past its deadline then, and the rename took |
| `Outcomes.ReclaimOutcome` | store/store.go:601-619 | a reclamation gives back one clip and all its bytes whatever the disk did, removes the home as far as the disk went, and moves no value |
| `Outcomes.AbortOutcome` | store/disk.go:316-342 | retiring a failed publish takes the marker from its name if its rename took, for good if it is durable, and leaves the upload to be discarded |
| `Outcomes.AcknowledgedEndsWithItsValue` | store/writer.go:84-138 | while the store serves, a write whose Close returned nil stops being its name's value exactly at a later flip, a claim, a delete or a reap of that name that took |
| `Outcomes.EveryOperationCanEnd` | store/store.go:215-673 | from any state of a store that serves, any operation can be run to its end by itself, whatever else is in flight and whatever the disk refuses |
| `Outcomes.EveryRequestCanBegin` | store/registry.go:65-75 | any request on any valid name can begin at any time, on the handle the name already has |
| `Outcomes.FirstWriteIsItsNamesValue` | store/store.go:202-302 | a first write to an empty store, within the caps, is its name's unexpired value, whole, when its Close returns |
| `Promises.NoLostWakeup` | store/gate.go:126-181 | a waiter parked on a channel still open would find nothing if it resolved now |
| `Promises.WokenWaitersMoveOn` | store/gate.go:157-169 | a parked waiter can go on exactly when its channel was replaced, its request canceled or its wait elapsed; so it can whenever there is something for it, and then it looks again past the same cursor |
| `Promises.OneUploadPerName` | store/store.go:258-260 | two uploads in flight are never of one name, and each is its handle's live generation |
| `Promises.ConditionalWriteReplacesItsMatch` | store/writer.go:102-125 | what a conditional write replaces is the generation it matched, finalized or since consumed, or nothing, and it reclaims nothing else |
| `Promises.IdsNeverRegress` | store/genid.go:28-46 | in every slot the upload in flight is after the value it will replace, and the seed bounds both and, unless a process was killed since the machine last went down, every directory a crash could return |
| `Promises.FollowNextDeliversSomethingNewer` | store/store.go:351-391 | what a follow-next reader holds is strictly after the baseline it captured |
| `Promises.CursorIsCapturedOnce` | store/store.go:379-386 | the baseline is the id current at the first resolve, or zero, and later resolves keep it |
| `Promises.HandlesInUseAreRegistered` | store/registry.go:61-131 | a handle with a lease or a generation is the registered one, and no name has two |
| `Promises.RestingHandle` | store/registry.go:103-131 | with no lease out, a registered handle holds one finalized generation and nothing else |
| `Promises.AtRestTheRegistryIsTheValues` | store/registry.go:103-131 | with no lease out, the registry holds exactly the names that have a value |
| `Promises.ReapRemovesOnlyWhatWasObserved` | store/reaper.go:141-175 | a reap removes a value only if it is the very generation the sweep observed, still expired |
| `Accounting.CountersAreExactAndCapped` | store/quota.go:5-20 | in every reachable state the clip counter is the number of footprints, the byte counter the sum of the logs and the reservations, neither past its cap except by what a boot restored |
| `Accounting.NothingIsStranded` | store/store.go:601-619 | whatever has a footprint is live, finalized, or owed by exactly one operation |
| `Accounting.ReclaimedAtMostOnce` | store/store.go:601-638 | over any run of one process, each generation is reclaimed at most once |
| `Accounting.EveryDebtIsPaid` | store/store.go:601-638 | and whatever is neither live nor a value has an owner whose own next one or two steps, each possible whatever the disk answers, reclaim it |
| `Accounting.AtRestTheCountersAreTheValues` | store/quota.go:16-20 | with no lease out, the counters are exactly the values the names hold |
| `Progress.WritersAreNeverStuck` | store/writer.go:43-189 | whatever an upload's stage, its next step is possible under every outcome |
| `Progress.ReclaimersAreNeverStuck` | store/store.go:616-638 | a log end or a reclamation owed can always be carried out |
| `Progress.RetiresAreNeverStuck` | store/store.go:543-579 | a delete or a reap may end in every way the disk allows: the marker it renames is there |
| `Progress.ReadersAreNeverStuck` | store/store.go:464-487 | so may a claim |
| `Progress.OpensMayBeEnded` | store/gate.go:157-169 | an open may be canceled at any time, a wait may elapse at any time, and a reader may always be closed |
| `Progress.OwnStepsDescend` | store/store.go:215-673 | every step an operation takes on its own account brings it strictly nearer giving its lease back |
| `ByteLog.NextKeepsInv` | store/internal/buffer/buffer.go:79-154 | every interleaving of one writer and any readers keeps the log's invariant |
| `ByteLog.DeliveredIsAPrefix` | store/internal/buffer/follower.go:52-61 | what a reader has been given is a prefix of the published log |
| `ByteLog.CleanEndMeansComplete` | store/internal/buffer/follower.go:62-67 | a clean end comes only after every byte, and for a follower only from a log that finished |
| `ByteLog.TornNeverEndsCleanly` | store/internal/buffer/buffer.go:144-154 | a torn log ends no follower cleanly, and one that reads to its end is told it is torn |
| `ByteLog.TornWinsOverFinished` | store/internal/buffer/follower.go:62-65 | a turn that sees both terminals reports the tear |
| `ByteLog.TruncationTears` | store/internal/buffer/buffer.go:194-220 | a backing that ends inside the published range never ends the stream cleanly |
| `ByteLog.ParkedIsCaughtUp` | store/internal/buffer/follower.go:68-77 | a follower parked on the open channel has every byte and there is no terminal; otherwise it can wake |
| `ByteLog.FollowerReadsWhatThereIs` | store/internal/buffer/follower.go:34-80 | an undisturbed read returns the next published bytes, as many as asked for or there are; at the end of a log the tear or failing that the clean end; otherwise it waits on the channel the next publication replaces |
| `ByteLog.SectionReadsWhatThereIs` | store/internal/buffer/buffer.go:197-247 | a section's read returns the next bytes of its range, as many as asked for or there are, and past its end the clean end |
| `ByteLog.ReadersMayAttach` | store/internal/buffer/buffer.go:158-195 | a log may be followed from its first byte at any time, and read as a section, all of it, once it has ended |
| `Buffers.Backing.Append` | store/internal/buffer/memory.go:20-27 | appending stores what the medium takes of the chunk, and says when that is not all of it |
| `Buffers.Backing.ReadAt` | store/internal/buffer/memory.go:46-67 | a read fills the buffer with the bytes at its offset, all there are, and reports the end of the file exactly when they are too few |
| `Buffers.ReadRegion` | store/internal/buffer/buffer.go:209-220 | within a stored range a read is full and never ends; a range the backing lost tears it |
| `Buffers.Buffer.Append` | store/internal/buffer/buffer.go:105-120 | an append stores, then publishes exactly what was stored, short or not, and wakes, as the log's two steps; after a terminal it refuses and touches nothing |
| `Buffers.Buffer.Finish` | store/internal/buffer/buffer.go:133-142 | finish is the log's finish step |
| `Buffers.Buffer.Fail` | store/internal/buffer/buffer.go:144-154 | fail is the log's fail step |
| `Buffers.FollowerReader.Read` | store/internal/buffer/follower.go:28-79 | for every sequence of states its turns may see, the read parks through those with nothing to say and is decided by the first that has: its bytes or its ending |
| `Buffers.TurnIsTheLogs` | store/internal/buffer/follower.go:42-79 | each turn is the log's own steps: it captures, delivers, ends, parks and wakes exactly when and as the log lets that reader |
| `Buffers.SectionReader.Read` | store/internal/buffer/buffer.go:238-247 | a section reads up to the size it captured, then ends; a truncation below that tears |
| `Buffers.CopySection` | store/internal/buffer/buffer.go:222-247 | copying a section to its end yields the whole log or a tear |
| `ReadShare.Handle.Close` | store/internal/buffer/disk.go:87-92 | a handle gives its reference back once, however often it is closed |
| `ReadShare.Share.OpenRead` | store/internal/buffer/disk.go:34-52 | the descriptor is opened only when nobody holds one; a failed open leaves nothing behind |
| `ReadShare.Share.Release` | store/internal/buffer/disk.go:54-64 | the last reference out closes and clears the descriptor, no other does |
| `ReadShare.CapturedDescriptorIsOpen` | store/internal/buffer/disk.go:18-21 | the descriptor an open handle captured is the current one, and open |
| `ReadShare.ReadAgain` | store/internal/buffer/disk.go:54-55 | reopening after every reader has gone opens a new descriptor |
| `Completion.Stream` | api/framing.go:71-116 | the handler returns only on its source's clean end, with everything it read written, and only then seals a live stream with the trailer; the framing is an exact length or an announced trailer |
| `Completion.Body.Read` | client/get.go:65-107 | the client believes a clean end only with its proof: the declared count, or the trailer |
| `Completion.Copy` | client/get.go:56-79 | a copy through the body ends cleanly only with every byte it was sent and that proof |
| `Completion.CleanCopyIsTheWholeLog` | api/framing.go:57-116 | if the client's copy ended cleanly, it holds every byte of the log its server read |
| `Completion.WholeTransferIsClean` | client/get.go:56-107 | and nothing less than the whole is refused for it: a reader at its log's clean end, over a network that carried everything, is copied cleanly |
| `EndToEnd.FinishedLogsArePublished` | store/writer.go:127-132 | a log that ended cleanly holds exactly what its generation published |
| `LogMirror.StoreStepIsLogSteps` | store/writer.go:65-189 | every step of the store is, on each generation's log, that log's own writer steps or none, and touches no reader of it |
| `LogMirror.TogetherKeepsMirror` | store/internal/buffer/buffer.go:37-49 | however the store's steps and the readers' interleave, the store's log and the followed one stay one log |
| `LogMirror.AdmittedLogMirrors` | store/store.go:269-289 | an admitted generation's log begins as a new followable log |
| `LogMirror.RestoredLogMirrors` | store/internal/buffer/buffer.go:59-67 | a restored one's as a sealed log |
| `EndToEnd.ValuesArePublished` | store/writer.go:93-125 | so does the log of a name's value |
| `EndToEnd.CleanReadIsAPublishedGeneration` | client/get.go:39-44 | from the resolve that attached a reader on: a clean read at the client is the published generation it resolved, whole; on the finalized arm however that was claimed, superseded, deleted or reaped meanwhile |
| `EndToEnd.SectionsArePublished` | store/store.go:488-494 | a reader is given a section only of what has been published and is appended to no more |
| `EndToEnd.AttachmentIsPossible` | store/store.go:488-494 | whatever an open resolves, its reader can be opened: an upload in flight may be followed, anything else has a log that will grow no more |
| `EndToEnd.LeasedReader.Close` | store/store.go:675-709 | closing a reader drops its read handle, then destroys what it consumed, then gives its lease back, all once |
| `Recovery.KeptExactlyWhenSound` | store/recovery.go:133-214 | a directory is kept exactly when its name is an id, and its record decodes, is not newer, names a valid name and this directory, and matches the data's size and checksum |
| `Recovery.ReclaimedExactlyWhenGarbage` | store/recovery.go:140-188 | it is reclaimed exactly when it is one of the store's own with no finalize marker, or a sound marker and no data |
| `Recovery.HalfRemovedIsGarbage` | store/recovery.go:270-280 | a directory whose removal stopped part way is judged garbage again |
| `Recovery.OneWinnerPerName` | store/recovery.go:108-125 | each name keeps at most one directory |
| `Recovery.SomeoneWins` | store/recovery.go:112-117 | every candidate that is not kept loses to one of its name, with a later id, that is |
| `Recovery.SweepsAgreeOnWinners` | store/recovery.go:35-40 | after any part of a scan, half-removed directories included, the next scan keeps the same directories, untouched |
| `Recovery.SweepsAgreeOnTheRest` | store/recovery.go:35-40 | and judges what is left of the rest as before |
| `Recovery.SweepsCompose` | store/recovery.go:35-40 | so any number of interrupted scans amounts to one |
| `RecoveryScan.DiskMedium.FreeName` | store/recovery.go:253-259 | the naming loop ends at the first free name of the series, or one that cannot be stat'd |
| `RecoveryScan.DiskMedium.Quarantine` | store/recovery.go:250-268 | a quarantined directory moves whole under a name no earlier copy has, and is counted only if it moved |
| `RecoveryScan.DiskMedium.RemoveGenDir` | store/recovery.go:274-280 | a removal is counted only if it took the directory |
| `RecoveryScan.DiskMedium.Inspect` | store/recovery.go:133-214 | the ordered tree of checks computes the directory's fate |
| `RecoveryScan.DiskMedium.Classify` | store/recovery.go:133-214 | one directory is dealt with by its fate, nothing else changes, and only a candidate is returned |
| `RecoveryScan.DiskMedium.Latest` | store/recovery.go:112-118 | the candidate kept is one no other is after |
| `RecoveryScan.DiskMedium.RemoveLosers` | store/recovery.go:119-123 | exactly the others are removed and counted |
| `RecoveryScan.DiskMedium.Sort` | store/recovery.go:99-107 | every directory is classified once and every candidate is in its name's group, once |
| `RecoveryScan.DiskMedium.Contest` | store/recovery.go:112-125 | a name's contest leaves its winner untouched, its losers removed |
| `RecoveryScan.DiskMedium.Scan` | store/recovery.go:89-127 | a scan leaves a tree the next scan agrees with, reports exactly the winners, counts exactly what left, keeps earlier quarantined copies, and without faults leaves only the winners |
| `RecoveryBridge.ScanKeepsTheSurvivors` | store/recovery.go:108-125 | the directories the scan keeps are the survivors the store machine restores |
| `RecoveryBridge.SweepIsAScan` | store/recovery.go:89-127 | any tree the scan may leave, finished or cut short, lists a disk the machine's scan may leave |
| `RecoveryBridge.Restore` | store/recovery.go:335-364 | restore gives each name one handle holding its survivor, seeds its ids from it, and totals the footprint |
| `RecoveryBridge.BootIsAlwaysPossible` | store/disk.go:85-116 | whatever is on disk, a store that is down can boot |
| `Quota.ClaimIsExactBelowTheTop` | store/quota.go:51-61 | with a cap or without one, the check in 64-bit arithmetic is the check on the true sum exactly while that sum fits an int64 |
| `Quota.ClaimWrapsAtTheTop` | store/quota.go:51-61 | the failing case: a claim past the top of the range wraps and is let through |
| `Quota.PerClipIsExactBelowTheTop` | store/quota.go:100-106 | the per-clip check admits a chunk exactly when there is no cap or the upload stays within it, as long as the sum fits an int64; past that it wraps and admits every chunk |
| `Quota.Counter.Claim` | store/quota.go:47-61 | whatever other writers do in between, the compare-and-swap loop ends, decides on the value it swaps, and takes all or nothing |
| `Quota.Limits.ReserveClip` | store/quota.go:71-84 | the count's claim is the same claim of one |
| `Quota.Limits.ReleaseGen` | store/quota.go:89-98 | a generation's release gives back its bytes and its count |
| `Quota.ReleaseUndoesReserve` | store/quota.go:63-69 | a release undoes its reservation |
| `Handles.ClipHandle.Allocate` | store/genid.go:34-46 | minting advances the seed exactly when the random tail was read |
| `Handles.ClipHandle.Admit` | store/store.go:234-296 | the admission closure: verdicts in order, the count given back on a fault, a wake only for an install, and the installed generation the request's own -- name, metadata, instant, consume-once and span, none for keep, its own if positive, or else the store's |
| `Handles.ClipHandle.Flip` | store/writer.go:102-125 | the flip closure installs the finalized generation and hands back what it superseded |
| `Handles.ClipHandle.Discard` | store/writer.go:177-185 | the discard closure detaches the live generation and wakes |
| `Handles.ClipHandle.Retire` | store/store.go:666-673 | a retire clears the current generation exactly when its rename took, and faults exactly when it is not durable |
| `Handles.ClipHandle.Delete` | store/store.go:552-567 | a delete retires only what a reader would see, and reports absence and fault apart |
| `Handles.ClipHandle.Reap` | store/reaper.go:159-169 | a reap retires only the generation it names, still expired |
| `Handles.ClipHandle.ClearConsumed` | store/store.go:629-637 | a consumed current is cleared only if it is still the delivered one, and that alone wakes |
| `Handles.ClipHandle.AwaitTurn` | store/gate.go:146-181 | one turn: parked on the channel captured under the hold, refused, declined, or committed, with the claim's three ways |
| `Handles.Registry.Acquire` | store/registry.go:65-75 | an acquire returns the name's handle with one more lease and disturbs no other |
| `Handles.Registry.Release` | store/registry.go:120-131 | a release evicts exactly an empty handle's last lease |
| `Handles.Registry.Snapshot` | store/registry.go:93-101 | a snapshot is exactly the registered handles |
| `Handles.OneHandlePerName` | store/registry.go:32-49 | two handles in use of one name are one handle |
| `Handles.AtRestOnlyGenerationsKeepHandles` | store/registry.go:103-131 | with no lease out, the map holds exactly the names that have a generation |
| `Medium.Home.Commit` | store/disk.go:378-389 | commit reports whether the rename took apart from whether all of it succeeded, in the three ways its callers fork on |
| `Medium.Home.Finalize` | store/disk.go:225-255 | a record that could not be hashed or written was never published; otherwise the publish is one commit |
| `Medium.Home.RenameAside` | store/disk.go:295-342 | claim, unpublish and abortPublish are one commit of the marker out of its name |
| `Medium.SuccessIsDurable` | store/disk.go:368-389 | a publish that reports success over flushed bytes is lost by no crash |
| `Medium.AsideIsForGood` | store/disk.go:299-309 | a rename aside that reports success is undone by no crash |
| `Medium.UnflushedMayGoEitherWay` | store/disk.go:332-334 | one that took and then failed may be found either way |
| `Medium.RemovalsMayComeBack` | store/disk.go:344-366 | no removal is flushed: whatever a crash could have found before one it may still find after, however far it got |
| `Medium.UnsyncedBytesMayBeLost` | store/internal/buffer/buffer.go:111-134 | appended bytes may be lost or torn by a crash until they are synced, and by none after |
| `Writers.Writer.Write` | store/writer.go:43-71 | among rivals, a chunk is refused as too large exactly when it would pass the per-clip cap and for want of space exactly when it would pass the total on the very value it swaps, and is otherwise admitted whole; the tail the backing did not store is given back |
| `Writers.Writer.Discard` | store/writer.go:176-189 | the upload is detached, torn, reclaimed and its lease given back |
| `Writers.Writer.Fail` | store/writer.go:162-168 | a publish that took is retired before the teardown |
| `Writers.Writer.Publish` | store/writer.go:99-138 | the flip, the log's end, the finalized view with its instant and deadline, the superseded reclamation and the lease, once each |
| `Writers.Writer.Close` | store/writer.go:84-138 | a close that returns nil published the generation durably and made it current, closed as of now, with a deadline of now plus its span if that is positive; one that fails left the current value and, when its retire was durable, nothing a crash could return |
| `Writers.Writer.Abort` | store/writer.go:144-150 | an abort discards once and is then a no-op |
| `Writers.Writer.Clip` | store/writer.go:205-212 | the view is the upload's own fields and bytes so far, unfinalized, until the terminal, then what the terminal fixed |
| `Sweeps.SweepsAreSpaced` | store/reaper.go:90-100 | of two successive pressure sweeps the second is at least the interval after the first exactly when the first was not at instant zero (or the second ran late enough after zero) and the clock did not fall back past the bottom of 64 bits in between |
| `Sweeps.PermittedSweepIsSpaced` | store/reaper.go:90-94 | the same of one call, in terms of the instant remembered and now |
| `Sweeps.SweepIsPermittedExactly` | store/reaper.go:90-94 | the throttle lets a sweep run exactly when it remembers none, the clock has moved on by the interval, or the 64-bit difference has wrapped |
| `Sweeps.SweepsAreThePermitted` | store/reaper.go:90-100 | a call sweeps exactly if the throttle lets it since the last sweep there was |
| `Sweeps.ThrottleHoldsWhateverTheClock` | store/reaper.go:78-94 | against every clock at once the throttle holds exactly for the instants before 1970 |
| `Sweeps.SweepPastTheBottom` | store/reaper.go:82-83 | the failing case of a clock that falls back: the difference wraps and the sweep runs before the last one |
| `Sweeps.SweepAtZeroIsForgotten` | store/reaper.go:92-93 | the failing case: a sweep at instant zero reads as none |
| `Sweeps.Store.ReapCandidates` | store/reaper.go:129-139 | the candidates are exactly the expired values, each once |
| `Sweeps.Store.ReapRemove` | store/reaper.go:153-175 | a candidate is removed exactly if its name still holds it expired and the rename takes; the counters follow; nothing else changes |
| `Sweeps.Store.ReapExpired` | store/reaper.go:112-120 | a sweep drops everything expired but what the disk refuses, and only that, and counts it |
| `Sweeps.Store.ReclaimExpired` | store/reaper.go:90-100 | a pressure sweep runs only outside the throttle and only for the caller that claimed the window |
| `Sweeps.Store.Publish` | store/writer.go:99-125 | the flip turns the upload into the value, and what it superseded into a debt |
| `Sweeps.Store.Discard` | store/writer.go:176-189 | a discard turns the upload into a debt |
| `Sweeps.Store.Reclaim` | store/store.go:601-619 | a debt paid is one footprint less |
| `Sweeps.Store.CreateOnce` | store/store.go:215-302 | an attempt comes out as its admission says and its home allows; a refused one leaves no handle and no footprint behind, an admitted one exactly its own |
| `Sweeps.Store.Create` | store/store.go:202-208 | a create not refused for the count is decided at once; if one still reports no room after an unthrottled sweep the disk refused nothing of, every footprint is an upload in flight, owed by some operation, or an unexpired value |
| `Units.LargestUnit` | units/units.go:238-242 | the loop finds the unit the count is at least one and less than 1024 of, within the six there are |
| `Units.Size` | units/units.go:233-244 | a size is exact in bytes below a kibibyte and one decimal of the largest unit above, computed from the count's float64 |
| `Units.ParseSize` | units/units.go:156-203 | the parser sheds suffix and unit and scales the rest, within an int64: the reading WholeSizesAreExact and SizesReadBack describe |
| `Units.SizesReadBack` | units/units.go:229-232 | what Size prints ParseSize reads back, exactly below a kibibyte and otherwise within a twentieth of the unit and what the float64 in between costs: about two bytes up to 2^53, at most 1600 above; refused are a negative count and 8.0EiB |
| `Units.WhichSizesDoNotReadBack` | units/units.go:36-40 | the counts that do not read back are exactly the negative ones and those whose float64 is within a twentieth of an exbibyte of eight |
| `Units.RewriteAll` | units/units.go:71-107 | the rewriting scan ends on every input, computing the rewriting SpansAreReadTermByTerm describes |
| `Units.ParseDuration` | units/units.go:56-109 | a text without day or week goes to the standard parser whole, one with them goes rewritten: the reading DaysAndWeeksAreHours and SpansAreReadTermByTerm describe |
| `Units.ScanIsLossless` | units/units.go:111-115 | the scan's terms spell the text, numbers and units apart |
| `Units.SupersetOfTheStandard` | units/units.go:42-45 | whatever the standard parser accepts means the same here, and the two differ only on texts with a day or a week in them or space around them |
| `Units.SpansReadBack` | units/units.go:117-140 | what Duration prints ParseDuration reads back as the span cut to its largest whole unit, never more, and it prints the same again |
| `Typed.TrimsAround` | units/units.go:57 | space at either end of what is typed is all that is trimmed |
| `Typed.ScanIsExact` | units/units.go:71-85 | a text's terms are the one way to spell it with numbers and units in turn |
| `Typed.SpansAreReadTermByTerm` | units/units.go:66-108 | a span is the standard reading of the same terms in the same order, sign in front, each day as its 24 hours, each week as its 168, and every other term as typed; it is refused here only for a day or week counted in no number |
| `Typed.DaysAndWeeksAreHours` | units/units_test.go:27-36 | whole days and weeks among any other terms, with any sign, read as 24 and 168 times as many hours in the same places: 1d12h as 24h12h, 2w3d4h as 336h72h4h |
| `Typed.DurationIsTheLargestUnit` | units/units.go:117-140 | a span prints as the whole number of the largest of week, day, hour, minute and second it holds, below the next unit, and 0s below a second |
| `Typed.WholeSizesAreExact` | units/units.go:142-203 | a whole number with a unit letter in either case, with or without B, i or iB and space, is that number times that power of 1024, refused exactly when it does not fit an int64 |
| `Typed.NegativeSizesAreRefused` | units/units.go:152-154 | a negative whole size is refused as negative, with any unit |
| `Typed.FractionsNeedAUnit` | units/units.go:148-151 | a fraction of a bare byte is malformed |

## Left out

- Gate sections that touch the disk are one step each, as the lock makes them for every other operation on the name; the clip
  counter's brief rise during a create that fails is not seen by operations on other names.
- A rename and the flush after it are one step with three outcomes. A crash or a kill between the two leaves the disk as
  the failed flush followed by one leaves it, which is one of the outcomes.
- AdmitNext: does not model two ids colliding, because fresh ids are an assumption of the design.
- ObserveNext: a sweep's observations are independent steps, so the machine allows more sweeps than the code makes; the
  order of one sweep, its count and its throttle are in `Sweeps`.
- ReclaimNext: the removal of a home and the release of its quota are one step; both run off every lock, in a fixed order.
- Writer.Write: takes the bytes a pressure sweep frees, and what rivals leave in the counter, as parameters; the sweep
  itself is `Sweeps.Store.ReclaimExpired`.
- Writer.Close: takes the superseded generation's size as a parameter, in place of the pointer to its buffer.
- ClipHandle: generations are values held by their handle, not objects shared by pointer; identity is the id.
- Home.RenameAside: does not keep which of the three names the marker was moved to, because recovery treats them alike.
- FreeName: an entry of quarantine/ that exists but cannot be stat'd ends the loop, and the rename onto it is taken to fail.
- Size: takes the count's float64 as a parameter, of which `FloatOf` says how far it may be; the products by a power of two
  that follow are exact.
- SpanOf: leaves the text of the standard parsers' errors out; only acceptance and value are modelled.
- Checksum: JSON encoding is an injective record; a record too large to read is one that does not decode.
- The memory medium and a disk without flushing run the same steps with outcomes that never fail to take or flush; they
  promise nothing across a crash.
- Contexts, deadlines and socket timeouts are cancel and elapse steps; HTTP routing, headers, error codes, the access log,
  the command line, the archive streams and the client's other calls are mostly one-branch mappings.
- RetentionIsWhatWasAsked: takes instants and spans as unbounded nanoseconds; the standard library's own range of times is not
  modelled.
- Logging, and the background ticker that schedules sweeps.
