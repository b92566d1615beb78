# Failsafe update engine and camera HAL bookkeeping: a verified model

The repository holds a GPT failsafe-update library (recovery/gpt-utils) and a camera HAL
(camera/QCamera2/HAL). This project models their hardest stateful parts in Dafny and proves what
they promise.

**The update engine.** A disk is a byte sequence with two GPT headers, each with an entries array.
`prepare_partitions` keeps its only state on that disk: the stage is read back from which header
signature is broken. `Gpt.dfy` gives the routines as plans (a return code and the writes in order);
`GptEngine.dfy` proves that on every disk of a run they refine a machine over four values;
`GptTheorems.dfy` derives crash atomicity, the full cycle and recovery; `GptDecisions.dfy` says, from
the header bytes of any well-formed disk, which calls are refused; `GptDevice.dfy` is the code
as it runs, with buffers changed in place and transfers that may fail, proved against the plans, exactly so on a
device on which none fails.
The validity rule is that of section 5.3.2 of the UEFI Specification. `BootChain.dfy` and
`PentryArray.dfy` treat the swap of the entries, `GptDisk.dfy` the load-edit-commit API,
`LunList.dfy` the choice of the LUNs to prepare.

**Camera bookkeeping.** `DeferredWork.dfy` (the job table), `ApiResults.dfy` (the result list on
the heap), `ApiCallers.dfy` (its callers and the order they wake in), `PreviewBuffers.dfy`,
`PreviewLoop.dfy` and `PreviewCallbacks.dfy` (the buffer hand-off between two callbacks, driver and
display), `Notifier.dfy` (the callback thread) and `Autofocus.dfy` state what holds in every run.

**Codecs and arithmetic.** `IntText.dfy`, `ParameterMap.dfy` and `CameraParameters.dfy` (parameter
text), `PreviewCopy.dfy` (the packed preview image), `FaceRects.dfy` (face coordinates).

Results that are negative, each with its exact condition: a job id can be live twice once 2^32 jobs
were accepted (`WrapBreaks`, `SubmitDistinct`); the notification bound of autofocus fails in the
continuous modes and for states outside the enumeration (`PaysExactly`); after a cancellation
reports in a continuous mode still notify, and in a mode without runs it does not end an earlier run
(`CancelSilences`, `QuietWhenInactive`); a stop is undone by an older start still queued
(`StopAfterStart`); an error in the preview dequeue loop also loses later buffers (`TurnFate`,
`LossesInLoop`, reached in `ErrorReached`); two callers that wait for one event may get each
other's results (`WrongResultExactly`);
face coordinates beyond 1073741 wrap (`WrapsExactly`); BACKUP interrupted between its two writes is not accepted
again, and repeating a finished FINALIZE returns -1 (`BackupAgain`, `FinalizeAgain`); the
"backup" buffers of the gpt_disk structure are copies of the primary (`GetDiskInfo`).

Well-formed disks (`Gpt.WellFormed`): header sizes fit the block, entries are at least 128 bytes,
both headers agree on count and size of the entries, the product of count and size fits 32 bits,
and headers and arrays do not overlap. `GptExample.dfy` gives a disk that is well-formed, ready for an
update and has a pair to swap: the theorems about such disks are not empty; `GptLiteral.dfy` gives a
header and an entry in literal bytes.

To check everything: `dafny verify dfyconfig.toml`.

## Model

| member | source | states |
|---|---|---|
| `GptTheorems.CrashAtomic` | recovery/gpt-utils/gpt-utils.cpp:740-920 | Over every sequence of stage calls, each possibly cut short at any write (a torn entries write leaves that region arbitrary), some GPT copy is usable and the table in force is exactly the old one or exactly the swapped one; the primary entries never change |
| `GptTheorems.StepKeepsReached` | recovery/gpt-utils/gpt-utils.cpp:740-920 | One call, completed or cut short, leads from a disk of the run to a disk of the run: the inductive step of crash atomicity |
| `GptTheorems.ReachedTable` | recovery/gpt-utils/gpt-utils.cpp:761-801 | The primary signature alone decides the table: the old entries while it is good, the swapped ones while it is broken, and then there was something to swap |
| `GptTheorems.ReachedOutside` | recovery/gpt-utils/gpt-utils.cpp:280-383 | No stage changes anything outside the two header blocks and the secondary entries array |
| `GptTheorems.FullCycle` | recovery/gpt-utils/gpt-utils.cpp:804-910 | MAIN, BACKUP, FINALIZE all return 0, with the swapped table in force after the first and the old one after the second; the disk ends byte-identical to the start exactly when both copies held the same entries to begin with |
| `GptTheorems.MainAgain` | recovery/gpt-utils/gpt-utils.cpp:804-851 | MAIN cut short anywhere: calling it again returns 0 and ends on the disk of the uninterrupted call |
| `GptTheorems.FinalizeAgain` | recovery/gpt-utils/gpt-utils.cpp:889-908 | FINALIZE cut short anywhere: calling it again ends on the disk of the uninterrupted call; if that one had finished, the repeat returns -1 and writes nothing |
| `GptTheorems.BackupAgain` | recovery/gpt-utils/gpt-utils.cpp:791-888 | BACKUP cut short between its two writes is refused afterwards, while MAIN is accepted and restores the very disk BACKUP was called on; before the first write it is accepted again, after both it reports the stage as set |
| `GptTheorems.Completes` | recovery/gpt-utils/gpt-utils.cpp:740-920 | From any disk of a run, after any crashes: FINALIZE, or BACKUP then FINALIZE, return 0 and leave both copies with the old entries; at stage MAIN the disk is ready for a new cycle with the same entries |
| `GptTheorems.RefusedWritesNothing` | recovery/gpt-utils/gpt-utils.cpp:763-803 | On any well-formed disk a plan that does not return 0 has no writes |
| `GptDecisions.CorruptRefused` | recovery/gpt-utils/gpt-utils.cpp:772-786 | On every well-formed disk, told from the header bytes: with a stored checksum of either header that is not that of its bytes, or both signatures bad, every stage call is refused with -1 and no writes |
| `GptDecisions.Decides` | recovery/gpt-utils/gpt-utils.cpp:772-803 | On every well-formed disk the header bytes decide: both good MAIN, primary signature bad BACKUP, else FINALIZE is the stage accepted; the stage before it returns 0 without writes, any other -1, and so does a failed XBL switch on UFS outside FINALIZE |
| `GptDecisions.SetBootChainExactly` | recovery/gpt-utils/gpt-utils.cpp:339-364 | On every well-formed disk, for both chains: -1 if and only if the primary entries do not have the checksum in bytes 88 to 91 of the primary header; 1 if and only if they do, the chain is the backup one and no name has a pair; in both cases no writes |
| `GptDecisions.DamagedUntouched` | recovery/gpt-utils/gpt-utils.cpp:339-344 | With such a damaged primary array MAIN and FINALIZE, complete or cut short, leave every byte of the disk |
| `GptDecisions.SetBootChainResult` | recovery/gpt-utils/gpt-utils.cpp:280-383 | On every well-formed disk a call that returns 0 leaves in the secondary copy the primary entries, swapped for the backup chain, with the right checksums and the signature as it was, and nothing primary changed |
| `GptDecisions.HeaderStateIs` | recovery/gpt-utils/gpt-utils.cpp:425-441 | From the bytes: bad checksum exactly if bytes 16 to 19 are not the checksum of the first bytes with these cleared; else bad signature exactly if the nine signature bytes differ |
| `GptDecisions.SetStateBytes` | recovery/gpt-utils/gpt-utils.cpp:464-520 | For any header that fits: the signature is written, or its first byte cleared, the checksum is good afterwards, and no other byte changes |
| `GptDecisions.FieldsExactly` | recovery/gpt-utils/gpt-utils.cpp:316-324 | The fields by their bytes, with the array offset cut to 64 bits and the array size cut to 32 |
| `GptLiteral.HeaderLiteral` | recovery/gpt-utils/gpt-utils.h:43-53 | A header in literal bytes: each field, and the bytes its checksum goes over |
| `GptLiteral.EntryLiteral` | recovery/gpt-utils/gpt-utils.cpp:184-206 | An entry in literal bytes: its name is read from byte 56 on, two bytes a character, and matches abl |
| `GptEngine.PrepareRefines` | recovery/gpt-utils/gpt-utils.cpp:740-920 | On every disk of a run a stage call is a call of a machine over four values: same return code, and exactly the writes that machine's changes stand for |
| `GptEngine.RunRefines` | recovery/gpt-utils/gpt-utils.cpp:280-383 | Issuing those writes leads to the disk of the changed values |
| `GptEngine.CrashRefines` | recovery/gpt-utils/gpt-utils.cpp:740-920 | Every disk a crash among them can leave is the disk of some configuration the machine can be cut short in |
| `GptForms.SetThenGet` | recovery/gpt-utils/gpt-utils.cpp:398-520 | gpt_get_state after gpt_set_state reports exactly the state set, for every header whose size fits its block, valid before or not |
| `GptForms.BreakThenFix` | recovery/gpt-utils/gpt-utils.cpp:464-520 | Breaking the signature of a valid header and fixing it again restores every byte |
| `GptForms.FormOfValid` | recovery/gpt-utils/gpt-utils.cpp:425-441 | A valid header is determined by its layout, signature and entries checksum: its normal form is itself |
| `Bytes.GetAfterPut` | recovery/gpt-utils/gpt-utils.cpp:90-113 | GET_4_BYTES inverts PUT_4_BYTES for every 32-bit value, and the bytes around the field stay |
| `Bytes.PutInto` | recovery/gpt-utils/gpt-utils.cpp:104-113 | The four byte stores write exactly the little-endian field and nothing else |
| `BootChain.SwapPass` | recovery/gpt-utils/gpt-utils.cpp:223-264 | A pass over mutually exclusive names moves the first 128 bytes of every slot by one permutation (each slot and its partner), leaves the tails, and leaves every name finding the same positions |
| `BootChain.SwapListExclusive` | recovery/gpt-utils/gpt-utils.h:81-86 | No entry is found by two of the 23 listed names |
| `BootChain.DifferentNames` | recovery/gpt-utils/gpt-utils.cpp:184-206 | Two different names, neither the other plus "bak", never match the same entry |
| `BootChain.PartnerInvolutive` | recovery/gpt-utils/gpt-utils.cpp:223-264 | The partner of the partner is the slot itself: at most one pair of positions per name, all pairs disjoint |
| `BootChain.SwapTwice` | recovery/gpt-utils/gpt-utils.cpp:223-264 | Two passes restore the array |
| `BootChain.SwapPermutes` | recovery/gpt-utils/gpt-utils.cpp:250-257 | The 128-byte entries are permuted, for any names |
| `BootChain.SwapFound` | recovery/gpt-utils/gpt-utils.cpp:229-264 | The pass reports a pair exactly when some name that is not skipped has two entries; without one the array is unchanged |
| `BootChain.SkippedExactly` | recovery/gpt-utils/gpt-utils.cpp:234-239 | On eMMC no name is skipped; on UFS exactly the names beginning with xbl, of the listed ones only the first |
| `BootChain.PairExactly` | recovery/gpt-utils/gpt-utils.cpp:241-252 | A name has a pair exactly if it is not skipped and two entries match it; the pair is the first two |
| `BootChain.MatchesExactly` | recovery/gpt-utils/gpt-utils.cpp:189-203 | An entry matches exactly if the low bytes of its name spell the given name, or that followed by bak, up to a zero among the 36 |
| `BootChain.PartnerOfPair` | recovery/gpt-utils/gpt-utils.cpp:241-257 | The two entries of a pair are each other's partner |
| `BootChain.PartnerOfNone` | recovery/gpt-utils/gpt-utils.cpp:241-257 | and an entry in no pair is its own |
| `BootChain.FirstMatchIsFirst` | recovery/gpt-utils/gpt-utils.cpp:184-206 | The entry found is the first match from the given one on; none is found only if there is none |
| `PentryArray.SwapBufferTwice` | recovery/gpt-utils/gpt-utils.cpp:223-264 | On the byte buffer: swapping twice is the identity |
| `PentryArray.SwapBufferPair` | recovery/gpt-utils/gpt-utils.cpp:253-257 | On the bytes: the first 128 of the two entries of every pair change places |
| `PentryArray.SwapBufferKept` | recovery/gpt-utils/gpt-utils.cpp:253-257 | and all other bytes stay |
| `PentryArray.SwapBufferUnfound` | recovery/gpt-utils/gpt-utils.cpp:223-264 | Without a pair the buffer comes back unchanged |
| `PentryArray.SplitExchange` | recovery/gpt-utils/gpt-utils.cpp:253-257 | Exchanging 128 bytes at two slots of the buffer exchanges the entries and nothing else |
| `PentryArray.JoinSplit` | recovery/gpt-utils/gpt-utils.cpp:184-206 | The buffer is the concatenation of its entries |
| `PentryArray.PentrySeek` | recovery/gpt-utils/gpt-utils.cpp:184-206 | For any name whose comparisons stay inside the 36-character copy: the loop returns the offset of the first matching entry, and NULL if there is none |
| `BootChain.ComparableReadsInside` | recovery/gpt-utils/gpt-utils.cpp:184-206 | Names of at most 32 characters never make the comparison leave the copy |
| `PentryArray.BootChainSwap` | recovery/gpt-utils/gpt-utils.cpp:223-264 | The in-place code computes that swap and returns 0 exactly when a pair was exchanged, else 1 |
| `GptDevice.BlockDevice.GptGetState` | recovery/gpt-utils/gpt-utils.cpp:398-447 | The state of one header from its bytes; a bad checksum overrides a bad signature; it fails only with a transfer |
| `GptDevice.BlockDevice.GptSetState` | recovery/gpt-utils/gpt-utils.cpp:464-520 | One header block rewritten with the signature fixed or broken and a fresh checksum, or -1, and that only when a transfer failed |
| `GptDevice.BlockDevice.Gpt2SetBootChain` | recovery/gpt-utils/gpt-utils.cpp:280-383 | In place: always from the primary array, always to the secondary copy, header, then entries; without a failing transfer exactly the plan, a failure leaves a prefix of these writes; 1 without a pair and then nothing is written; a primary array without its checksum gives -1 and an unchanged disk |
| `GptDevice.BlockDevice.PreparePartitions` | recovery/gpt-utils/gpt-utils.cpp:740-920 | Without a failing transfer the in-place code has exactly the return code and writes of the stage plan, otherwise it may be cut short in it with -1; -1 and no write when the device cannot be opened; it returns 1 with nothing written when a header state cannot be read; a disk with a corrupt header comes back unchanged with a nonzero code, and one with a damaged primary array unchanged outside BACKUP |
| `GptDevice.OutcomeIsStep` | recovery/gpt-utils/gpt-utils.cpp:740-920 | Whatever the in-place code returned, 1 included, the disk is one that the crash theorems cover |
| `GptDisk.EditAndCommit` | recovery/gpt-utils/gpt-utils.cpp:1468-1538 | After any edit, update_crc and commit the primary copy holds the edit and passes header and entries checks (the signature is what it was), the secondary copy is untouched; without an edit on a valid copy no byte changes |
| `GptDisk.CommitCrash` | recovery/gpt-utils/gpt-utils.cpp:1503-1538 | Wherever a commit is cut short the secondary copy is untouched; if that was usable, the table in force after the first write is the primary entries as they are when their checksum is that of the edit and the signature is good, else the secondary ones |
| `GptDisk.CommitRuns` | recovery/gpt-utils/gpt-utils.cpp:1503-1538 | The two writes of a commit, after update_crc, leave exactly that disk |
| `GptDisk.GptDiskInfo.GetDiskInfo` | recovery/gpt-utils/gpt-utils.cpp:1373-1443 | 0 with both header buffers and both entries buffers holding the primary copy (also the backup ones) and all checksums filled in, or -1 and not initialized by it |
| `GptDisk.GptDiskInfo.GetPentry` | recovery/gpt-utils/gpt-utils.cpp:1446-1462 | Where the first matching entry starts in the chosen buffer; NULL without one or when not initialized |
| `GptDisk.GptDiskInfo.UpdateCrc` | recovery/gpt-utils/gpt-utils.cpp:1468-1500 | Each header gets the checksum of its own entries buffer and its own checksum; -1 and no change when not initialized |
| `GptDisk.Commit` | recovery/gpt-utils/gpt-utils.cpp:1503-1538 | Writes the primary header, then the primary entries, and nothing else; it is cut short only when a transfer fails, and -1 with nothing written when the device cannot be opened |
| `GptDisk.EditPrimary` | recovery/gpt-utils/gpt-utils.cpp:1373-1538 | Load, edit, update_crc and commit as run, successful if no transfer fails: on success the disk is the one EditAndCommit describes, else unchanged or a commit of it cut short |
| `LunList.UpdateData.AddLun` | recovery/gpt-utils/gpt-utils.cpp:922-966 | Appends the path unless, up to 24 entries, some listed path is a prefix of it; -1 when it cannot be accessed |
| `LunList.AddedIsSet` | recovery/gpt-utils/gpt-utils.cpp:946-955 | Among paths of one length a repetition is left out exactly while the list has fewer than 25 entries |
| `LunList.AddedExactly` | recovery/gpt-utils/gpt-utils.cpp:946-962 | On any list: the path stays out exactly if there are at most 24 entries and one of them is the start of the path |
| `LunList.UpdateData.Collect` | recovery/gpt-utils/gpt-utils.cpp:994-1031 | A path is listed if and only if some listed name not beginning with xbl has a link with a target of at least 15 characters whose first 14 are that path, and the path is accessible; each once, in the order they were met, at most 22 |
| `LunList.CollectedAre` | recovery/gpt-utils/gpt-utils.cpp:994-1031 | The same for the folded list: exactly the paths some link leads to, an earlier one being met before a later one |
| `LunList.DistinctIs` | recovery/gpt-utils/gpt-utils.cpp:994-1031 | Without repetition means: every resolved path, once, in the order of first occurrence |
| `LunList.LunsAtMost` | recovery/gpt-utils/gpt-utils.cpp:1001-1004 | xbl contributes nothing, so at most 22 of the 23 names do |
| `LunList.PrepareLuns` | recovery/gpt-utils/gpt-utils.cpp:1032-1046 | Every LUN of the list is given the stage, failures included; 0 only if every call returned 0 |
| `LunList.PrepareUfs` | recovery/gpt-utils/gpt-utils.cpp:994-1046 | Collecting and preparing together: every resolved LUN is prepared exactly once, no other disk is touched, 0 exactly if every call returned 0, which without failing transfers is decided by the disks |
| `LunList.PrepareBootUpdate` | recovery/gpt-utils/gpt-utils.cpp:968-1047 | On UFS exactly the resolved LUNs are prepared and 0 means that each returned 0; and without failing transfers exactly if every LUN accepts the stage; otherwise the one eMMC disk |
| `LunList.FinishAll` | recovery/gpt-utils/gpt-utils.cpp:1032-1046 | From LUNs at any mix of stages of interrupted updates, BACKUP then FINALIZE over all of them: each ends with the old entries in both copies, or stood at MAIN and is ready for a new cycle; the last call returns 0 if and only if none stood at MAIN |
| `LunList.FinishUfs` | recovery/gpt-utils/gpt-utils.cpp:968-1047 | The same two calls as run, any transfer failing: every LUN stays in a state of its update, and when the second returns 0 both copies of every listed LUN hold its old entries; without failing transfers it returns 0 if and only if no LUN stood at MAIN |
| `DeferredWork.JobTable.QueueDeferredWork` | camera/QCamera2/HAL/QCamera2HWI.cpp:10731-10760 | The first free slot gets the next id, which skips 0 on overflow; 0 without a slot, memory or an active queue |
| `DeferredWork.JobTable.DequeueDeferredWork` | camera/QCamera2/HAL/QCamera2HWI.cpp:10923-10943 | The first slot with the id is freed, or keeps id and status when the job failed |
| `DeferredWork.DequeueExactly` | camera/QCamera2/HAL/QCamera2HWI.cpp:10923-10943 | On any table: the first slot with the id is freed, or given the failure, and NO_ERROR returned; without one nothing changes and UNKNOWN_ERROR is returned |
| `DeferredWork.RunningDequeues` | camera/QCamera2/HAL/QCamera2HWI.cpp:10923-10943 | In the protocol the worker always finds the slot of the job it ran |
| `DeferredWork.JobTable.CheckDeferredWork` | camera/QCamera2/HAL/QCamera2HWI.cpp:10985-10993 | True exactly while the first slot with the id has no failure |
| `DeferredWork.JobTable.GetDefJobStatus` | camera/QCamera2/HAL/QCamera2HWI.cpp:10957-10970 | The status in the first slot with the id, NO_ERROR without one |
| `DeferredWork.ReachableKeeps` | camera/QCamera2/HAL/QCamera2HWI.cpp:10731-11020 | Below 2^32 accepted jobs: jobs run in order, live ids are nonzero and distinct, pending slots are the jobs queued or running, failed slots the failed jobs with their status |
| `DeferredWork.WaitIsExact` | camera/QCamera2/HAL/QCamera2HWI.cpp:11007-11020 | A wait for an accepted job returns exactly when the job was dequeued, with the status it was dequeued with |
| `DeferredWork.WaitIsStable` | camera/QCamera2/HAL/QCamera2HWI.cpp:11007-11020 | and every later wait returns the same |
| `DeferredWork.Capacity` | camera/QCamera2/HAL/QCamera2HWI.cpp:10734-10759 | Free + pending + failed = 25; a submission with memory and an active queue is refused exactly when the jobs under way and all failures so far fill the table |
| `DeferredWork.SubmitDistinct` | camera/QCamera2/HAL/QCamera2HWI.cpp:10743-10747 | For any table: a submission keeps live ids distinct exactly when it is refused or the next id is not live |
| `DeferredWork.WrapBreaks` | camera/QCamera2/HAL/QCamera2HWI.cpp:10743-10747 | With 2^32 accepted jobs a reachable state has two slots with id 1, and a wait for the queued job returns the old failure |
| `ApiResults.ResultList.Signal` | camera/QCamera2/HAL/QCamera2HWI.cpp:7286-7306 | The heap list stays linked and acyclic and gains the result at its end; without memory nothing changes |
| `ApiResults.ResultList.TakeResult` | camera/QCamera2/HAL/QCamera2HWI.cpp:7234-7254 | The first result for the event is unlinked and returned, the order of the others stays; without one nothing changes |
| `ApiResults.TakeIsOldest` | camera/QCamera2/HAL/QCamera2HWI.cpp:7239-7251 | Taking for an event gives its oldest result and leaves the results of every other event |
| `ApiResults.RunKeeps` | camera/QCamera2/HAL/QCamera2HWI.cpp:7229-7306 | In every run, per event, delivered followed by waiting is signalled, in order; nothing is lost or delivered twice |
| `ApiResults.WakeReturns` | camera/QCamera2/HAL/QCamera2HWI.cpp:7234-7256 | A woken waiter returns exactly when fewer results were delivered for its event than signalled |
| `ApiCallers.NoLostWakeup` | camera/QCamera2/HAL/QCamera2HWI.cpp:7229-7306 | In every run of callers and signals, failed allocations and spurious wakeups included: a listed result has a woken caller that will scan for it; a caller sleeps beside a listed result for its event only next to another woken one |
| `ApiCallers.AloneNeverSleepsOn` | camera/QCamera2/HAL/QCamera2HWI.cpp:7229-7306 | So where no two callers wait for one event, none sleeps while a result for its event is listed |
| `ApiCallers.WrongResultExactly` | camera/QCamera2/HAL/QCamera2HWI.cpp:7229-7306 | The wake order can give a caller the result of another call if and only if two callers wait for one event with a result for it listed or still to come |
| `ApiCallers.OneEachGetsOwn` | camera/QCamera2/HAL/QCamera2HWI.cpp:7229-7306 | In a run in which no two callers ever wait for one event, every caller that returns has the result of its own call |
| `ApiCallers.ScanIsTake` | camera/QCamera2/HAL/QCamera2HWI.cpp:7239-7251 | The scan of these callers is that of the result list |
| `PreviewBuffers.RunKeeps` | camera/QCamera2/HAL/QCamera2HWICallbacks.cpp:791-1038 | In every interleaving of both callbacks, the driver and the display, any call failing or not: each buffer is in exactly one place, the counter differs from the display only by an increment or decrement in flight, a skipped buffer has a notice that will return it, the driver only has mapped buffers |
| `PreviewCallbacks.PreviewHal.SynchronousStreamCb` | camera/QCamera2/HAL/QCamera2HWICallbacks.cpp:791-866 | The synchronous callback in place: marked as skipped, or displayed and counted, or neither when the enqueue fails |
| `PreviewCallbacks.PreviewHal.PreviewStreamCb` | camera/QCamera2/HAL/QCamera2HWICallbacks.cpp:889-1038 | The preview callback in place, calls failing or not: a discarded frame goes back, otherwise the loop makes at most as many turns as the counter it read, each with a buffer the display had; the invariant is kept |
| `PreviewCallbacks.PreviewHal.DequeueLoop` | camera/QCamera2/HAL/QCamera2HWICallbacks.cpp:985-1020 | For any answers of the calls: the loop makes exactly its turns, the error kept from one to the next, up to the first dequeueBuffer that fails, and all of them if none fails |
| `PreviewBuffers.NothingRefused` | camera/QCamera2/HAL/QCamera2HWICallbacks.cpp:855-1017 | A buffer is never enqueued twice or returned twice, the counter is positive at every decrement, and during the dequeue loop the display has a buffer to give |
| `PreviewBuffers.AtRest` | camera/QCamera2/HAL/QCamera2HWICallbacks.cpp:791-1038 | With both threads at rest every buffer is with the driver, counted with the display, or lost to a failed call |
| `PreviewBuffers.CounterSmall` | camera/QCamera2/HAL/QCamera2HWI.h:784 | The 8-bit counter never overflows |
| `PreviewBuffers.SyncFrame` | camera/QCamera2/HAL/QCamera2HWICallbacks.cpp:826-866 | In every state of a run and whatever thread moves next: a frame in the synchronous callback is nowhere else until it decides; then it is displayed, lost if the enqueue failed, or marked as skipped and not displayed |
| `PreviewBuffers.SyncNotice` | camera/QCamera2/HAL/QCamera2HWICallbacks.cpp:928-985 | With the synchronous callback, whatever thread moves next: the notice of a skipped frame leads to its discard, any other to the loop with as many dequeues as buffers are displayed and counted |
| `PreviewBuffers.FramesInOrder` | camera/QCamera2/HAL/QCamera2HWICallbacks.cpp:889-946 | In every run the preview thread takes each queued frame once, in the order they were queued |
| `PreviewBuffers.UndisplayedStep` | camera/QCamera2/HAL/QCamera2HWICallbacks.cpp:928-946 | In every state of a run and whatever thread moves next: a skipped or discarded buffer is not displayed and stays on its way back, until the discard hands it to the driver, or loses it if bufDone fails |
| `PreviewBuffers.SkippedFate` | camera/QCamera2/HAL/QCamera2HWICallbacks.cpp:791-946 | So in every interleaving a skipped buffer is on its way back, never displayed, throughout, or up to the step that completes a discard of it |
| `PreviewBuffers.AsyncFrame` | camera/QCamera2/HAL/QCamera2HWICallbacks.cpp:928-977 | Without the synchronous callback, in every state of a run and whatever thread moves next: a frame stays with the preview thread, is displayed and counted if it was to be processed, else goes back undisplayed, or is lost with the call that failed |
| `PreviewBuffers.LoopReturns` | camera/QCamera2/HAL/QCamera2HWICallbacks.cpp:985-1020 | For a loop no other thread comes between: its turns take just the buffers handed out from the display and leave each with the driver, mapped, or lost; when every call succeeds, all with the driver |
| `PreviewLoop.TurnFate` | camera/QCamera2/HAL/QCamera2HWICallbacks.cpp:985-1020 | In every interleaving: when a turn of the loop is completed its buffer is with the driver if and only if some turn up to it was free of earlier errors (its buffer new in that turn, or the first turn with none pending) and all calls from there to it succeeded; otherwise it is lost |
| `PreviewLoop.PendingIs` | camera/QCamera2/HAL/QCamera2HWICallbacks.cpp:985-1020 | In every interleaving inside a loop: an error is pending exactly if the last completed turn did not bring its buffer back, and each turn is completed, under way or still to be made |
| `PreviewLoop.LossesInLoop` | camera/QCamera2/HAL/QCamera2HWICallbacks.cpp:985-1020 | In every interleaving inside a loop: lost are just the buffers of the turns that did not come back and those whose enqueue failed in the poll thread; the loop loses nothing if and only if all its calls succeed and no pending error meets a known buffer in its first turn |
| `PreviewLoop.LoopFate` | camera/QCamera2/HAL/QCamera2HWICallbacks.cpp:985-1020 | Corollary for a loop no other thread comes between: at its end every buffer handed out is with the driver or lost by the same rule, and none is with the display |
| `PreviewLoop.LoopLosesNothing` | camera/QCamera2/HAL/QCamera2HWICallbacks.cpp:985-1020 | Corollary for a loop no other thread comes between: no buffer is lost if and only if all its calls succeed and no pending error meets a known buffer in the first turn |
| `PreviewLoop.ErrorReached` | camera/QCamera2/HAL/QCamera2HWICallbacks.cpp:791-1020 | A run reaches a pending error with a known buffer still to return, and that buffer is lost though its own calls succeed |
| `PreviewLoop.ErrorSticksInTurns` | camera/QCamera2/HAL/QCamera2HWICallbacks.cpp:985-1020 | With an error pending at the start, no buffer comes back before the first new one, in any interleaving |
| `PreviewBuffers.ErrorSticks` | camera/QCamera2/HAL/QCamera2HWICallbacks.cpp:985-1020 | Corollary for a loop no other thread comes between and that gets no new buffer: with an error pending every buffer handed out is lost |
| `PreviewBuffers.NothingLost` | camera/QCamera2/HAL/QCamera2HWICallbacks.cpp:791-1038 | A run in which every call succeeds loses no buffer |
| `PreviewBuffers.LostForGood` | camera/QCamera2/HAL/QCamera2HWICallbacks.cpp:791-1038 | In no run does the driver, the display or a thread have a lost buffer again, nor is it queued to be returned |
| `PreviewCopy.PreviewData` | camera/QCamera2/HAL/QCamera2HWICallbacks.cpp:1107-1204 | For the semi-planar formats the application gets the packed image, whether copied or not; the buffer itself is passed exactly when the totals are equal and not zero, and nothing when they are both zero |
| `PreviewCopy.PackedAt` | camera/QCamera2/HAL/QCamera2HWICallbacks.cpp:1153-1172 | Byte c of row i is byte c of strided source row i, in both planes, in range |
| `PreviewCopy.CopyRows` | camera/QCamera2/HAL/QCamera2HWICallbacks.cpp:1153-1172 | One copy loop, in place: exactly those rows, nothing before them changed |
| `PreviewCopy.TotalsDecide` | camera/QCamera2/HAL/QCamera2HWICallbacks.cpp:1122-1136 | Equal totals force equal strides and scanlines, plane by plane |
| `PreviewCopy.FastPathSame` | camera/QCamera2/HAL/QCamera2HWICallbacks.cpp:1136-1144 | so the unpacked buffer already is the packed image |
| `Notifier.CbNotifier.HandleNext` | camera/QCamera2/HAL/QCamera2HWICallbacks.cpp:3266-3459 | One command of the thread, in place; SNAPSHOT_DONE exactly when the count goes up, and only at the handling of an enabled snapshot with the data callback set, snapshots active and outside longshot |
| `Notifier.CbNotifier.EnqueueCallback` | camera/QCamera2/HAL/QCamera2HWICallbacks.cpp:3473-3494 | The notification is queued, or refused by an inactive queue |
| `Notifier.RunConserves` | camera/QCamera2/HAL/QCamera2HWICallbacks.cpp:3266-3494 | Every accepted notification is handled, flushed or queued, in the order of the calls; commands, calls under way and idle commands balance queued and flushed ones |
| `Notifier.NoneStranded` | camera/QCamera2/HAL/QCamera2HWICallbacks.cpp:3484-3490 | Commands to come and calls under way cover the queue, flushes included |
| `Notifier.FlushesDiscriminate` | camera/QCamera2/HAL/QCamera2HWICallbacks.cpp:3187-3308 | A flush takes out all notifications of its kind and no other; a stop does so for snapshots |
| `Notifier.DoneOnce` | camera/QCamera2/HAL/QCamera2HWICallbacks.cpp:3373-3392 | SNAPSHOT_DONE since the last start: raised once the expected number was handled, and at most once exactly if fewer than expected + 2^32 are handled |
| `Notifier.DoneAtExpected` | camera/QCamera2/HAL/QCamera2HWICallbacks.cpp:3377-3386 | The handling that raises it is that of the expected-th snapshot |
| `Notifier.DoneExactly` | camera/QCamera2/HAL/QCamera2HWICallbacks.cpp:3278-3392 | In every run from the handling of a START on, with no other control command: SNAPSHOT_DONE is raised at the n-th enabled snapshot that is dequeued with the data callback set, n the expected number, and at no other below 2^32; never in longshot or with n = 0. The handlings are counted from queue and surroundings |
| `Notifier.InactiveRaisesNone` | camera/QCamera2/HAL/QCamera2HWICallbacks.cpp:3373-3392 | With snapshots inactive and no START under way none is ever raised |
| `Notifier.ExitEnds` | camera/QCamera2/HAL/QCamera2HWICallbacks.cpp:3434-3459 | After an EXIT, in every run: nothing is accepted, queued, handled or raised any more, and what was queued is flushed |
| `Notifier.StopAfterStart` | camera/QCamera2/HAL/QCamera2HWICallbacks.cpp:3608-3625 | For any interleaving long enough to handle the queued commands: after a stop snapshots are inactive exactly if the last START or STOP queued when it was sent was not a START; after a start they are active exactly if it was not a STOP |
| `Notifier.RunSettles` | camera/QCamera2/HAL/QCamera2HWICallbacks.cpp:3266-3459 | What the queued commands will leave stays the same under every call, send, flush and handling, and each handling uses up one of them |
| `Autofocus.FocusControl.AutoFocus` | camera/QCamera2/HAL/QCamera2HWI.cpp:4135-4165 | The flag and the notifications after a call, for every mode and return code |
| `Autofocus.FocusControl.CancelAutoFocus` | camera/QCamera2/HAL/QCamera2HWI.cpp:4178-4199 | The flag is cleared exactly in the modes that have runs |
| `Autofocus.FocusControl.ProcessAutoFocusEvent` | camera/QCamera2/HAL/QCamera2HWI.cpp:6701-6831 | The flag and the notifications after a report, for every mode and state |
| `Autofocus.AtMostOnePerCall` | camera/QCamera2/HAL/QCamera2HWI.cpp:6713-6763 | Outside the continuous modes and for the seven states, focus notifications never exceed calls, one fewer while a run is active |
| `Autofocus.PaysExactly` | camera/QCamera2/HAL/QCamera2HWI.cpp:6713-6828 | A step breaks that bound exactly for a notifying report in a continuous mode without a run, or in AUTO or MACRO for a state outside the enumeration |
| `Autofocus.QuietWhenInactive` | camera/QCamera2/HAL/QCamera2HWI.cpp:6713-6828 | With no run active and before the next call, for any events: nothing is sent exactly if there is no report in a continuous mode, no focus notification exactly if none of those is in a notifying state |
| `Autofocus.CancelSilences` | camera/QCamera2/HAL/QCamera2HWI.cpp:4178-4199 | For any events before the next call: after a cancellation in a mode with runs the same holds, in a continuous mode too; in the other modes the cancellation has no effect whatever |
| `Autofocus.CancelSilencesModes` | camera/QCamera2/HAL/QCamera2HWI.cpp:4178-4199 | With a run active, a cancellation silences all events without such reports exactly in the modes that have runs |
| `Autofocus.RunReportsFirstEnd` | camera/QCamera2/HAL/QCamera2HWI.cpp:6713-6828 | A run in AUTO or MACRO, for any reports: one failure notification for each state outside the enumeration before the first report that ends it, then one for that report with its success, and nothing more |
| `Autofocus.KnownRunReportsOnce` | camera/QCamera2/HAL/QCamera2HWI.cpp:6713-6828 | With states of the enumeration: exactly one notification, or none while the run goes on |
| `Autofocus.CallThenReports` | camera/QCamera2/HAL/QCamera2HWI.cpp:4135-4165 | A call in any mode followed by any reports in AUTO or MACRO: flag and notifications to the end, from the return code and the reports alone |
| `Autofocus.ContinuousNotes` | camera/QCamera2/HAL/QCamera2HWI.cpp:6766-6820 | The notifications in the continuous modes, state by state with their success and moving values |
| `Autofocus.ContinuousReport` | camera/QCamera2/HAL/QCamera2HWI.cpp:6766-6828 | A report in a continuous mode ends the run exactly for a locked state or a switch to INFINITY; on the secondary camera nothing happens |
| `Autofocus.OtherReport` | camera/QCamera2/HAL/QCamera2HWI.cpp:6713-6828 | In the modes without runs nothing is sent, and only a locked state ends a run |
| `ParameterMap.ReadText` | camera/QCamera2/HAL/CameraParameters.cpp:185-235 | Unflattening the flattened text gives the same parameters exactly when no key holds = and no value holds ; |
| `ParameterMap.NormalForm` | camera/QCamera2/HAL/CameraParameters.cpp:185-235 | Flatten after unflatten is a normal form, for any text |
| `ParameterMap.ReadKeeps` | camera/QCamera2/HAL/CameraParameters.cpp:205-235 | unflatten of any text gives sorted parameters with that invariant |
| `ParameterMap.AddIsUpdate` | camera/QCamera2/HAL/CameraParameters.cpp:228-251 | Adding keeps the order and is a map update of the one key |
| `ParameterMap.LessExactly` | camera/QCamera2/HAL/CameraParameters.cpp:185-203 | The order of the vector is that of strcmp: by the first character that differs, or the end |
| `ParameterMap.RemoveIsMinus` | camera/QCamera2/HAL/CameraParameters.cpp:291-294 | Removing keeps the order and takes away the one key |
| `CameraParameters.AlwaysReadable` | camera/QCamera2/HAL/CameraParameters.cpp:185-294 | After any mix of set, unflatten and remove on arbitrary strings, unflatten(flatten(p)) is p |
| `CameraParameters.PutThenLookup` | camera/QCamera2/HAL/CameraParameters.cpp:238-274 | What set does to every get: the key answers the accepted nonempty value, every other key as before |
| `CameraParameters.PutExactly` | camera/QCamera2/HAL/CameraParameters.cpp:238-251 | set is accepted exactly without = and ; in key and value, and changes nothing otherwise |
| `CameraParameters.Parameters.Flatten` | camera/QCamera2/HAL/CameraParameters.cpp:185-203 | The loop writes key=value pairs separated by semicolons, without a last one |
| `CameraParameters.Parameters.Unflatten` | camera/QCamera2/HAL/CameraParameters.cpp:205-235 | The loop reads the text into the vector, whatever the text |
| `CameraParameters.Parameters.Set` | camera/QCamera2/HAL/CameraParameters.cpp:238-251 | Adds or replaces; ignored when key or value holds a separator |
| `CameraParameters.Parameters.Remove` | camera/QCamera2/HAL/CameraParameters.cpp:291-294 | The key answers nothing, every other key as before |
| `CameraParameters.Parameters.SetSize` | camera/QCamera2/HAL/CameraParameters.cpp:347-352 | Sets the text WxH under the given size key |
| `CameraParameters.Parameters.GetSize` | camera/QCamera2/HAL/CameraParameters.cpp:354-361 | The pair read from the size key, -1 x -1 without a readable one |
| `CameraParameters.SizeRoundTrip` | camera/QCamera2/HAL/CameraParameters.cpp:347-440 | For all 32-bit pairs and the preview, video and picture keys: get returns what was set, and no other key changes |
| `CameraParameters.UnreadableSize` | camera/QCamera2/HAL/CameraParameters.cpp:347-440 | A size key that is missing, empty or without an x in its value answers -1 x -1; a missing or empty key answers -1 as an integer |
| `CameraParameters.IntRoundTrip` | camera/QCamera2/HAL/CameraParameters.cpp:254-283 | getInt, with the base detected, inverts set of every int; under a key with a separator nothing changes |
| `CameraParameters.PairOfText` | camera/QCamera2/HAL/CameraParameters.cpp:297-320 | parse_pair reads back the pair and stops right after it |
| `CameraParameters.NoDelimiter` | camera/QCamera2/HAL/CameraParameters.cpp:297-320 | A text without the delimiter is no pair |
| `CameraParameters.OpenPair` | camera/QCamera2/HAL/CameraParameters.cpp:297-320 | With nothing after the delimiter the second number is 0 |
| `CameraParameters.SizesOfText` | camera/QCamera2/HAL/CameraParameters.cpp:322-345 | Parsing a nonempty WxH,WxH,... list gives exactly that list |
| `CameraParameters.SizesThenGarbage` | camera/QCamera2/HAL/CameraParameters.cpp:322-345 | A list followed by a comma and text without an x gives the sizes of the list |
| `CameraParameters.SizeThenStray` | camera/QCamera2/HAL/CameraParameters.cpp:322-345 | A list followed by anything but a comma gives the sizes without the last one |
| `CameraParameters.ParseSizesList` | camera/QCamera2/HAL/CameraParameters.cpp:322-345 | The loop ends on every text and gives the sizes before the first malformed one |
| `IntText.StrtolDecimal` | camera/QCamera2/HAL/CameraParameters.cpp:254-310 | strtol gives back a decimal int and stops after it, for base 10 and for the detected base, for 32- and 64-bit long |
| `IntText.StrtolNumber` | camera/QCamera2/HAL/CameraParameters.cpp:297-310 | On any number after blanks and a sign: its value cut to the range of long, and the end behind its digits |
| `IntText.StrtolNothing` | camera/QCamera2/HAL/CameraParameters.cpp:297-310 | Without a digit nothing is read |
| `IntText.ToIntExactly` | camera/QCamera2/HAL/CameraParameters.cpp:276-310 | The conversion of the long to int keeps the value up to multiples of 2^32 |
| `IntText.HexNumber` | camera/QCamera2/HAL/CameraParameters.cpp:276-282 | With the base detected, 0x or 0X before a hexadecimal digit makes it 16 |
| `IntText.OctalNumber` | camera/QCamera2/HAL/CameraParameters.cpp:276-282 | and another leading 0 makes it 8 |
| `FaceRects.MapFaces` | camera/QCamera2/HAL/QCamera2HWI.cpp:9115-9250 | On the result of the loop: id and score copied, left and right over the width, top and bottom over the height, each landmark from its own point or all -2000; for a box inside the frame the edges are in order and in range, exactly by the remainders; no faces and an error for a preview without size |
| `FaceRects.EdgesExact` | camera/QCamera2/HAL/QCamera2HWI.cpp:9193-9220 | Inside the frame the near edge is the mapped coordinate rounded down and the far one decided by the remainders |
| `FaceRects.WrapsExactly` | camera/QCamera2/HAL/QCamera2HWI.cpp:54-55 | For frames of at least two pixels the 32-bit mapping is the exact one if and only if the coordinate is within +-1073741 |
| `FaceRects.BoxInFrame` | camera/QCamera2/HAL/QCamera2HWI.cpp:9193-9220 | For a box inside the frame the edges are in order within -1000..1000, and right and bottom are the directly mapped edges or one below, exactly by the remainders |
| `FaceRects.PointInFrame` | camera/QCamera2/HAL/QCamera2HWI.cpp:9222-9243 | A landmark inside the frame maps into -1000..1000, the corners exactly |
| `FaceRects.MapMonotone` | camera/QCamera2/HAL/QCamera2HWI.cpp:54-55 | The exact map keeps the order of coordinates, also outside the frame; the 32-bit one wherever its products fit |
| `FaceRects.TwoParts` | camera/QCamera2/HAL/QCamera2HWI.cpp:54-55 | Two truncated parts against the truncated whole: one less exactly when the remainders make up a unit |

## Left out

- Checksum arithmetic: the CRC is any function from byte sequences to 32-bit values.
- GptDevice.BlockDevice.BlkRead: a short read, which the code reports as success, is taken as full.
- GptDevice.BlockDevice.BlkWrite: a short write is taken as full, a header block is written whole or not at all, and writes persist in the order issued although the code calls fsync only at the end.
- GptDevice.BlockDevice.PreparePartitions: opening the device and switching the XBL boot LUN are parameters; memory allocation in the GPT code succeeds.
- LunList.UpdateData.Collect: stat and readlink are functions given to it; paths are the characters before the NUL.
- GptDisk.Commit: looking up and opening the device by partition name is one parameter.
- The real secondary copy in the gpt_disk API: the code never reads or commits it.
- DeferredWork.WaitIsExact: waiting is a condition on the table under which the wait can return, not a blocked thread; the status a job is dequeued with is an input, since the worker does not reset it between jobs.
- ApiResults.WakeReturns: says when a woken waiter returns; who is woken is the subject of ApiCallers.
- ApiCallers.Next: each call is answered at most once; that m_lock is held from the submission to the wait makes each critical section one step.
- PreviewCallbacks.PreviewHal.PreviewStreamCb: the methods run without another thread in between; interleavings are the runs of PreviewBuffers on values.
- PreviewCallbacks.PreviewHal.DequeueLoop: a dequeueBuffer that fails after the display gave up its buffer is taken as one that dequeued nothing.
- PreviewBuffers.Next: the reference counts kept below the HAL are not part of this model.
- Notifier.Next: command sends succeed; the early check of mActive only makes some calls fail sooner, and is left to the caller; which notifications are released, and the callbacks themselves, are left out.
- Autofocus.FocusControl.ProcessAutoFocusEvent: focus distances and the flush of old snapshot frames are left out.
- CameraParameters: floats (setFloat, getFloat), the getters of fps ranges and formats, and dump.
- KeyedVector, strtol and sprintf are modelled from their documented behaviour; their code is not part of this model.
- PreviewCopy.PreviewData: the 32-bit products of strides and scanlines do not overflow, since the frame fits its buffer.
- FaceRects.MapFaces: smile, blink, gaze and recognition data are copied fields.
- takePicture, channel handling, preparePreview, advanced capture, thermal, EXIF and dump code: mostly calls into classes outside the modelled files.
