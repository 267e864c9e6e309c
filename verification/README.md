# Verified model of the driver protocols and data paths

The repository is a set of Haiku drivers. This project models their concurrent protocols and their
data paths and proves properties of them: what every step keeps, what holds over every interleaving,
and what a table, a stream or an image means.

Code that the drivers write as loops over fields is modelled as classes and methods, each proved
against a specification function or against the property itself. Where several threads meet, the
same functions are the steps of a machine, and the theorems are about every reachable state. Where
a property fails, a lemma gives the input and another one the exact condition under which it holds:
for one run where the run shows it, or for a class of runs where it depends on what callers may do.

| modules | subject |
|---|---|
| Command, Convergence, EngineSpec, EngineSubmit, Engine, EngineTheorems, EngineRecovery, EngineLines, EngineAcks, EngineQuiescence, EngineDmaMode | the SDHCI command engine: evidence, retries, resets, line state, acknowledgement and DMA lifetime |
| Ticket | the one-slot mailbox between callers and the worker, with shutdown |
| StagedRequest, StagedDisk | arbitrary byte requests over whole-sector transfers through a staging buffer |
| MediaStatus, MediaEpoch | the media epoch against removal, re-identification and eject |
| RenderClient, RenderQueue, RenderFences, RenderWait, RenderSignals, RenderSelect, RenderBuffers, RenderDevice | the GPU render queue: fences, waiting for them, round robin, buffer references, close handshake |
| GpioEvents, GpioController, GpioProtocol, GpioRefinement | GPIO interrupts, debouncing, event filter and stop barrier |
| Present | tear-free double-buffered presentation |
| Reassembler, ReassemblerTheorems | UVC payload reassembly |
| FirmwareFormat, Firmware, FirmwareTheorems | the `$SST` firmware parser against a grammar |
| Adma2, Adma2Theorems | the ADMA2 descriptor table builder and its use |
| Csd | CSD bit extraction and capacity |

The environment is nondeterministic: controller bits, display latches, timers, allocators, copies and
card behaviour may be anything the text below does not exclude. What a method asks of it is a leaf method
that answers anything and records the answer in a ghost log, so that contracts can tie every decision to
what was read. The assumptions are:

- memory is sequentially consistent, semaphores and locks behave as documented, and a semaphore is not
  deleted while in use except where the model says so;
- for DMA quiescence, a status word other than the floating one shows the managed bits truthfully,
  bits latched after a clean readback belong to the command just sent, and a successful line reset or a
  power cut ends DMA;
- the SDMA staging buffer, the render lock and the present lock are used as in the source, so the parts
  they protect are single steps where threads are interleaved.

Where the design text and the code differ, the code is followed: `docs/design/sdhci_embedded.md` lets a
caller that times out reclaim its ticket, while the code has no outer timeout and never calls `Reclaim`.

## Model
| member | source | states |
|---|---|---|
| Convergence.EvidenceIsUnion | overlay/busses/mmc/sdhci_embedded/Convergence.h:98-113 | a bit is in the accumulated evidence if and only if some credible word showed it and the mask keeps it; zero and all-ones words add nothing, however words are split or repeated |
| Convergence.EvidenceIsManaged | overlay/busses/mmc/sdhci_embedded/Convergence.h:71-113 | accumulated evidence never leaves the managed bits, so it is never the floating word |
| Convergence.DataVerdictIsExact | overlay/busses/mmc/sdhci_embedded/Convergence.h:145-185 | for a data command the verdict is success exactly when TransferComplete and no error was seen, open exactly when neither was, and never rests on CommandComplete or BufferReadReady |
| Convergence.PlainVerdictIsExact | overlay/busses/mmc/sdhci_embedded/Convergence.h:174-185 | the same exact reading for commands without data, where TransferComplete is accepted too |
| Convergence.TuningVerdictIsExact | overlay/busses/mmc/sdhci_embedded/Convergence.h:188-206 | a tuning block succeeds exactly on BufferReadReady without an error and without TransferComplete, which keeps the poll open |
| Convergence.ErrorsOutrankLaterCompletion | overlay/busses/mmc/sdhci_embedded/Convergence.h:105-113 | an error seen once decides the verdict whatever completion bits follow |
| Convergence.FaultVerdictIsExact | overlay/busses/mmc/sdhci_embedded/Convergence.h:145-185 | the verdict names a command or data timeout, a data CRC fault or an ADMA fault exactly when a credible word showed one of those bits, the first of them in that order; any other error is a hard one |
| Convergence.ActionableMeowIsAcknowledged | overlay/busses/mmc/sdhci_embedded/Convergence.h:86-125 | every interrupt the handler passes on is one the worker clears, pending or idle |
| Engine.LastAttemptIsFinal | overlay/busses/mmc/sdhci_embedded/SdhciEngine.cpp:609-662 | the decision on the last budgeted attempt is always Succeed or Fail, so the completion mark behind the loop is never reached |
| Engine.SdhciEngine.DrainInterrupts | overlay/busses/mmc/sdhci_embedded/SdhciEngine.cpp:761-777 | the bounded drain performs exactly the reads and clears of its specification and returns its last word |
| Engine.SdhciEngine.IssueToHardware | overlay/busses/mmc/sdhci_embedded/SdhciEngine.cpp:669-746 | a command is sent exactly when the last logged reading of each inhibit bit it depends on is clear, the table is addressable and the drain ended without managed bits |
| Engine.SdhciEngine.PollToVerdict | overlay/busses/mmc/sdhci_embedded/SdhciEngine.cpp:538-595 | the poll loop reads words until the first verdict that is not open, or until the clock is read as expired |
| Engine.SdhciEngine.ExecuteAttempt | overlay/busses/mmc/sdhci_embedded/SdhciEngine.cpp:531-607 | verdict, OCR check, drain and busy wait give the outcome of the specification, and their register accesses and readings go with it |
| Engine.SdhciEngine.Recover | overlay/busses/mmc/sdhci_embedded/SdhciEngine.cpp:613-659 | each decision is followed by its own reset, power cut and completion mark |
| Engine.SdhciEngine.DriveTransaction | overlay/busses/mmc/sdhci_embedded/SdhciEngine.cpp:495-663 | the whole retry loop performs exactly the register accesses of a legal run and marks the ticket with that run's status |
| EngineTheorems.RetrySafety | overlay/busses/mmc/sdhci_embedded/SdhciEngine.cpp:521-662 | every run marks the ticket done once, as its last access, writes the command register at most once a budgeted attempt, and at most once in all when the command is neither replay-safe nor judged by its OCR |
| EngineTheorems.WritesAreSentAtMostOnce | overlay/busses/mmc/sdhci_embedded/Command.h:127-182 | the constraints of every write command bring it under the last bound |
| EngineTheorems.UncertainIsFinal | overlay/busses/mmc/sdhci_embedded/Convergence.h:274-284 | once such a command has been sent, its attempt is the last one |
| EngineTheorems.CompletionEvidence | overlay/busses/mmc/sdhci_embedded/SdhciEngine.cpp:538-595 | a data command ends in B_OK only if the words read between its last send and the verdict contain TransferComplete and no error, and nothing is sent after them |
| EngineTheorems.SuccessIsExact | overlay/busses/mmc/sdhci_embedded/SdhciEngine.cpp:531-662 | a transaction ends in B_OK if and only if its last attempt was sent, the words read between that send and the verdict show the completion of its kind (for a data command a credible TransferComplete) and no error, the busy line was released where the reply has one, and the OCR was sane where it is judged |
| EngineTheorems.LateErrorIsForgotten | overlay/busses/mmc/sdhci_embedded/SdhciEngine.cpp:597-600 | an error raised only in the drain after the verdict does not change a success |
| EngineRecovery.OutcomeIsExact | overlay/busses/mmc/sdhci_embedded/Convergence.h:145-206 | what a sent attempt comes to, in terms of the words read and of what clock, OCR and busy line answered: a success, a garbage OCR, a hard error, or a transient fault |
| EngineRecovery.PollsStopAtTheFirstAnswer | overlay/busses/mmc/sdhci_embedded/SdhciEngine.cpp:538-595 | the poll loop reads on exactly while the words show neither a completion nor an error |
| EngineRecovery.ClockEndsOpenPolls | overlay/busses/mmc/sdhci_embedded/SdhciEngine.cpp:538-595 | the poll loop meets the expired clock exactly when the words it read show neither a completion nor an error |
| EngineRecovery.NextAttemptExactly | overlay/busses/mmc/sdhci_embedded/Convergence.h:249-290 | over every run, another attempt follows if and only if budget is left and the last attempt completed with a garbage OCR, or was refused or hit a transient fault of a replay-safe command with the card still in, is not flagged for a bus reset once sent, and its line reset worked |
| EngineRecovery.CurableIsRetried | overlay/busses/mmc/sdhci_embedded/SdhciEngine.cpp:609-662 | such a fault is followed by a line reset and, when that works, at once by the next attempt; when it does not work, by the power cut and B_DEV_NOT_READY |
| EngineRecovery.SpuriousIsRepeated | overlay/busses/mmc/sdhci_embedded/Convergence.h:261-265 | a garbage OCR is asked for again with nothing in between |
| EngineRecovery.EndsExactly | overlay/busses/mmc/sdhci_embedded/SdhciEngine.cpp:609-662 | the accesses behind a transaction's last attempt and its final status, from what that attempt met |
| EngineRecovery.EarlyEndHasACause | overlay/busses/mmc/sdhci_embedded/Convergence.h:272-290 | a transaction that ends short of its budget without success was sent to a card that is gone, may not be replayed, met a hard error, had its line reset fail, or is flagged for a bus reset |
| EngineRecovery.PowerCutsAreFences | overlay/busses/mmc/sdhci_embedded/SdhciEngine.cpp:613-640 | over every run the power is cut only directly behind a failed line reset, or for a replay-safe command flagged for a bus reset, and always behind a failed line reset |
| EngineAcks.PollsAcknowledge | overlay/busses/mmc/sdhci_embedded/SdhciEngine.cpp:538-595 | the poll loop acknowledges every word that calls for it before anything else happens, and clears nothing else |
| EngineAcks.NothingIsClearedUnseen | overlay/busses/mmc/sdhci_embedded/SdhciEngine.cpp:495-777 | over every run, a status bit is cleared only directly after the read of the word that showed it |
| EngineRecovery.BusResetIsFor | overlay/busses/mmc/sdhci_embedded/Command.h:145-158 | a command submitted under the driver's policy loses its card's state only if it is a card selection or an erase on a controller with the bus-power quirk |
| EngineRecovery.StopQuirkHasNoEffect | overlay/busses/mmc/sdhci_embedded/Command.h:145-148 | the busy quirk flags StopTransmission for a bus reset but gives it no second attempt, so its runs, their accesses and their status are those without the quirk |
| EngineLines.AttemptSendsExactly | overlay/busses/mmc/sdhci_embedded/SdhciEngine.cpp:669-738 | an attempt sends its command if and only if its latest looks found every line it needs free, its table is addressable and the drain left no managed bit |
| EngineLines.SendsFindLinesFree | overlay/busses/mmc/sdhci_embedded/SdhciEngine.cpp:675-690 | over every run, before each send the latest look at the command-inhibit bit found it clear, and the latest look at the data-inhibit bit too where the command needs the data line |
| EngineLines.BusyIsOver | overlay/busses/mmc/sdhci_embedded/SdhciEngine.cpp:840-851 | a command with a busy reply succeeds only when the latest look at the data-inhibit bit found it clear |
| EngineQuiescence.QuiescentWhenDone | overlay/busses/mmc/sdhci_embedded/SdhciEngine.cpp:495-663 | whatever the controller does, no command is sent and no ticket is marked done while DMA is running, when no attempt whose completion is relied on was sent after the floating word |
| EngineQuiescence.QuiescentExactly | overlay/busses/mmc/sdhci_embedded/SdhciEngine.cpp:495-663 | a transaction is orderly under every controller behaviour if and only if it has no DMA, or every attempt it relies on, because it succeeds on it or sends again without a reset after it, was sent on the strength of a word that was not floating |
| EngineQuiescence.DoneIsQuiescentExactly | overlay/busses/mmc/sdhci_embedded/SdhciEngine.cpp:613-662 | no controller has DMA running at the done mark if and only if the transaction has none, does not succeed, or its last send followed a word that was not floating |
| EngineQuiescence.FloatingDrainIsUnsafe | overlay/busses/mmc/sdhci_embedded/SdhciEngine.cpp:730-738 | for every attempt that is relied on after a floating drain there is a controller whose transfer is still running at the next send, or when the ticket is marked done |
| EngineQuiescence.FloatingDrainHappens | overlay/busses/mmc/sdhci_embedded/SdhciEngine.cpp:730-738 | a read whose last drained word floated is sent and can succeed |
| EngineQuiescence.ResetBeforeTheNextSendIsEnough | overlay/busses/mmc/sdhci_embedded/SdhciEngine.cpp:613-640 | a run whose retried attempt followed a floating word is orderly all the same when the next attempt is refused and resets the line |
| EngineDmaMode.ModeMatchesEverySend | overlay/busses/mmc/sdhci_embedded/SdhciEngine.cpp:613-625 | each command is sent in the DMA mode its descriptors call for, and the single-address mode is back when the ticket is done, whatever failed |
| EngineSubmit.WellFormedExactly | overlay/busses/mmc/sdhci_embedded/SdhciEngine.cpp:366-403 | a submitted ticket breaks the callers' discipline if and only if it is a tuning block whose transfer mode starts DMA |
| EngineSubmit.ConstraintsMean | overlay/busses/mmc/sdhci_embedded/Command.h:127-182 | which commands may be replayed, have their OCR judged, are flagged for a bus reset, and how many attempts each has; the timeouts named add up to 15 seconds at most |
| EngineSubmit.TransferModeMeans | overlay/busses/mmc/sdhci_embedded/Command.h:262-278 | READ is set exactly for the read commands, MULTI, AUTO_CMD12 and BLOCK_COUNT_ENABLE exactly for the multi-block ones, DMA_ENABLE exactly for the four, and no other bit ever |
| EngineSubmit.StagedTicketsAreWellFormed | overlay/busses/mmc/sdhci_embedded/SdhciEngine.cpp:72-92 | every transfer the driver stages keeps it, and DMA is started exactly by the data commands and the EXT_CSD read outside tuning |
| Ticket.TransactionMailbox.Post | overlay/busses/mmc/sdhci_embedded/Transaction.h:129-135 | posting fills an empty slot and changes nothing otherwise |
| Ticket.TransactionMailbox.Claim | overlay/busses/mmc/sdhci_embedded/Transaction.h:137-142 | claiming empties the slot and hands out what it held |
| Ticket.TransactionMailbox.Reclaim | overlay/busses/mmc/sdhci_embedded/Transaction.h:144-148 | reclaiming empties the slot only of the caller's own ticket |
| Ticket.InvHolds | overlay/busses/mmc/sdhci_embedded/SdhciEngine.cpp:366-487 | reference counts, places, completion signals and wake-ups stay consistent over every interleaving of callers, worker, interrupts and shutdown |
| Ticket.SignalsAreConserved | overlay/busses/mmc/sdhci_embedded/SdhciEngine.cpp:366-487 | over every interleaving each completion signal was released for one finished ticket, and ended one wait or one round of the drain or is still there |
| Ticket.NoUseAfterFree | overlay/busses/mmc/sdhci_embedded/Transaction.h:58-97 | no step of any thread touches a ticket whose last reference is gone |
| Ticket.PostFindsSlotEmpty | overlay/busses/mmc/sdhci_embedded/SdhciEngine.cpp:408-411 | while the engine is not being shut down, every post finds the slot empty |
| Ticket.ShutdownStrandsTickets | overlay/busses/mmc/sdhci_embedded/SdhciEngine.cpp:266-282 | after a shutdown a posted ticket stays in the slot and a later post is refused |
| Ticket.WhatShutdownStrands | overlay/busses/mmc/sdhci_embedded/SdhciEngine.cpp:266-282 | after a completed shutdown with no caller inside, a ticket still holds a reference exactly when it is in the slot or its post was refused |
| Ticket.ShutdownFreesExactly | overlay/busses/mmc/sdhci_embedded/SdhciEngine.cpp:266-282 | a completed shutdown has freed every ticket, in every run of a class, if and only if the class keeps callers out from the clearing of the run flag on |
| Ticket.CopiesOnlyWhenDone | overlay/busses/mmc/sdhci_embedded/SdhciEngine.cpp:417-430 | a caller copies the result out only of a ticket marked done, despite stale completion signals |
| Ticket.PhasesOnlyAdvance | overlay/busses/mmc/sdhci_embedded/SdhciEngine.cpp:469-487 | every ticket goes once through posted, claimed, done and freed, and never back |
| Ticket.NothingLeaks | overlay/busses/mmc/sdhci_embedded/Transaction.h:100-122 | a ticket that no thread holds any more has been freed |
| Ticket.SomeoneCanMove | overlay/busses/mmc/sdhci_embedded/SdhciEngine.cpp:450-466 | while a caller is inside, some thread has a step that is not an interrupt: nobody sleeps on a posted or a done ticket |
| Ticket.NoEndlessWait | overlay/busses/mmc/sdhci_embedded/SdhciEngine.cpp:417-463 | a rank bounds how many such steps a caller can see before its call ends |
| Ticket.JoinIsNotStuck | overlay/busses/mmc/sdhci_embedded/SdhciEngine.cpp:266-277 | while the shutdown joins the worker, the worker can take its next step from wherever it is, or is gone |
| Ticket.JoinIsBounded | overlay/busses/mmc/sdhci_embedded/SdhciEngine.cpp:266-277 | once the run flag is cleared the worker exits within five steps of its own, whatever the other threads do in between |
| StagedRequest.PlanIsValidExactly | overlay/busses/mmc/sdhci_embedded/StagedRequest.h:30-52 | a chunk is planned exactly when bytes remain and the geometry has room for a block |
| StagedRequest.PlanCovers | overlay/busses/mmc/sdhci_embedded/StagedRequest.h:30-52 | the media window of a chunk is whole sectors, fits the staging buffer and holds the requested bytes at the planned place |
| StagedRequest.PlanStaysOnDevice | overlay/busses/mmc/sdhci_embedded/StagedRequest.h:30-52 | for a request on the device no window reaches past its last sector |
| StagedRequest.ReadSkippedOnlyWhenAligned | overlay/busses/mmc/sdhci_embedded/StagedRequest.h:23-27 | the read before a write is skipped only when the request covers the window exactly |
| StagedDisk.AcceptedExactlyOnDevice | overlay/busses/mmc/sdhci_embedded/Disk.cpp:109-123 | a request is accepted exactly when it starts and ends on the device |
| StagedDisk.MergedWrite | overlay/busses/mmc/sdhci_embedded/SdmaDisk.cpp:243-263 | reading a window, laying the request over it and writing it back changes the requested bytes only |
| StagedDisk.SdmaDisk.TransferStaging | overlay/busses/mmc/sdhci_embedded/SdmaDisk.cpp:305-350 | a transfer moves the window between card and staging buffer, or part of it when it fails, with the error cases of the source |
| StagedDisk.SdmaDisk.RunRequest | overlay/busses/mmc/sdhci_embedded/SdmaDisk.cpp:224-282 | the status is B_OK exactly when nothing logged went wrong and the geometry allows every chunk, B_BAD_VALUE exactly when only the geometry fails, B_DEV_NO_MEDIA exactly on a media change and B_ERROR exactly on a failed transfer or copy; every command stands behind a media check; a successful write changes exactly the requested bytes and a successful read returns exactly them; however a write stops, no byte outside the request has changed |
| StagedDisk.SdmaDisk.ServeWindow | overlay/busses/mmc/sdhci_embedded/SdmaDisk.cpp:240-276 | a window that succeeds makes progress and every byte of it has arrived; one that is stopped leaves the progress where it was, and its status names what went wrong |
| StagedDisk.SdmaDisk.AlwaysFeasible | overlay/busses/mmc/sdhci_embedded/StagedRequest.h:30-52 | on a disk whose blocks fit the staging buffer the geometry allows every chunk of every accepted request |
| StagedDisk.SdmaDisk.DoIO | overlay/busses/mmc/sdhci_embedded/SdmaDisk.cpp:133-185 | a request is queued exactly when it lies on the device and meets no obstacle, and otherwise refused with the status of the first one; a queued request is served and answered as above, or cancelled by a stop with nothing changed |
| MediaStatus.NextIsOneTransition | overlay/busses/mmc/sdhci_embedded/MediaStatus.h:32-35 | changing the online bit moves the word by exactly one transition of its numbering |
| MediaStatus.SameStateExactly | overlay/busses/mmc/sdhci_embedded/MediaStatus.h:24-43 | two moments show the same word if and only if a multiple of 2^31 transitions lies between them |
| MediaStatus.MediaStatusTracker.SetOnline | overlay/busses/mmc/sdhci_embedded/MediaStatus.h:24-43 | the compare-and-swap loop ends with the bit set by at most one transition of its own, whatever other threads do in between, and raises the change notification exactly when it made one to online |
| MediaStatus.MediaStatusTracker.ConsumeStatus | overlay/busses/mmc/sdhci_embedded/MediaStatus.h:45-51 | the change notification is handed out once and leaves the epoch alone |
| MediaEpoch.InvHolds | overlay/busses/mmc/sdhci_embedded/SdhciController.cpp:78-125 | both locks exclude, the disk stays offline from RecoverCard's first step to the re-identification, and what a request's last check established lasts while the media lock is held |
| MediaEpoch.TransfersBelongToTheirMedia | overlay/busses/mmc/sdhci_embedded/SdmaDisk.cpp:224-276 | no transfer of a request captured before a re-identification starts after it, unless at least 2^31 transitions have passed, a whole number of periods |
| MediaEpoch.ReidentifyExcludesTransfer | overlay/busses/mmc/sdhci_embedded/SdhciController.cpp:83-95 | a re-identification, an eject flush and a transfer never overlap |
| MediaEpoch.AgedWordIsAccepted | overlay/busses/mmc/sdhci_embedded/SdmaDisk.cpp:227-233 | the bound is exact: with 2^31 transitions a stale request is transferred to re-identified media |
| MediaEpoch.EjectCanBeUndone | overlay/busses/mmc/sdhci_embedded/SdhciController.cpp:473-477 | the watcher's last SetOnline, outside the recovery lock, lets a transfer start after eject has cut the power |
| MediaEpoch.EjectIsSafe | overlay/busses/mmc/sdhci_embedded/SdhciController.cpp:98-125 | in every run in which eject never goes offline while the watcher is about to publish, a powered-off card is offline and no transfer is cleared or running |
| MediaEpoch.EjectIsSafeExactly | overlay/busses/mmc/sdhci_embedded/SdhciController.cpp:98-125 | that condition is exact: ejecting is safe in every run of a class if and only if the class excludes that race |
| RenderQueue.RenderQueueClient.TakeJob | overlay/drivers/graphics/intel_valleyview/RenderQueue.cpp:189-213 | taking the oldest job has the state change of the specification, one device job fewer, and says whether its failure was asked for |
| RenderQueue.RenderQueueClient.RetireJob | overlay/drivers/graphics/intel_valleyview/RenderQueue.cpp:236-297 | retiring the active job completes it, or fails it and cancels the queue behind it in order, whichever records can be allocated, and counts one signal for every allocation that was granted |
| RenderQueue.RenderQueueClient.FinishJob | overlay/drivers/graphics/intel_valleyview/RenderQueue.cpp:304-311 | the completion semaphore is released once for every record appended, and the worker learns whether a shutdown waits for its idle signal |
| RenderQueue.RenderQueueClient.CheckFence | overlay/drivers/graphics/intel_valleyview/RenderQueue.cpp:802-817 | one look of a waiting call: the answer for its fence, and a refusal exactly when there is none and the fence was never issued |
| RenderQueue.RenderQueueClient.DequeueCompletion | overlay/drivers/graphics/intel_valleyview/RenderQueue.cpp:842-864 | the oldest record is handed out and takes one signal with it, or B_WOULD_BLOCK |
| RenderQueue.RenderQueueClient.EnqueueJob | overlay/drivers/graphics/intel_valleyview/RenderQueue.cpp:614-662 | a job is refused with its status, or gets the next fence and the last place, dropping older presentations of its stream |
| RenderQueue.RenderQueueClient.ConfigureQueue | overlay/drivers/graphics/intel_valleyview/RenderQueue.cpp:507-531 | a queue is reconfigured exactly when it is empty and idle and the device can serve the mode, with its status otherwise, and forgets its last failure |
| RenderQueue.RenderQueueClient.BeginShutdown | overlay/drivers/graphics/intel_valleyview/RenderQueue.cpp:434-446 | the queue is emptied under the lock, and the caller learns whether the worker is there |
| RenderQueue.RenderQueueClient.FindFenceLocked | overlay/drivers/graphics/intel_valleyview/RenderQueue.cpp:317-343 | the first record of a fence answers, and without one the summary fields do |
| RenderFences.StartSucceeds | overlay/headers/common/intel_valleyview/RenderQueueCore.h:104-115 | StartRenderJob never refuses the oldest job of an open client |
| RenderFences.CompleteSucceeds | overlay/headers/common/intel_valleyview/RenderQueueCore.h:118-136 | CompleteRenderJob never refuses the running job, so no job turns into B_BAD_DATA |
| RenderFences.CancelAllEffect | overlay/drivers/graphics/intel_valleyview/RenderQueue.cpp:280-294 | cancelling the queue behind a failure retires exactly its fences and keeps every record true |
| RenderFences.EnqueueDrops | overlay/headers/common/intel_valleyview/RenderQueueCore.h:167-175 | a new job marks exactly the queued presentations of its own non-zero stream as dropped, and changes nothing else of the queue |
| RenderFences.NewestPresentationIsShown | overlay/headers/common/intel_valleyview/RenderQueueCore.h:167-175 | over every history a queued presentation is marked dropped if and only if a later one of its stream is queued behind it |
| RenderFences.FenceAnswerIsExact | overlay/drivers/graphics/intel_valleyview/RenderQueue.cpp:317-343 | on a client that is not closing a query is unresolved exactly when the fence is, and otherwise tells the truth if and only if a record is left, or the fence belongs to the current configuration, or it completed |
| RenderFences.ReconfigureForgetsFailures | overlay/drivers/graphics/intel_valleyview/RenderQueue.cpp:519-530 | a failure of an earlier configuration is reported as complete once its record is gone |
| RenderWait.NobodyIsStranded | overlay/drivers/graphics/intel_valleyview/RenderQueue.cpp:789-839 | a call that waits for a fence never sleeps on a resolved one without a signal on its way, when calls wait one at a time, no record is taken meanwhile and every completion gets a record |
| RenderWait.TwoWaitersStrandOne | overlay/drivers/graphics/intel_valleyview/RenderQueue.cpp:825-837 | with two waiting calls the signal of the one can go to the other, which leaves the first asleep |
| RenderWait.TakenRecordStrands | overlay/drivers/graphics/intel_valleyview/RenderQueue.cpp:842-864 | a call that takes the record takes the signal with it |
| RenderWait.UnrecordedStrands | overlay/drivers/graphics/intel_valleyview/RenderQueue.cpp:69-70 | a completion whose record cannot be allocated signals nobody |
| RenderWait.StrandsNobodyExactly | overlay/drivers/graphics/intel_valleyview/RenderQueue.cpp:789-864 | every run of a class strands nobody if and only if the class allows none of the three: several waiting calls, taking records, completions without a record |
| RenderWait.SignalsAreConserved | overlay/drivers/graphics/intel_valleyview/RenderQueue.cpp:789-864 | over every run each recorded completion owes one signal, which wakes one call, goes with a record that is taken, or is still there |
| RenderSignals.RetireRefines | overlay/drivers/graphics/intel_valleyview/RenderQueue.cpp:259-304 | over every history, a retirement's fences, records and signals are those of the machine's retirement steps, one for each answer of the allocator |
| RenderSignals.CheckRefines | overlay/drivers/graphics/intel_valleyview/RenderQueue.cpp:802-817 | a look at a fence finds an answer exactly when the machine's check lets the call return |
| RenderSignals.DequeueRefines | overlay/drivers/graphics/intel_valleyview/RenderQueue.cpp:842-864 | taking a record and its signal are the machine's two steps |
| RenderFences.NoJobIsLost | overlay/drivers/graphics/intel_valleyview/RenderQueue.cpp:263-289 | every job submitted is queued, running, or counted once as completed, failed or cancelled |
| RenderFences.QueueIsBounded | overlay/headers/common/intel_valleyview/RenderQueueCore.h:80-101 | over every history a client has at most 32 jobs queued |
| RenderFences.CloseResolvesExactly | overlay/drivers/graphics/intel_valleyview/RenderQueue.cpp:429-446 | a shutdown resolves every fence it finds if and only if no job is running; with one running, the fences of the queued jobs stay unresolved even when that job retires |
| RenderFences.FailureMeetsTheNextJob | overlay/drivers/graphics/intel_valleyview/RenderQueue.cpp:200-208 | over every history a failure that a configuration asks for meets exactly the next job that is started |
| RenderQueue.RenderQueueDevice.SelectReadyClient | overlay/drivers/graphics/intel_valleyview/RenderQueue.cpp:127-150 | the circular scan ends, picks the first ready client behind the cursor and moves the cursor there |
| RenderQueue.RenderQueueDevice.Unlink | overlay/drivers/graphics/intel_valleyview/RenderQueue.cpp:462-468 | a client that shuts down leaves the list, the others keep their order and the cursor its client |
| RenderSelect.PickFindsAnyReady | overlay/drivers/graphics/intel_valleyview/RenderQueue.cpp:127-150 | nobody is picked if and only if nobody is ready |
| RenderSelect.ReadyClientIsServed | overlay/drivers/graphics/intel_valleyview/RenderQueue.cpp:127-150 | with n clients, one that stays ready is picked after at most n - 1 selections of others |
| RenderSelect.BoundIsReached | overlay/drivers/graphics/intel_valleyview/RenderQueue.cpp:127-150 | that bound is reached |
| RenderBuffers.RenderBufferList.AcquireReferences | overlay/drivers/graphics/intel_valleyview/RenderQueue.cpp:569-673 | the call succeeds exactly when every buffer is usable and the batch fits and is accepted; then all buffers of the job gain a reference each, and otherwise none does: the rollback is exact |
| RenderBuffers.RenderBufferList.ReleaseReferences | overlay/drivers/graphics/intel_valleyview/Render.cpp:1074-1107 | each mention drops one reference, and the last one frees a closed buffer |
| RenderBuffers.DropAllAt | overlay/drivers/graphics/intel_valleyview/Render.cpp:1074-1107 | dropping a job's references frees exactly the closed buffers whose last references these were |
| RenderBuffers.ClosedIsFreedExactly | overlay/drivers/graphics/intel_valleyview/Render.cpp:1074-1107 | a closed buffer is freed with its last reference and not before, takes no new one, and no other buffer notices |
| RenderBuffers.DropUndoesAdd | overlay/drivers/graphics/intel_valleyview/RenderQueue.cpp:662-670 | taking a job's references and dropping them again restores every buffer |
| RenderDevice.InvHolds | overlay/drivers/graphics/intel_valleyview/RenderQueue.cpp:166-314 | the invariants of every client, of the worker's place, of the list and of the semaphore hold over every interleaving |
| RenderDevice.NothingIsStranded | overlay/drivers/graphics/intel_valleyview/RenderQueue.cpp:172-199 | the device counts its queued jobs exactly, and when the worker sleeps with no release made or owed, nothing is queued |
| RenderDevice.DeviceQueueIsBounded | overlay/headers/common/intel_valleyview/RenderQueueCore.h:80-101 | over every interleaving the device has at most 128 jobs queued |
| RenderDevice.ReleasesAreNotWasted | overlay/drivers/graphics/intel_valleyview/RenderQueue.cpp:183-187 | the worker goes back to sleep without a job only when none is queued |
| RenderDevice.WakesAreConserved | overlay/drivers/graphics/intel_valleyview/RenderQueue.cpp:183-187 | over every run each queued job and the stop of the device wake the worker once, or their release is made or owed |
| RenderDevice.CallersAreRefusedExactly | overlay/drivers/graphics/intel_valleyview/RenderQueue.cpp:507-662 | the machine lets a caller's step happen exactly when the client's own checks accept it |
| RenderDevice.WorkerIsGoneBeforeClose | overlay/drivers/graphics/intel_valleyview/RenderQueue.cpp:429-468 | once a shutdown is past its wait the worker is not with the client and cannot find it again |
| RenderDevice.WaitingCloserIsAnswered | overlay/drivers/graphics/intel_valleyview/RenderQueue.cpp:305-311 | a shutdown that waits has been signalled or the worker is still with its client |
| RenderDevice.WorkerIsNeverStuck | overlay/drivers/graphics/intel_valleyview/RenderQueue.cpp:232-311 | the worker always has a next step with the client it is with |
| RenderDevice.ReferencesAreMentions | overlay/drivers/graphics/intel_valleyview/RenderQueue.cpp:153-163 | every reference count is the number of mentions in jobs not yet released, a mentioned buffer exists, a closed one only while it is mentioned, and nothing is mentioned after the shutdown |
| RenderDevice.FenceAnswersAreExact | overlay/drivers/graphics/intel_valleyview/RenderQueue.cpp:317-343 | the exact reading of fence queries holds for every open client among any others |
| GpioEvents.BothEdgesAlternate | overlay/drivers/gpio/byt_gpio/BayTrailRegisters.h:153-161 | with both edges watched, events alternate, start opposite to the first level and end with the last sample |
| GpioEvents.OneEdgeShowsItsLevel | overlay/drivers/gpio/byt_gpio/BayTrailRegisters.h:153-161 | with one edge watched, every event shows the level after it |
| GpioEvents.OneEdgeFiresOnce | overlay/drivers/gpio/byt_gpio/BayTrailController.cpp:703-710 | with one edge watched, samples that all show the level after it give one event at most, however many edges caused them |
| GpioController.Controller.Watch | overlay/drivers/gpio/byt_gpio/BayTrailController.cpp:536-585 | the exact condition of success and of each refusal, an unmapped pad register included; after a success the slot with the level that was read, the watched bit and the trigger of the new watch |
| GpioController.Controller.RemoveWatch | overlay/drivers/gpio/byt_gpio/BayTrailController.cpp:588-608 | a watch that is there is removed whole; without one nothing changes |
| GpioController.Controller.HandleInterrupt | overlay/drivers/gpio/byt_gpio/BayTrailController.cpp:622-645 | the handler takes over exactly the latched bits of watched pins and leaves the others |
| GpioController.Controller.CollectPending | overlay/drivers/gpio/byt_gpio/BayTrailController.cpp:656-681 | every raised pin that is watched becomes due after its debounce time, and no other |
| GpioController.Controller.ScanDue | overlay/drivers/gpio/byt_gpio/BayTrailController.cpp:692-721 | due pins are read once, in order, up to the first one with an event, and the levels they are taken to show are those read |
| GpioController.Controller.NextDeadline | overlay/drivers/gpio/byt_gpio/BayTrailController.cpp:734-745 | the least due time of a pending watched pin, or none |
| GpioProtocol.StopIsABarrier | overlay/drivers/gpio/byt_gpio/BayTrailController.cpp:588-612 | when the call that removed a watch has returned off the worker thread, the worker is not in that watch's handler and will not enter it |
| GpioProtocol.StopperWaitsForTheHandler | overlay/drivers/gpio/byt_gpio/BayTrailController.cpp:609-611 | that call can return exactly when the worker is not in a handler of its pin |
| GpioProtocol.SecondStopReturnsEarly | overlay/drivers/gpio/byt_gpio/BayTrailController.cpp:594-599 | a second call for the same pin returns at once while the handler is still running |
| GpioProtocol.StopReturnsEarlyExactly | overlay/drivers/gpio/byt_gpio/BayTrailController.cpp:588-612 | in every reachable state a call returns at once with the worker in a handler of its pin if and only if it finds the pin unwatched while a dispatch of it is unfinished |
| GpioProtocol.EventsAreTheSamplesThatMatch | overlay/drivers/gpio/byt_gpio/BayTrailController.cpp:697-721 | within one watch the events delivered are exactly the samples that differ from the one before in the watched sense |
| GpioProtocol.SamplesAreDebounced | overlay/drivers/gpio/byt_gpio/BayTrailController.cpp:676-700 | within one watch, consecutive samples are at least a debounce time apart and the first is that long after the start, so there is at most one event in a debounce time |
| GpioProtocol.QuietMeansCurrent | overlay/drivers/gpio/byt_gpio/BayTrailController.cpp:560-585 | when nothing of a pin is outstanding, a handler of both edges knows its present level if and only if the pin did not change between the read of its level and the enabling of its trigger |
| GpioProtocol.NoEdgeIsOverlooked | overlay/drivers/gpio/byt_gpio/BayTrailController.cpp:656-721 | when nothing of a pin is outstanding and it did not change too early, its level differs from the last sample by no edge that is watched for, whichever edges these are |
| GpioProtocol.WakesAreConserved | overlay/drivers/gpio/byt_gpio/BayTrailController.cpp:622-645 | over every run each raised interrupt wakes the worker once, or its release is made or owed |
| GpioProtocol.EarlyChangeIsLost | overlay/drivers/gpio/byt_gpio/BayTrailController.cpp:564-583 | a change between the read of the level and the enabling of the trigger is lost |
| GpioProtocol.WorkerWakesUp | overlay/drivers/gpio/byt_gpio/BayTrailController.cpp:748-771 | the worker's wait is bounded by every pending pin and ended by every raised interrupt |
| GpioProtocol.WorkerIsNeverStuck | overlay/drivers/gpio/byt_gpio/BayTrailController.cpp:748-771 | outside its wait the worker always has its next step, but for a Watch call that holds the lock |
| GpioRefinement.StartWatchRefines | overlay/drivers/gpio/byt_gpio/BayTrailController.cpp:567-583 | the machine's step that installs a watch has the effect of the class's Watch |
| GpioRefinement.StopRefines | overlay/drivers/gpio/byt_gpio/BayTrailController.cpp:588-608 | its stop steps, off the worker thread and inside a handler, have the effect of RemoveWatch |
| GpioRefinement.RaiseRefines | overlay/drivers/gpio/byt_gpio/BayTrailController.cpp:622-645 | its interrupt step has the effect of HandleInterrupt and is enabled when that handles something |
| GpioRefinement.CollectRefines | overlay/drivers/gpio/byt_gpio/BayTrailController.cpp:656-681 | its collection has the effect of CollectPending |
| GpioRefinement.ReturnRefines | overlay/drivers/gpio/byt_gpio/BayTrailController.cpp:723-729 | the return of a handler has the effect of FinishDispatch, and the scan starts over |
| GpioRefinement.ScanRefines | overlay/drivers/gpio/byt_gpio/BayTrailController.cpp:692-721 | its scan steps, taken together as under the lock, have the effect of ScanDue |
| GpioRefinement.DueIsSampled | overlay/drivers/gpio/byt_gpio/BayTrailController.cpp:692-721 | a scan samples every due pin it comes to, unless it stops at an event of an earlier one |
| GpioRefinement.ScanLeavesNothingDue | overlay/drivers/gpio/byt_gpio/BayTrailController.cpp:692-721 | a scan that ends without an event leaves no pin due |
| GpioRefinement.PlanRefines | overlay/drivers/gpio/byt_gpio/BayTrailController.cpp:734-745 | it waits for what NextDeadline answers |
| Present.PresentDevice.CopyPresentFrame | overlay/drivers/graphics/intel_valleyview/P0.cpp:667-701 | a copy brings every row of its target and succeeds, or reports a GPU fault, by what the blitter and the clock answered, and touches no scanout that is shown or armed |
| Present.PresentDevice.WorkerPass | overlay/drivers/graphics/intel_valleyview/P0.cpp:736-810 | a pass that arms a frame arms the other scanout, whole, and every other pass leaves the armed one alone |
| Present.PresentDevice.LatchScanout | overlay/drivers/graphics/intel_valleyview/P0.cpp:704-729 | a whole frame is armed, and success means that the display shows it |
| Present.PresentDevice.BlankDisplay | overlay/drivers/graphics/intel_valleyview/P0.cpp:903-938 | presentation stops even when the display does not detach in time |
| Present.PresentDevice.UnblankDisplay | overlay/drivers/graphics/intel_valleyview/P0.cpp:942-992 | presentation starts again exactly on success, with the shown frame armed; a timeout switches everything off |
| Present.AnyRun | overlay/drivers/graphics/intel_valleyview/P0.cpp:732-992 | over every order of worker passes, blanks, unblanks and latches, no copy touches a scanout that is shown or armed, and what is shown or armed is a whole frame |
| Reassembler.PayloadReassembler.AddPacket | overlay/bin/jr_uvc_probe/core/UvcCore.cpp:596-661 | one packet changes state, counters and completed frame as specified; the answer is FrameComplete exactly when a completed frame is left to be taken, and InvalidHeader exactly on a malformed header |
| ReassemblerTheorems.AnswerIsExact | overlay/bin/jr_uvc_probe/core/UvcCore.cpp:596-661 | each answer's exact condition on the packet's bytes, the collection and the capacity |
| ReassemblerTheorems.CountersAreExact | overlay/bin/jr_uvc_probe/core/UvcCore.cpp:596-661 | what every packet adds to each counter, from its bits and from whether it fitted |
| ReassemblerTheorems.DeliveredIsAFrame | overlay/bin/jr_uvc_probe/core/UvcCore.cpp:582-661 | every frame handed out by a FrameComplete answer is the payloads of all packets between two boundaries, with one frame id and no fault, within the capacity |
| ReassemblerTheorems.CleanStreamIsDelivered | overlay/bin/jr_uvc_probe/core/UvcCore.cpp:596-661 | on a clean stream every frame is handed out once, whole and in order |
| ReassemblerTheorems.CleanFrameOutcome | overlay/bin/jr_uvc_probe/core/UvcCore.cpp:582-661 | a clean frame after a fault is lost, and only that one |
| ReassemblerTheorems.EndOfFrameResynchronises | overlay/bin/jr_uvc_probe/core/UvcCore.cpp:641-659 | after an end of frame the next clean frame is delivered if and only if the ending packet fitted |
| ReassemblerTheorems.CompletedButNotDelivered | overlay/bin/jr_uvc_probe/core/UvcCore.cpp:617-659 | a completed frame is not handed out exactly when one packet ends it and is itself the end of another frame that fits |
| Firmware.ParseFirmware | overlay/drivers/audio/byt_max98090/Firmware.cpp:55-134 | the nested loops return the status and visit the blocks of the parse function |
| FirmwareTheorems.AcceptsExactlySerializations | overlay/drivers/audio/byt_max98090/Firmware.cpp:55-134 | with a visitor that refuses nothing an image is accepted if and only if it is the serialization of some module list within the limits |
| FirmwareTheorems.AcceptedIsSerialized | overlay/drivers/audio/byt_max98090/Firmware.cpp:67-134 | an accepted image is the serialization of what was recognised, and exactly its non-custom blocks were visited, in file order |
| FirmwareTheorems.SerializedIsAccepted | overlay/drivers/audio/byt_max98090/Firmware.cpp:67-134 | parsing a serialized image gives back the image |
| FirmwareTheorems.RefusalNamesTheFirstDefect | overlay/drivers/audio/byt_max98090/Firmware.cpp:55-134 | a refused image names its first defect: its header, or what follows some whole modules and the first blocks of the next one, each status with its own condition on the bytes there |
| FirmwareTheorems.BlockIsThere | overlay/drivers/audio/byt_max98090/Firmware.cpp:87-117 | a block is recognised where, and only where, a valid one stands |
| FirmwareTheorems.VisitedAreReal | overlay/drivers/audio/byt_max98090/Firmware.cpp:109-125 | every block visited, accepted or not, stands whole in the image, in the range of its memory and aligned |
| FirmwareTheorems.VisitedInFileOrder | overlay/drivers/audio/byt_max98090/Firmware.cpp:76-134 | accepted, refused or malformed, the blocks visited are those of some whole modules behind the file header and of the first blocks of the next module, in file order, without a gap and each once |
| FirmwareTheorems.VisitedIsAPrefix | overlay/drivers/audio/byt_max98090/Firmware.cpp:119-126 | a visitor has the outcome of an accepting one, or has refused the last block of a prefix of what that one sees, and its answer is the status |
| Adma2.Adma2Builder.AddSegment | overlay/busses/mmc/sdhci_embedded/Adma2.h:79-111 | a segment is appended in chunks, or what fits of it, with overflow latched; nothing beyond the last descriptor is written |
| Adma2.Adma2Builder.Finalize | overlay/busses/mmc/sdhci_embedded/Adma2.h:113-124 | the End attribute goes on the last descriptor of a table that is neither empty nor overflowed |
| Adma2Theorems.BuildsExactly | overlay/busses/mmc/sdhci_embedded/Adma2.h:66-124 | building succeeds exactly when the segments with bytes are aligned, end by 4 GiB, are not none and take no more descriptors than there are |
| Adma2Theorems.TableMeansItsSegments | overlay/busses/mmc/sdhci_embedded/Adma2.h:66-124 | what a controller reads from the table is the scatter list's memory, byte for byte, with End on the last entry only |
| Adma2Theorems.Build | overlay/busses/mmc/sdhci_embedded/Adma2Disk.cpp:88-104 | the loop over the scatter list succeeds exactly on the lists a table can be built from, and otherwise answers for the one range it stops at, B_BAD_ADDRESS or B_BUFFER_OVERFLOW, or B_BAD_VALUE for a list without bytes |
| Adma2Theorems.Stage | overlay/busses/mmc/sdhci_embedded/Adma2Disk.cpp:80-138 | a transfer is staged exactly when list and position allow it, its blocks hold as many bytes as the table names, and every refusal has the status of the first check that fails |
| Csd.WordsOf | overlay/busses/mmc/sdhci_embedded/Csd.h:63-72 | the reassembled words are those of the register, but for its low eight bits |
| Csd.BitsAreTheField | overlay/busses/mmc/sdhci_embedded/Csd.h:42-56 | every field above the low byte and at most 32 bits wide is the quotient and remainder the datasheet means, across word boundaries |
| Csd.ShiftsFit | overlay/busses/mmc/sdhci_embedded/Csd.h:86-93 | no shift of a version 1 capacity leaves the 64-bit word |
| Csd.DecodedCapacity | overlay/busses/mmc/sdhci_embedded/Csd.h:76-100 | the decoded capacity is that of the specification for both versions, without overflow, and always marked valid |

## Left out
- Card identification, bus negotiation, voltage and clock setup: long device scripts with little invariant beyond their order.
- The length of grace polls, backoff and settling times, and all tracing: a wait is a bounded number of readings that the environment chooses.
- The refresh of the cached presence and inhibit bits (`_SyncVcState`) after an attempt: the decision uses the card-inserted bit alone, which the logged `CardRead` stands for.
- The early failure paths of `_RestoreAfterReset`: a power cut ends the attempt in the model whatever the restore does.
- The response words of a command: callers read them only after completion, and the model carries one published result.
- `Engine`: the fetch of a ticket from the mailbox is modelled in `Ticket` and the drive of a ticket in `Engine`; the two meet at the ticket's done mark.
- `StagedDisk`: the order of the request queue in front of the SDMA thread, and a null request; whether user memory can be locked is an input of `DoIO`; the media epoch of queued requests is modelled in `MediaEpoch`, and in `StagedDisk` the media may change at every look.
- `StagedDisk`: a failed transfer may leave any mixture of old and new bytes in its window, which is weaker than sector atomicity; the requested range is still the only one affected.
- MediaEpoch.TransfersBelongToTheirMedia: says nothing of ejected cards, because the watcher brings the disk online outside the recovery lock; `EjectIsSafeExactly` says when they are safe.
- Re-identification for the ADMA2 strategy, which runs through the scheduler's own thread.
- `RenderDevice`: command parsing, residency, domains and the execution of a job on the rings; a job succeeds or fails with any status.
- `RenderQueue`: linked lists are sequences, the cursor is a position in one, and the job counters are one value.
- `GpioController`: status words are sets of pins, all of them mapped; the multiplexer, glitch-filter and direction bits that Watch writes on its way are not part of this model.
- GpioProtocol.StopIsABarrier: is about calls off the worker thread; a call made inside a handler returns at once by design.
- `Present`: takeover of the firmware plane, cursor, backlight and the shutdown of the worker; the model starts once the worker does, after the bring-up that writes both scanouts.
- `Reassembler`: the packet's presentation time and source clock fields, which the code skips with the header, and a null slot, which it refuses like an empty packet.
- `Firmware`: a null visitor, which is the accepting visitor with nobody watching.
- `Csd`: the EXT_CSD sector count, a plain little-endian read.
- xHCI filter, accelerant, probes, report writers, audio card scripts, module glue and user-space code: thin code or no invariant of their own.
