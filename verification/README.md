# What a meter receiver may sleep through

Proofs about the core of a radio receiver for utility meters. The receiver takes
blocks of I/Q samples from an RTL-SDR, decodes packets from them, and, once it has
learned when its meters transmit, skips the blocks in which none of them can. The
model follows the program's own division:

* **Histories and decoding** (`Histories`, `Packing`, `PowerHistory`, `Filter`,
  `Power16Decoder`, `Search`, `DecoderSearch`). A ring of decisions, a ring of packed
  decisions with a mirrored beginning, and a segmented power history all stand for one
  thing: the end of the stream of samples. Filtering and preamble search are proved
  against their scalar meaning on that stream.
* **The duty runtime** (`DutyRuntime`, `DutyLoop`). Blocks are decoded or skipped; a
  collar of recent raw blocks is replayed before the first block decoded after a
  sleep. Whatever the pattern, what a parser sees afterwards is what it would have
  seen without any sleep, and every block that the collar can make up is published
  exactly once. `DutyLoop` puts the sample clock, the scheduler and the
  receiver together.
* **The zero-copy ring** (`KernelRing`, `ReleaseQueue`, `BorrowedCollar`, `DirectRing`).
  The kernel module's slots, the reader's queue of held batches and the collar that
  borrows mapped memory are one system of interleaved steps; no borrowed block is
  ever recycled early, and a replay reads what was recorded. The two-thread ring of
  the synchronous reader is its simpler sibling.
* **The duty scheduler** (`SchedulerModel`, `SchedulerInvariant`, `WakeCache`,
  `SchedulerSound`, `WatchdogSchedule`, `Scheduler`, `Checkpoint`, `CheckpointRecords`,
  `SchedulerRuns`, `CadenceLearning`, `WatchdogVerdict`, `SchedulerEvidence`,
  `EvidenceRuns`, `SleepDecision`, `SchedulerLaws`).
  `SchedulerModel` is the scheduler without shortcuts: it asks every sender, refreshes
  every qualification and checks every watchdog on every block. `Scheduler` is the
  one that runs, with wake caches, change-driven refreshes and an event-driven
  watchdog; each of its operations is proved to have exactly the plain effect.
  `SchedulerSound` is the small invariant that justifies a skip; any accepted
  checkpoint restores it. `SchedulerInvariant` is the large one, under which the
  scheduler's own checkpoints are accepted. `Checkpoint` is export, validation and
  restore, `CheckpointRecords` the same field by field. `SchedulerRuns` states what
  holds over whole runs, restores included. The remaining modules say what the plain
  scheduler's steps mean, without its functions: what an arrival teaches
  (`CadenceLearning`), when a watchdog fires and what follows (`WatchdogVerdict`), what
  times, events and misses count (`SchedulerEvidence`, `EvidenceRuns`), exactly when a
  block is skipped (`SleepDecision`), and what arrivals, gaps and resumes do to the
  whole (`SchedulerLaws`).
* **Algebra** (`Words`, `GaloisField`, `Irreducibility`, `FieldTables`, `ReedSolomon`, `Crc`,
  `SampleClock`; `Basics` has the arithmetic the other modules share).

Times are nanoseconds as integers, scales and fractions are reals. The fitting of a
period, the quantile of a list and the upper confidence bound are parameters, so
every statement holds whatever they compute.

These statements came out as exact conditions:

* `WakeCache.AwakeIffMeets`: asking only for the first window that ends at or after a
  block's start misses the next window precisely when the first one ends exactly at
  the start and windows and block together exceed the period. `WakeCache.WindowIsMissed`
  is one such case.
* `Search.LegacyCompleteExactly`: the two-phase search loses matches of preambles of
  two symbols or more precisely when symbols are not whole bytes long and either last
  eight samples or more or the preamble is mixed.
* `SleepDecision.SkipExactly`: a block is skipped precisely when it continues the stream,
  everything that justifies sleep holds, and no audit is on.
* `DutyRuntime.DueExactly`: a block is published, once and in order, precisely when it was
  decoded or was skipped and lay late enough in the collar when the sleep ended.
* `Checkpoint.RestoreIsIdentity`: restoring a checkpoint outside gated mode is the
  identity precisely when no qualification was overdue. Arrivals reported at the end
  of the last block keep it so (`SchedulerRuns.PunctualRun`).
* `Checkpoint.RestoredInv`: a restore accepts some states that no scheduler exports;
  the large invariant holds afterwards precisely for the coherent ones. Exported
  states are coherent. Skips are justified after all of them.
* `WatchdogSchedule.ForeseenExactly`, `Scheduler.ScheduleExactly`: the event-driven
  watchdog asks for the instant at which one certain arrival leaves the window. It
  misses no deficit precisely when that instant still lies ahead, or, for the whole
  scheduler, when the next check comes before every count falls. With arrivals in
  order it does. A restore accepts a record whose next arrival is out of order, and
  then a deficit can be overlooked (`Checkpoint.DisorderReached`).
* `SchedulerSound.ObserveInv`: an arrival keeps the large invariant precisely when it
  is not taken or not later than the last block.
* `Checkpoint.NegativeRecoveryRefused`: a candidate that has lost trust can be read
  back precisely when its recovery does not end before time zero. The program's own
  options cannot ask for a negative recovery duration (`parseOptionalDuration`,
  duty_policy.go:42-52, refuses what is not positive), but `New` accepts one from a
  direct caller. The large invariant therefore asks for a duration that is not
  negative; the small one does not.
* `Crc.BurstDetected` and `Crc.EvenPolynomialMisses`: all short bursts are detected
  precisely with an odd polynomial.

## Model

| member | source | states |
|---|---|---|
| Histories.RingShift | protocol/decode.go:598-614 | Writing a block at the old start of a ring and moving the start past it shifts the logical history by that block, whatever the wrap. |
| Histories.DecisionRing.Append | protocol/decode.go:598-614 | The decision ring's logical view becomes the old view shifted by the block; the first block is repeated past the end so that the view never wraps for a reader of one block. |
| Histories.DecisionRing.NextOutput | protocol/decode.go:573-585 | Where a producer may write a whole block in one piece, and where the ring then starts. |
| Histories.DecisionRing.Commit | protocol/decode.go:587-596 | A block written in place by the producer has the same effect as copying it in. |
| Packing.PackByteBits | protocol/decode.go:870-876 | One carry-free multiplication packs eight decisions, first decision in the high bit. |
| Packing.PackAt | protocol/decode.go:870-876 | Bit `phase` of packed byte `i` is decision `8*i + phase`. |
| Packing.PackShift | protocol/power16.go:288-303 | Packing commutes with shifting a history by a block. |
| Packing.PackQuantized | protocol/decode.go:870-876 | The loop packs exactly the given decisions into the destination and leaves the rest alone. |
| Packing.PackQuantizedRing | protocol/decode.go:878-894 | Packing a ring from any byte-aligned start gives the packed form of its unrolled contents. |
| Packing.PackedRing.Commit | protocol/power16.go:288-303 | After a block is committed the packed ring holds the shifted packed history and its mirror equals the ring's beginning. |
| Packing.PackedRing.Produce | protocol/power16.go:272-303 | Packing a block straight into the ring advances the packed history by that block. |
| Packing.PackedRing.SearchWindow | protocol/power16.go:305-307 | The search window is the beginning of the packed history, in one piece, for every start. |
| PowerHistory.IqPower | protocol/power16.go:331-340 | The integer power is exactly half of `(2i - 255)^2 + (2q - 255)^2`, and lies between 1 and 65025. |
| PowerHistory.PowerRing.Append | protocol/power16.go:221-266 | The segmented history advances by the block's powers, and the returned range is the filter's contiguous window over the newest samples. |
| PowerHistory.PowerRing.Locate | protocol/power16.go:188-216 | Every range the guard admits is one contiguous piece of some segment with its overlap, across block ends and the wrap. |
| PowerHistory.PowerRing.Window | protocol/power16.go:188-216 | The window is the slice `[idx, idx+length)` of the last `BufferLength` samples. |
| PowerHistory.ParserWindowsAdmitted | r900/r900.go:320-352 | All 42 windows of all candidates up to and including `BlockSize` pass the guard if and only if the packet is at least 83 symbols longer than the preamble. |
| Filter.Int32Suffices | protocol/power16.go:342-360 | For chips of up to 33025 samples the wrapping 32-bit comparison decides as the exact sums do. |
| Filter.DecisionMeans | protocol/power16.go:342-360 | A power that falls from one chip to the next, or stays level, is a one; one that rises is a zero. |
| Filter.Manchester | protocol/power16.go:342-360 | The rolling-sum loop writes, for every sample, whether the first chip's sum reaches the second's. |
| Filter.BlockwiseIsStreamwise | protocol/power16.go:221-266 | Filtering block by block over the kept overlap gives the decisions of the whole zero-prefixed stream. |
| Filter.RecentDecisions | protocol/power16.go:342-360 | The newest `n` decisions depend on the newest `n` plus one symbol of samples only. |
| Power16Decoder.NextDecisions | protocol/power16.go:221-266 | One filtered block extends the decision history of the whole stream. |
| Power16Decoder.Decoder.Decode | protocol/power16.go:221-266 | Power history, decision ring and packed window all advance to the histories of the stream with the new block, with the direct and with the copying producer. |
| Power16Decoder.Decoder.Reset | protocol/decode.go:260-301 | A reset decoder is a newly allocated one. |
| Power16Decoder.Decoder.SearchWindow | protocol/decode.go:632-636 | What the search looks at is the packed decision history, whichever producer is in use: without a last partial byte from the direct one, with it from the copying one. |
| Power16Decoder.Decoder.Power16Window | protocol/power16.go:188-216 | What a parser reads is the slice of the last powers of the whole stream, for every window the guard admits; the overlap is the configured one or, if that is less, one symbol. |
| Power16Decoder.Decoder.ParserMayRead | r900/r900.go:320-352 | A decoder that keeps four chips of overlap may be asked for every window of every candidate if and only if packets are at least 83 symbols longer than the preamble. |
| Search.HitsExact | protocol/decode.go:790-804 | The reference search lists, in ascending order, exactly the positions at which every preamble symbol matches. |
| Search.CandidateIsMatch | protocol/decode.go:695-713 | A bit survives the byte-wise comparison exactly when the preamble matches at its sample. |
| Search.TestRest | protocol/decode.go:695-713 | Stopping as soon as no candidate is left does not change the result. |
| Search.Expand | protocol/decode.go:715-720 | Taking leading bits one after another appends the byte's matching positions in ascending order. |
| Search.SearchByteAligned | protocol/decode.go:648-723 | The bit-parallel search returns what the reference search returns. |
| Search.SearchLegacy | protocol/decode.go:806-868 | For every symbol length the two-phase search returns, ascending, exactly the matches whose byte survives its first phase. |
| Search.LegacyComplete | protocol/decode.go:806-868 | With byte-aligned symbols it therefore returns what the reference search returns. |
| Search.LegacyMissesUnaligned | protocol/decode.go:806-868 | For every preamble of two symbols or more and every symbol length of at least eight samples that is not whole bytes there is a history, of any given length with room for it, with a match that the first phase drops; below eight samples, for every preamble that is not all ones or all zeros. |
| Search.LegacyCompleteExactly | protocol/decode.go:806-868 | The first phase keeps every match in every history of a given length if and only if the preamble and the symbol length are not of that kind. |
| DecoderSearch.SearchPreamble | protocol/decode.go:638-646 | On a decoder after any run of blocks, for any registered preamble up to the longest and every symbol length: ascending, exactly the matches whose byte survives in the packed window; all matches unless the preamble is of the kind the byte phase loses. |
| DecoderSearch.DecoderKeeps | protocol/decode.go:806-868 | In the decoder's own history and window every match is kept if and only if the preamble is not of that kind. |
| DutyRuntime.FaithfulHistories | main.go:614-662 | A decoder that was fed a long enough end of the stream has the decision and power histories of one that was fed all of it. |
| DutyRuntime.ReplaySuffices | duty_runtime.go:18-25 | After a reset, replaying more blocks than the warm-up is long enough. |
| DutyRuntime.CollarStep | duty_runtime.go:271-312 | Recording one more block keeps the collar the list of the newest blocks. |
| DutyRuntime.Receiver.OrderedCollar | duty_runtime.go:314-328 | The collar comes out oldest first and records the newest blocks with their decode flags. |
| DutyRuntime.Receiver.ReplaySkipped | main.go:617-638 | Replaying just the skipped run makes the decoder faithful, publishes every block of the run once, in order, under its own number, and nothing else; everything shown is exact. |
| DutyRuntime.Receiver.ReplayAll | main.go:641-661 | A reset and the full collar make it faithful; exactly the blocks from the warm-up on are published, in order; raw samples are never missing. |
| DutyRuntime.Receiver.Rebuild | main.go:614-662 | Either way succeeds, publishes exactly the skipped blocks that can be made up, and counts what it replayed. |
| DutyRuntime.Receiver.FinishBlock | duty_runtime.go:271-312 | The block is recorded, raw if it was skipped, and the skipped run is counted. |
| DutyRuntime.Receiver.ProcessBlock | main.go:456-514 | For every decode pattern: what has been published is exactly what is due, a decoded block last; its histories are those of a decoder fed every block; everything published was exact. |
| DutyRuntime.DueExactly | main.go:614-662 | What is due rises strictly, so nothing is published twice or out of order; a block is due exactly if it was decoded, or skipped and a later block was decoded, and its sleep fitted the collar or it lies in the last collar at least a warm-up from its beginning. |
| DutyRuntime.WarmupCovers | duty_runtime.go:18-25 | The warm-up is the fewest blocks that fill the decoder's buffer. |
| DutyRuntime.CollarCovers | duty_runtime.go:18-25 | The collar is the fewest blocks that last a tenth of a second, or one more than the warm-up. |
| DutyLoop.DutyLoop.Process | main.go:494-513 | Clock, scheduler and receiver together: no spurious discontinuity; a block is skipped exactly when that is justified and no audit is on; and for any registered preamble a decoded block gives what a decoder that never slept would find, which is every match unless the preamble is of the kind the byte phase loses. A scheduler whose watchdogs' schedule is sound stays so. |
| DutyLoop.DutyLoop.Report | duty_runtime.go:330-340 | Reporting a message, at whatever time it claims, keeps the three in step and has the plain scheduler's effect. |
| DutyLoop.Resume | duty_checkpoint.go:91-203 | A checkpoint is gone on from exactly if its configuration matches, its state is accepted and its clock is that of its block count; the loop is then valid, whatever the records say. |
| KernelRing.SequenceAt | kernel/rtlamr_usb_ring/rtlamr_usb_ring.c:402-535 | The slots carry exactly the sequences `[next_release, next_submit)`, each at its residue. |
| KernelRing.CompleteKeeps | kernel/rtlamr_usb_ring/rtlamr_usb_ring.c:114-142 | A full completion of an in-flight slot keeps the slot invariant. |
| KernelRing.ReleaseKeeps | kernel/rtlamr_usb_ring/rtlamr_usb_ring.c:402-458 | Handing back the oldest claimed sequence is accepted and resubmits its slot under the next one. |
| KernelRing.ReadyIsNext | kernel/rtlamr_usb_ring/rtlamr_usb_ring.c:460-512 | A ready slot at the claim position always carries the expected sequence: the mismatch retry is never taken. |
| KernelRing.ClaimKeeps | kernel/rtlamr_usb_ring/rtlamr_usb_ring.c:460-512 | A claim delivers the next sequence and keeps the invariant. |
| KernelRing.NextIsComing | kernel/rtlamr_usb_ring/rtlamr_usb_ring.c:460-512 | While not every slot is claimed, the next one is in flight or ready. |
| KernelRing.UsbRing.Start | kernel/rtlamr_usb_ring/rtlamr_usb_ring.c:163-225 | START in all its branches: disconnected, already started, the interface cannot be selected, a submission fails, or all slots are submitted with sequences from zero. |
| KernelRing.StartSoundly | kernel/rtlamr_usb_ring/rtlamr_usb_ring.c:163-225 | START answers 0 exactly when nothing fails, and the session is then sound; otherwise it says which step failed, and the ring is unchanged or nothing can be claimed from it or handed back to it. |
| KernelRing.FirstFailureMeans | kernel/rtlamr_usb_ring/rtlamr_usb_ring.c:163-225 | A START whose submissions fail answers what the first failing one answered. |
| KernelRing.UsbRing.OnComplete | kernel/rtlamr_usb_ring/rtlamr_usb_ring.c:114-142 | The callback in all its branches: stop or disconnection, error status, short transfer, full transfer, with what `CompletionMeans` says of each. |
| KernelRing.CompletionMeans | kernel/rtlamr_usb_ring/rtlamr_usb_ring.c:114-142 | On any ring: after a stop no slot becomes ready; a completion that is short or failed leaves its error in the slot and in the ring; only a full one with status 0 is ready without one. |
| KernelRing.UsbRing.ExchangeRelease | kernel/rtlamr_usb_ring/rtlamr_usb_ring.c:402-458 | The releasing half with its four-way check, the disconnected, stopped and failed cases and a failed submission, with the answers `ReleaseMeans` gives. |
| KernelRing.UsbRing.ExchangeClaim | kernel/rtlamr_usb_ring/rtlamr_usb_ring.c:460-535 | The claiming half with its disconnected, stop, error and retry answers, those of `ClaimMeans`. |
| KernelRing.EventKeeps | kernel/rtlamr_usb_ring/rtlamr_usb_ring.c:402-535 | On any ring, completions, releases, claims and stops keep every ready slot either whole with status 0 or marked with an error the ring has recorded, and never clear a recorded error. |
| KernelRing.ReleaseMeans | kernel/rtlamr_usb_ring/rtlamr_usb_ring.c:402-458 | A release is taken back only if it names the oldest claimed slot; once an error is recorded, every release answers it, or that the device is gone or stopped, and submits nothing. |
| KernelRing.ClaimMeans | kernel/rtlamr_usb_ring/rtlamr_usb_ring.c:460-535 | Which of the answers a claim gives: the batch if the next slot is ready, and otherwise gone, stopped, the recorded error, or wait. |
| KernelRing.ClaimsAreWhole | kernel/rtlamr_usb_ring/rtlamr_usb_ring.c:114-535 | After any run of events from START, failed transfers included, a batch that is claimed with status 0 is a whole slot. |
| ReleaseQueue.DirectSource.ReleaseKernelBatch | receiver_source_direct_linux.go:800-830 | The held ring is a queue: the oldest batch becomes the pending release once `retain` are held, and an occupied pending slot is an error. |
| ReleaseQueue.DirectSource.BeginExchange | receiver_source_direct_linux.go:773-783 | The exchange carries the pending release and no other. |
| ReleaseQueue.DirectSource.FinishExchange | receiver_source_direct_linux.go:784-798 | Which completions are accepted as the current batch; either way the pending release is spent and the exchange over. |
| ReleaseQueue.StepKeeps | receiver_source_direct_linux.go:773-830 | Every step of device, kernel and reader keeps the joint invariant and goes through without error, retry or full queue. |
| ReleaseQueue.RunsSafely | kernel/rtlamr_usb_ring/rtlamr_usb_ring.c:402-535 | So does every interleaving of any length. |
| ReleaseQueue.FromStart | receiver_source_direct_linux.go:773-830 | From START on, whatever the interleaving: every step goes through, and while a batch is processed every borrowed block of the collar is intact. |
| ReleaseQueue.AlwaysOneComing | receiver_source_direct_linux.go:207-208 | With two slots more than are retained, the slot the reader waits for is always in flight or ready. |
| ReleaseQueue.CollarIntact | duty_runtime.go:84-93 | Every raw block in the borrowed collar still lies in a slot claimed under the sequence it had when recorded, with the bytes delivered then. |
| BorrowedCollar.StepFeeds | duty_runtime.go:271-312 | Each processed block is the next one in the memory of the batch held; no other step gives the receiver any. |
| BorrowedCollar.ReplayReads | duty_runtime.go:314-328 | While a batch is processed, what lies in the memory a collar entry was borrowed from is what the entry recorded. |
| ReleaseQueue.RetainedEnough | main.go:244-247 | The number of retained batches is the least that covers the collar. |
| DirectRing.DirectRing.TakeSlot | receiver_source_direct_linux.go:72-83 | The thread takes a slot exactly when fewer than all are outstanding. |
| DirectRing.DirectRing.DeviceWrites | receiver_source_direct_linux.go:85-87 | The device's writes never touch a ready or claimed buffer. |
| DirectRing.DirectRing.ReadReturns | receiver_source_direct_linux.go:89-107 | A good read joins the queue; a bad one or a stop ends the thread with the right error. |
| DirectRing.DirectRing.Next | receiver_source_direct_linux.go:327-346 | The next unread buffer is delivered, before any read error is reported. |
| DirectRing.DirectRing.Release | receiver_source_direct_linux.go:388-399 | Only a claimed buffer is given back, and the consumer moves on by one. |
| DirectRing.DirectRing.FirstInFirstOut | receiver_source_direct_linux.go:69-115 | In every state, counting from the consumer: at most one claimed buffer, the ready ones in order, at most one filling at the producer; nothing lost, repeated or reordered. |
| SchedulerInvariant.RefreshSettles | internal/dutyscheduler/scheduler.go:1181-1205 | A refresh makes the qualification fields agree with the evidence, from any state, and leaves nothing due. |
| SchedulerInvariant.RefreshIdle | internal/dutyscheduler/scheduler.go:516-527 | A refresh of a settled candidate with nothing due changes nothing. |
| SchedulerInvariant.ObserveModelKeeps | internal/dutyscheduler/scheduler.go:694-765 | Learning from an arrival keeps a cadence model within what a checkpoint accepts. |
| SchedulerInvariant.EpochKeeps | internal/dutyscheduler/scheduler.go:806-826 | A new epoch keeps the wake scale in range and leaves no evidence that could qualify. |
| SchedulerInvariant.TightenKeeps | internal/dutyscheduler/scheduler.go:828-845 | So does tightening after a refresh period. |
| SchedulerInvariant.ObserveSenderKeeps | internal/dutyscheduler/scheduler.go:609-655 | Recording an arrival keeps arrivals sorted, gaps positive and bounded, and obligations accounted for. |
| SchedulerInvariant.CheckKeeps | internal/dutyscheduler/scheduler.go:1056-1125 | A watchdog pass keeps all records and qualifications in order and never shortens a recovery. |
| SchedulerInvariant.AdvanceKeeps | internal/dutyscheduler/scheduler.go:423-514 | Every block, contiguous or not, keeps the larger invariant, the one under which a checkpoint can be read back. |
| SchedulerInvariant.ObserveKeeps | internal/dutyscheduler/scheduler.go:600-692 | So does every arrival that is not taken, or not later than the last block. |
| SchedulerInvariant.ResumeKeeps | internal/dutyscheduler/scheduler.go:587-598 | So does preparing for a resume. |
| CadenceLearning.NearestMultiple | internal/dutyscheduler/scheduler.go:694-765 | The one multiple of the period that is tried is the nearest. |
| CadenceLearning.ModelRemembers | internal/dutyscheduler/scheduler.go:694-765 | What an arrival leaves in a model: the newest gaps up to the limit, and a change of cadence exactly if the protocol changed or the gap is off every multiple of the period by more than the tolerance. |
| CadenceLearning.ModelPredicts | internal/dutyscheduler/scheduler.go:694-765 | The windows in force afterwards: centred on the arrival, with the period and widths fitted to the gaps in use, and learned exactly if that period is positive; before the warm-up, as they were. |
| CadenceLearning.HistoryGrows | internal/dutyscheduler/scheduler.go:781-804 | The gaps in use grow to the next length exactly when the cadence has been stable and the longer stretch agrees. |
| CadenceLearning.ReanchorMeans | internal/dutyscheduler/scheduler.go:767-772 | The first arrival after a resume moves the windows to itself and changes nothing else. |
| CadenceLearning.ScaleMeans | internal/dutyscheduler/scheduler.go:847-852 | Scaling rounds down to whole nanoseconds. |
| CadenceLearning.SenderRemembers | internal/dutyscheduler/scheduler.go:609-655 | What an arrival leaves in the sender's record, its obligation included. |
| CadenceLearning.SenderRetains | internal/dutyscheduler/scheduler.go:633-653 | Exactly the arrivals of the last two count windows are retained. |
| CadenceLearning.SenderLearns | internal/dutyscheduler/scheduler.go:1002-1018 | The deadline and the minimum count learned from the gaps. |
| WatchdogVerdict.RecordAfter | internal/dutyscheduler/scheduler.go:1069-1118 | A look at one sender: a deadline is missed exactly if an open obligation is overdue for the first time, a count exactly if a full window first holds too few; the record says so and nothing else changes. |
| WatchdogVerdict.InWindowCounts | internal/dutyscheduler/scheduler.go:1094-1101 | The count is that of the arrivals in the window. |
| WatchdogVerdict.CheckMeans | internal/dutyscheduler/scheduler.go:1056-1148 | A gated scheduler that selects somebody and is past its recovery loses its selection, starts a whole recovery and distrusts exactly the candidates that sleep at least as much as the selected one, if and only if some sender is overdue or counts too few; otherwise only records and totals change. |
| WatchdogVerdict.CheckBooks | internal/dutyscheduler/scheduler.go:1056-1118 | The deficits of each sender, each protocol and overall rise by exactly the number of senders that fire. |
| WatchdogVerdict.DistrustMeans | internal/dutyscheduler/scheduler.go:806-826 | A distrusted candidate is invalid for a recovery duration, in a new epoch without evidence, with its scale and learned windows widened by one step up to the limit. |
| WatchdogVerdict.WideningWidens | internal/dutyscheduler/scheduler.go:806-852 | A widened window is no narrower. |
| SchedulerEvidence.BlockPutsDown | internal/dutyscheduler/scheduler.go:448-467 | Every block that continues the stream is put down for every candidate: eligible time if all cadences are learned, and then awake time exactly if some window meets the block; the totals likewise. |
| SchedulerEvidence.GapStartsOver | internal/dutyscheduler/scheduler.go:529-546 | A block that does not continue the stream starts these times over and clears every model and all trust. |
| SchedulerEvidence.ModelsAtMeans | internal/dutyscheduler/scheduler.go:439-446 | The windows a block is judged by are those before it, narrowed by one step exactly if the selected candidate's refresh period is over. |
| SchedulerEvidence.ArrivalCounts | internal/dutyscheduler/scheduler.go:663-680 | Unless the candidate starts anew, an arrival adds one event for its sender exactly if all cadences were learned at the last block, and one miss exactly if in addition no window met it; nobody else's counts change; an awaited arrival after a resume adds neither; and the model becomes what the arrival taught it. |
| SchedulerEvidence.CountTaken | internal/dutyscheduler/scheduler.go:663-680 | The candidate starts anew on its own account exactly if the arrival changes the cadence; then no evidence is left and its windows are one step wider. |
| SchedulerEvidence.BlockVerdicts | internal/dutyscheduler/scheduler.go:448-467 | Between two blocks every arrival is counted by the verdicts of the first. |
| SchedulerEvidence.BlockCounts | internal/dutyscheduler/scheduler.go:423-514 | A block counts no arrivals. |
| EvidenceRuns.TimesAddUp | internal/dutyscheduler/scheduler.go:448-467 | Over every unbroken run a candidate's times have grown by the lengths of the run's blocks, each by its own verdict. |
| EvidenceRuns.SteadySleepMeans | internal/dutyscheduler/scheduler.go:1214-1219 | So steady sleep is the fraction of eligible time that was slept. |
| EvidenceRuns.TalliesAddUp | internal/dutyscheduler/scheduler.go:663-680 | Over every unbroken run without a new epoch, events and misses have grown by the run's arrivals, each by the verdict of the block before it. |
| SleepDecision.PeriodMeans | internal/dutyscheduler/scheduler.go:1233-1242 | The time between refresh periods is divided by the scale, by four at most, and is never less than a minute once the scale is above one. |
| SleepDecision.PlanMeans | internal/dutyscheduler/scheduler.go:478-487 | When a refresh period begins and when the next one is planned. |
| SleepDecision.RefreshEnds | internal/dutyscheduler/scheduler.go:439-446 | At its start a block ends a refresh period that is over, and with it the selection. |
| SleepDecision.VerdictMeans | internal/dutyscheduler/scheduler.go:488-511 | The verdict on a block: refreshed, asleep, audited or simply decoded, and exactly when. |
| SleepDecision.DrawMeans | internal/dutyscheduler/scheduler.go:497-511 | The audit draw is made when a quiet interval begins, holds until it ends, and is made by the fraction of the selected candidate. |
| SleepDecision.QuietEnds | internal/dutyscheduler/scheduler.go:488-501 | A block that is not slept through ends the quiet interval and draws nothing. |
| SleepDecision.FractionMeans | internal/dutyscheduler/scheduler.go:1225-1231 | The fraction of quiet intervals that is audited grows with the scale, up to all of them. |
| SleepDecision.DrawExtremes | internal/dutyscheduler/scheduler.go:1244-1251 | A fraction of one audits every quiet interval, a fraction of zero none. |
| SleepDecision.EffectiveMeans | internal/dutyscheduler/scheduler.go:1214-1231 | What selection compares: the fraction slept less the part of it that is audited. |
| SleepDecision.SelectionMeans | internal/dutyscheduler/scheduler.go:1150-1165 | Nobody is selected while selection is barred; else a qualified candidate that sleeps most, if there is one. |
| SleepDecision.StateMeans | internal/dutyscheduler/scheduler.go:1260-1279 | What each name of a state stands for. |
| SleepDecision.DecisionState | internal/dutyscheduler/scheduler.go:477-490 | A decision names the state it was made in. |
| SleepDecision.SkipExactly | internal/dutyscheduler/scheduler.go:423-514 | A block is skipped if and only if it continues the stream, all the conditions of a justified skip hold, and no audit is on. |
| SchedulerLaws.RefreshMeans | internal/dutyscheduler/scheduler.go:1181-1205 | Trust returns when the recovery is over; a qualified candidate stays so while it meets the target; another one has to meet the promotion target for a whole stability period. |
| SchedulerLaws.NewMeans | internal/dutyscheduler/scheduler.go:259-335 | A new scheduler knows nothing, trusts nobody and has counted nothing; its generator is not at zero. |
| SchedulerLaws.AdmissionMeans | internal/dutyscheduler/scheduler.go:600-611 | An arrival is taken exactly if its sender is known, it is later than the last one and under the same protocol; an earlier one or another protocol is a fault; the rest is ignored. |
| SchedulerLaws.NotTakenMeans | internal/dutyscheduler/scheduler.go:600-611 | A fault costs a recovery and nothing else; an ignored arrival costs nothing. |
| SchedulerLaws.TakenMeans | internal/dutyscheduler/scheduler.go:609-692 | An arrival that is taken: its sender's record, one observation for its protocol, no longer awaited; a recovery begins exactly if it came during sleep or was recovered from a skipped block. |
| SchedulerLaws.EscapeMeans | internal/dutyscheduler/scheduler.go:686-692 | After an escape exactly the candidates that sleep at least as much as the selected one are out for a recovery duration. |
| SchedulerLaws.GapMeans | internal/dutyscheduler/scheduler.go:424-436 | A block that does not continue the stream is decoded, forgets all that was learned, keeps the books and starts a recovery. |
| SchedulerLaws.ResumeMeans | internal/dutyscheduler/scheduler.go:587-598 | After a resume exactly the senders seen before are awaited. |
| SchedulerSound.AdvanceSound | internal/dutyscheduler/scheduler.go:423-514 | Every block keeps the smaller invariant, the one a skip rests on, whether or not the watchdogs are looked at, and never shortens a recovery. |
| SchedulerSound.ObserveSound | internal/dutyscheduler/scheduler.go:600-692 | So does every arrival, however late; a fault or an escape starts a whole recovery. |
| SchedulerSound.ObserveInv | internal/dutyscheduler/scheduler.go:600-692 | The larger invariant survives an arrival if and only if it is not taken or not later than the last block. |
| SchedulerModel.XorShift | internal/dutyscheduler/scheduler.go:1244-1251 | The generator never leaves the nonzero states. |
| SchedulerModel.Best | internal/dutyscheduler/scheduler.go:1150-1165 | None only if none is qualified; otherwise a qualified candidate of greatest effective sleep, and every qualified one before it sleeps strictly less. |
| WakeCache.AwakeIffMeets | internal/dutyscheduler/scheduler.go:906-922 | A sender is awake iff a periodic window meets the block, if and only if it is not the case that a window ends exactly at the block's start while the windows and the block together exceed the period. |
| WakeCache.MissedWindow | internal/dutyscheduler/scheduler.go:906-922 | So a window meets a block that the program calls asleep if and only if one ends exactly at the block's start and windows and block exceed the period. |
| WakeCache.StaysAwake | internal/dutyscheduler/scheduler.go:869-899 | A remembered wake end is right for every later block before it. |
| WakeCache.StaysAsleep | internal/dutyscheduler/scheduler.go:869-899 | A remembered next wake is right for every later block up to it. |
| WakeCache.ConsultAwake | internal/dutyscheduler/scheduler.go:869-899 | The cached answer is the one asking every sender would give, and the cache left behind is right for every later block. |
| WakeCache.ConsultLearned | internal/dutyscheduler/scheduler.go:854-867 | The cached eligibility is whether every sender has been learned. |
| WatchdogSchedule.RollPointer | internal/dutyscheduler/scheduler.go:1094-1101 | The rolling pointer gives the number of retained arrivals at or after `now - window`. |
| WatchdogSchedule.TrimPointer | internal/dutyscheduler/scheduler.go:633-653 | Dropping old arrivals and moving the pointer back keeps it right. |
| WatchdogSchedule.AskQuiets | internal/dutyscheduler/scheduler.go:1056-1119 | After a check, nothing is missed until the next one if and only if that does not come after some count that is enough now has fallen, in whatever order arrivals are kept. |
| WatchdogSchedule.EnoughExactly | internal/dutyscheduler/scheduler.go:1094-1119 | In whatever order arrivals are kept, the count is enough until the greatest of those before the minimum leaves the window. |
| WatchdogSchedule.QuietMeansNothing | internal/dutyscheduler/scheduler.go:469-471 | Until then a check would record no deficit and change no record; arrivals need not be in order. |
| WatchdogSchedule.ForeseenExactly | internal/dutyscheduler/scheduler.go:1056-1119 | A check that finds enough misses no later deficit if and only if the instant it asks for lies ahead, the guard under which it is scheduled (or the count does not fall within the clock's range). |
| WatchdogSchedule.OrderForesees | internal/dutyscheduler/scheduler.go:1110-1117 | With arrivals in order it always lies ahead. |
| Scheduler.ScheduleExactly | internal/dutyscheduler/scheduler.go:469-471 | For the whole scheduler: not checking before the next scheduled instant is the same as checking at every one if and only if every sender is quiet. |
| Scheduler.BlockExactly | internal/dutyscheduler/scheduler.go:469-471 | A block without a check has the effect of one with it if and only if no sender has anything to answer for at its end. |
| Scheduler.Scheduler.CheckWatchdogs | internal/dutyscheduler/scheduler.go:1056-1125 | The pass with rolling pointers is the plain pass (what that does, `WatchdogVerdict.CheckMeans` says), in whatever order arrivals are kept, and asks for the earliest instant any sender asks for; nothing is then missed until the next check if and only if no count falls before it, and so always with arrivals in order. |
| Scheduler.Scheduler.MaybeCheckWatchdogs | internal/dutyscheduler/scheduler.go:469-471 | A check is made exactly when dirty or due; while the schedule is quiet that has the effect of checking on every block. |
| Scheduler.Scheduler.MaybeRefresh | internal/dutyscheduler/scheduler.go:472-474 | Refreshing only after a change or when due has the effect of refreshing on every block. |
| Scheduler.Scheduler.ScoreBlock | internal/dutyscheduler/scheduler.go:448-467 | Scoring from the caches is scoring from every sender's window, in the sense of `SchedulerEvidence.BlockPutsDown`. |
| Scheduler.Scheduler.ResetLearning | internal/dutyscheduler/scheduler.go:529-566 | A discontinuity clears models, senders, caches and pointers alike. |
| Scheduler.Scheduler.RecoverAtLeast | internal/dutyscheduler/scheduler.go:1140-1148 | Exactly the candidates that sleep at least as much are distrusted, and their caches dropped. |
| Scheduler.Scheduler.ChooseCandidate | internal/dutyscheduler/scheduler.go:1150-1165 | `Best` of the candidates, or none while selection is barred. |
| Scheduler.Scheduler.Advance | internal/dutyscheduler/scheduler.go:423-514 | With every shortcut, forced refresh or not: state and decision of the scheduler that has none. Wake caches and deferred refreshes never show, after any restore; the watchdogs' schedule does not show while it is quiet, as it is after every restore, and it stops being quiet only at a check after which a count falls before the next check, which never happens with arrivals in order. |
| Scheduler.Scheduler.Observe | internal/dutyscheduler/scheduler.go:571-692 | The same for every arrival, escaped or not, early or late; `SchedulerEvidence.ArrivalCounts` and `SchedulerLaws.TakenMeans` say what that comes to. |
| Scheduler.Scheduler.PrepareResume | internal/dutyscheduler/scheduler.go:587-598 | Every sender seen before is awaited, and nothing is selected. |
| SchedulerRuns.StepKeeps | internal/dutyscheduler/scheduler.go:423-692 | Blocks, arrivals in time, resumes and restarts from its own checkpoints, under the same or another target or mode, keep the larger invariant. |
| SchedulerRuns.OwnIsAccepted | internal/dutyscheduler/state.go:114-214 | A scheduler with that invariant accepts every checkpoint it writes, also under another target or mode. |
| SchedulerRuns.StepSound | internal/dutyscheduler/state.go:216-447 | Every event keeps the smaller invariant: blocks and arrivals of any time, resumes, restarts, and the restore of any checkpoint that is accepted, whoever wrote it. Only the last can shorten a recovery. |
| SchedulerRuns.SkipIsJustified | internal/dutyscheduler/scheduler.go:423-514 | A skipped block means: gated mode, no recovery, no refresh, no awaited sender, all watchdogs ready, and a selected candidate that meets the capture target now and all of whose models the program's window test calls asleep (`WakeCache.MissedWindow` says what that test misses). |
| SchedulerRuns.SkipsAreJustified | internal/dutyscheduler/state.go:216-447 | This holds after every run from a new scheduler, restores of any accepted checkpoints included. |
| SchedulerRuns.AlarmRecovers | internal/dutyscheduler/scheduler.go:1056-1138 | A gap, an arrival out of order or under another protocol, an escape, a sender that is overdue or counts too few while a sleeping scheduler looks, and every gated restore each start a whole recovery. |
| SchedulerRuns.NothingSkippedAfterAlarm | internal/dutyscheduler/scheduler.go:1127-1138 | However the run goes on, short of restoring a foreign checkpoint, nothing is skipped before the recovery duration has passed. |
| SchedulerRuns.PunctualRun | internal/dutyscheduler/scheduler.go:600-692 | If arrivals are reported at the block's end, no qualification is ever overdue between steps, whatever is restored. |
| SchedulerRuns.ShadowCheckpointsRepeat | internal/dutyscheduler/state.go:114-214 | A scheduler outside gated mode, restored from its checkpoint after any such run of its own, writes the identical checkpoint. |
| Checkpoint.ApplyState | internal/dutyscheduler/state.go:314-447 | Accepts exactly the states that pass every check, and yields exactly the state read, refreshed and, if gated, in recovery. |
| Checkpoint.RestoreSenders | internal/dutyscheduler/state.go:321-366 | Accepts exactly known, distinct, valid senders, and gives each its own record in whatever order they come. |
| Checkpoint.RestoreModels | internal/dutyscheduler/state.go:396-425 | The same for a candidate's models. |
| Checkpoint.RestoreProtocols | internal/dutyscheduler/state.go:367-374 | Accepts exactly distinct, named protocols. |
| Checkpoint.ObservationsAccepted | internal/dutyscheduler/state.go:337-344 | The scan accepts exactly strictly ascending arrivals within the clock. |
| Checkpoint.RestoreState | internal/dutyscheduler/state.go:216-241 | Restores an accepted state of the same configuration; a refused one changes nothing. All bookkeeping is sound and the schedule quiet afterwards; `Valid`, which every later event keeps, holds if and only if each sender's arrivals are in order and not later than it was last seen. |
| Checkpoint.RestoreCaptureTargetState | internal/dutyscheduler/state.go:247-282 | The same for another capture target, with qualification started over. |
| Checkpoint.RestoreShadowState | internal/dutyscheduler/state.go:287-312 | The same for a promotion from shadow mode. |
| Checkpoint.RequalifiedAnew | internal/dutyscheduler/state.go:269-279 | Under a new target nothing is qualified: a candidate that meets the new promotion target at once has its whole stability period before it. |
| Checkpoint.ExportAccepted | internal/dutyscheduler/state.go:114-214 | What a scheduler satisfying the invariant exports, in any order, passes every check and loads back field by field, also under another mode or target. |
| Checkpoint.RestoredInv | internal/dutyscheduler/state.go:314-472 | An accepted state restores to the invariant if and only if it is coherent. |
| Checkpoint.RestoredSound | internal/dutyscheduler/state.go:314-447 | Whatever was accepted, coherent or not: the smaller invariant holds, qualifications agree with the evidence, nothing is due, and a gated scheduler begins with a whole recovery. |
| Checkpoint.RequalifiedSound | internal/dutyscheduler/state.go:269-279 | So too after qualification has been started over, with the recovery and all records as they were. |
| Checkpoint.RestoreIsIdentity | internal/dutyscheduler/state.go:114-214 | Outside gated mode the restored scheduler is the exported one, and writes the same checkpoint, if and only if no qualification was overdue. |
| Checkpoint.CoherenceIsNotChecked | internal/dutyscheduler/state.go:337-344 | Every accepted checkpoint of a sender last seen before the clock can be altered into an accepted one that is incoherent and whose arrivals are not in order. |
| Checkpoint.DisorderReached | internal/dutyscheduler/state.go:337-344 | From any accepted checkpoint of one sender with a count window, one altered record leads to a deficit that is overlooked: last seen at 5 with an arrival at 100, then one at 50, a check at 105 that asks for no other, and a block ending at 115 that differs from the checked one. |
| Checkpoint.NegativeRecoveryRefused | internal/dutyscheduler/state.go:389-391 | A candidate that has just lost trust can be read back if and only if its recovery does not end before time zero. |
| CheckpointRecords.ExportMeans | internal/dutyscheduler/state.go:114-214 | Everything is written under its own name, in the order of the listings. |
| CheckpointRecords.LoadMeans | internal/dutyscheduler/state.go:314-441 | Every accepted checkpoint is read field by field, each record by the sender it names; no sender or model is left out; nothing is selected, quiet or awaited. |
| CheckpointRecords.RecordsReread | internal/dutyscheduler/state.go:314-441 | What was read of an accepted checkpoint, coherent or not, can be written as the very same records. |
| CheckpointRecords.RestoreMeans | internal/dutyscheduler/state.go:426-447 | Beyond reading, a restore changes only a gated scheduler's recovery and, by one refresh, the qualifications. |
| CheckpointRecords.RequalifiedMeans | internal/dutyscheduler/state.go:269-279 | Under another capture target qualification starts over and nothing else does. |
| GaloisField.Mul | r900/gf/gf.go:80-94 | The shift-and-add loop computes `Product`. |
| Irreducibility.ProductIsRemainder | r900/gf/gf.go:80-94 | `Product` is the remainder of the carry-less product by the field's polynomial, with a quotient, and nothing else is one. |
| GaloisField.Commutes | r900/gf/gf.go:80-94 | That product commutes. |
| GaloisField.Associates | r900/gf/gf.go:80-94 | It associates. |
| GaloisField.ProductXor | r900/gf/gf.go:80-94 | It distributes over addition. |
| Irreducibility.PolyDiv | r900/gf/gf.go:59-78 | Long division: quotient times divisor plus remainder is the polynomial, and the remainder is shorter than the divisor. |
| Irreducibility.ProductBits | r900/gf/gf.go:96-109 | The degrees of two factors add up to their product's. |
| Irreducibility.FactorDivides | r900/gf/gf.go:68-78 | Quotient and remainder are unique, so a factor leaves no remainder. |
| Irreducibility.Reducible | r900/gf/gf.go:96-109 | Trial division up to half the bits finds a factor if and only if the polynomial is a product of two nonzero elements. |
| Irreducibility.FactorsVanish | r900/gf/gf.go:96-109 | In the field such elements multiply to zero. |
| FieldTables.SplitsNoField | r900/gf/gf.go:20-57 | So no generator passes the later checks for a polynomial with a factor: the search refuses nothing they would let through. |
| FieldTables.Cycle | r900/gf/gf.go:20-57 | A generator that passes the checks returns to one after exactly `order - 1` steps, which the checks themselves do not test. |
| FieldTables.NoZeroDivisors | r900/gf/gf.go:20-57 | With such a generator the ring is a field. |
| FieldTables.NewField | r900/gf/gf.go:20-57 | With the range check, the search for a factor and the table checks, a field is made exactly when the generator's powers are distinct and are all the elements but zero; its tables are then right. |
| FieldTables.Field.Mul | r900/gf/gf.go:142-148 | Multiplication by tables is multiplication of polynomials. |
| FieldTables.Field.Exp | r900/gf/gf.go:115-122 | Every exponent, reduced by the table, gives the generator's power. |
| FieldTables.Field.Log | r900/gf/gf.go:124-131 | The logarithm undoes it. |
| FieldTables.Field.Inv | r900/gf/gf.go:133-139 | The product with the inverse is one. |
| ReedSolomon.Syndrome | r900/gf/gf.go:150-172 | The syndromes are the message polynomial's values at consecutive powers, for every length; bad offsets and counts are refused. |
| ReedSolomon.ValueIsSum | r900/gf/gf.go:165-170 | Horner's rule sums the message's terms. |
| ReedSolomon.NothingEscapes | r900/gf/gf.go:150-172 | No nonzero error in at most `t` places escapes `t` consecutive syndromes. |
| ReedSolomon.PassingWordsFarApart | r900/gf/gf.go:150-172 | Two messages no longer than the field's units that pass the same `t` syndromes and differ in at most `t` symbols are equal. |
| ReedSolomon.AcceptPayload | r900/r900.go:360-368 | The parser's test passes exactly the payloads whose five syndromes vanish. |
| ReedSolomon.AcceptedExactly | r900/r900.go:360-368 | A payload passes exactly when its 21 symbols, weighted by their places 30 to 15 and 4 to 0 in the code word, add up to zero for each of the exponents 29 to 33. |
| ReedSolomon.R900Generates | r900/r900.go:59-82 | The field the parser asks for, order 32, polynomial 37, generator 2, is one that `NewField` makes. |
| ReedSolomon.PayloadsFarApart | r900/r900.go:360-368 | Changing up to five symbols of an accepted payload never yields another accepted one. |
| Crc.FeedDivides | crc/crc.go:34-55 | Shifting the message through the register bit by bit is long division by the polynomial. |
| Crc.TableStepFeeds | crc/crc.go:49-55 | One table look-up does the work of eight bits. |
| Crc.NewTable | crc/crc.go:34-47 | Every table entry is its byte shifted eight times. |
| Crc.Checksum | crc/crc.go:49-55 | The checksum is the remainder of dividing the message, for data of every length and every initial value. |
| Crc.ResidueZero | crc/crc.go:49-55 | A message followed by its big-endian checksum has checksum zero. |
| Crc.BurstDetected | crc/crc.go:49-55 | With an odd polynomial any change confined to sixteen consecutive bits changes the checksum. |
| Crc.EvenPolynomialMisses | crc/crc.go:49-55 | With an even polynomial two different messages of two bytes have the same checksum for every initial value. |
| Crc.CcittResidue | idm/idm.go:50 | A message followed by its complemented CCITT checksum leaves 0x1D0F, whatever the message and the initial value. |
| SampleClock.ExactStep | duty_runtime.go:257-265 | One block added to the exact clock. |
| SampleClock.Clock.BeginBlock | duty_runtime.go:257-265 | After any number of blocks the incremental clock is the exact quotient and remainder; each block starts where the last one ended. |
| SampleClock.DutySampleClock | duty_checkpoint.go:314-330 | The clock of a block count is that same exact pair, or an error exactly when the geometry is invalid or a product or the result leaves the 64-bit range. |
| SampleClock.RestoreClock | duty_checkpoint.go:195-203 | A restored clock goes on from the exact reading of its block count, and exactly if the checkpoint claims that reading. |

## Left out

- Float arithmetic: the magnitude table and the float filter, and the numbers behind period fitting, quantiles and confidence bounds. The integer path is modelled; the rest are parameters, and scales are reals, so rounding of 64-bit floats is not captured.
- ARM64 leaves, their dispatch, self-tests and kill switches: the portable functions are taken as the meaning.
- The scheduler's fields: the class keeps all of them but the shortcuts' bookkeeping in one record, and candidates, models and senders are values in sequences by position. The source's pointers, identity-keyed maps and in-place slice reuse are not captured.
- Overflow of the scheduler's 64-bit times and counters, and of the running sample clock: block ends are assumed within range, instants computed from them are unbounded integers.
- The memoized confidence bound, the last decision kept for reports, snapshots, arrival estimates and legacy snapshot import: they do not influence a decision.
- The rounding of a delta to a multiple of the period is written as rounding half up on integers; the source divides floats.
- SchedulerModel.XorShift: the stream of audit draws is taken as it is; nothing is said about how often audits happen.
- SchedulerRuns.NothingSkippedAfterAlarm: a foreign checkpoint restored after the alarm ends what was before it, its recovery included; when gated it starts a whole recovery of its own.
- SchedulerRuns.ShadowCheckpointsRepeat: configuration fingerprints and schema strings are equality of configurations; the order in which senders and protocols are written is any fixed order, the sorted one included.
- Checkpoint files, JSON, SHA-256, directory syncing and the choice among checkpoints.
- A discontinuity clears open obligations without closing them; the totals kept across it are therefore bounded, not balanced.
- Clamping the rolling pointer to the number of retained arrivals: proved never to happen.
- Deduplication of messages by digest across replay, and what parsers make of a packet's bytes: what is proved is that they are shown the same histories.
- `slice`, which cuts packets out of the history, and the stale high bits it can leave in a partial last byte.
- Candidate loops, symbol quantization and message fields of the R900 parser; its windows and its acceptance test are modelled.
- FieldTables.NewField: orders that are not powers of two, and orders 1 and 2, are not modelled; the search for a factor refuses every polynomial of order 2.
- FieldTables.Field.Mul: table entries are sixteen-bit words rather than bytes.
- KernelRing.UsbRing.Start: the lock is released while the interface is being selected; a disconnection in that gap counts as coming before or after.
- USB, DMA, memory mapping and module lifetime; the read and RELEASE calls of the kernel ring, whose work the two halves of EXCHANGE share; reuse of the ring after STOP or after its first error.
- Locks and condition variables: each critical section is one step, and steps interleave freely. Wake-ups, fairness and liveness are not modelled.
- ReleaseQueue.RunsSafely: one session up to its first error; every completion is full and every submission succeeds.
- Power16Decoder.Decoder.Decode: the geometry is any with blocks and packets of whole bytes, a symbol no longer than a block and an overlap no longer than a block; chips of more than 33025 samples, whose sums could leave 32 bits, are excluded.
- TCP and recorded-file input, logging, flags, encoders and the other protocols' field layouts.
