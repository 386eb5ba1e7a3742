# Video ring, audio ring and display data of a capture and playback driver

Dafny models, with proofs, of the parts of the NTV2 driver where state is shared between an
interrupt routine and host calls, or where arithmetic wraps:

* **AutoCirculate** (`Ring`, `Circulators`): one ring of frame buffers per channel. The
  interrupt reads the device register, marks or counts down slots, and moves the device on or
  counts a drop; the host transfers frames in two halves (begin, complete) between which any
  number of interrupts may come. `Circulators.Circulator` is the in-place code over an array of
  frame stamps; each of its methods is proved equal to a function of `Ring` on the channel's
  record; `SingleSteps` gives their whole effect on the record before, and the other modules
  prove what they keep over whole runs, with interrupts of any kind:
  `CaptureRing`, `CaptureHistory` and `CaptureLimits`, `PlaybackRing`, `PlaybackFifo` and
  `PlaybackAccounts`, `FieldCapture`, `SyncChannels`, and `Gang`, `ChannelGangs` and `GangRuns` for ganged channels.
* **Audio**: cadences (`AudioCadence`), the capture ring (`AudioRing`) and its stamps over whole
  runs of a channel (`AudioRuns`), the playback pointer (`AudioOutput`) over whole runs of a
  channel (`OutputRuns`), in-place compaction (`AudioCompaction`).
* **Display data**: data block lookup in a CEA-861 extension (`DataBlocks`), the searches built
  on it (`AudioDescriptors`, `VendorBlocks`, `VideoFlags`), and patching an EDID image
  (`HdmiEdid`, `EdidTemplates`).
* **Genlock** (`GenlockSpi`): the remembered page register against the chip's, through
  successes and time-outs.

`Basics` and `ModArith` hold stock definitions and modular arithmetic.

Conventions. The device register is a cell; the device goes to the slot it designates at the
following interrupt. Control calls and each half of a transfer are atomic with respect to
interrupts. What the hardware reports at an interrupt (field, elapsed time, sync request) is a
parameter, `Ring.VBlank`, and is arbitrary.

## What the code does not keep

Each of these is a property one would expect, with an input that shows it fails and the exact
condition under which it holds.

* A capture transfer that finds no filled slot falls back to the first slot of the ring. If
  interrupts fill the ring meanwhile, completing it empties a slot in the middle of the queue
  and the reported level stops there (`FallbackIsReached`, from Init). A completion keeps the
  queue exactly when its slot is empty, the oldest, or the active one (`CompletionKeepsQueueIff`).
* An interrupt taken while a capture is paused skips marking the slot just left
  (`PauseBreaksQueue`, from Init; `PausedTickKeepsQueueIff`).
* A capture transfer may be given the slot that is still being recorded; its picture may then be
  handed over twice (`ActiveSlotIsDeliveredTwice`). At the next interrupt the slot is filled
  again with the same picture exactly when the register is already ahead of it
  (`OpenSlotReturnsIff`), and over a whole run the repeated deliveries are exactly those slots
  handed over once more (`CaptureIsFifo`, `DeliversAgainIff`).
* A capture flush does nothing when the register is one ahead of a slot not yet filled, which is
  the usual state (`FlushDoesNothing`, from Init; `FlushEmptiesIff`).
* A gang that plays fields parts: the field flags of a frame are stored for the primary alone,
  and each member tests its own (`FieldGangParts`, from Init). An interrupt keeps a playback
  gang together exactly when no member reaches a filled slot on which its sync report and field
  test differ from the primary's (`InterruptKeepsGangIff`).
* A playback slot chosen before the start and completed after a preroll loses the preroll
  (`CompletionLosesPreroll`). A completion loses counts exactly when its slot is the active one
  and holds some (`CompletionLosesIff`).
* After a preroll of the active frame the first move may set the drops required below the drops
  completed (`PrerollBreaksBound`, from Init). One step does so exactly when the starting
  interrupt moves on from an empty frame after more than two rewinds (`StepBreaksBoundIff`).
* A capture that bails on its first lap stamps the next frame with addresses outside the ring
  (`FirstLapBail`, from Init). A running interrupt stores a sound stamp exactly when it resyncs
  or the last slot's stop address is the start of a sample in the ring (`TickStampIsSoundIff`);
  after such a bail it does so exactly when the interrupt comes regularly enough for the drift
  to be looked at (`AfterMissingStampIff`).
* The descriptor search counts afresh in every audio block, so asking for number 0, 1, 2, ...
  does not see "all" descriptors, as driver/ntv2displayid.c:310 intends, when two blocks hold
  some (`SecondBlockIsHidden`, `AllReachedIff`).
* Reading several EDID registers stops at the end of the extension and reports success all the
  same, so the vendor search compares bytes left over from another block (`StaleBytesAnswer`, on
  an extension every byte of which can be read; `IdIsFreshIff`).
* The scan for 4:2:0 goes on past the data blocks into the detailed timings
  (`TimingReadAsFlag`, `FlagIsRightIff`), and stops short at an empty data block
  (`EmptyBlockEndsScanIff`).

Limits that the driver's own callers stay inside, each with its exact condition: a stretch of
audio as long as the ring reads back as nothing (`RoundTripIff`; `FrameFitsRing` shows that no
frame is so long); the output counter of the audio compaction has 16 bits (`OutputsStandIff`); a
port number on the last byte of a block would be lost (`PortMattersIff`; `PortStandsIn20`
and `PortStandsIn13` show that neither template has it there); page 0xff is the "unknown page" mark and cannot be selected just
after a reset (`UnselectablePageIff`).

## Model

| member | source | states |
|---|---|---|
| Circulators.Circulator.constructor | driver/ntv2autocirc.c:208-480 | a channel after Init is the cleared record with every stamp empty, waiting to start |
| Circulators.Circulator.StartUp | driver/ntv2autocirc.c:483-611 | the in-place start is the specified one: register, active and next frame at the first slot |
| Circulators.Circulator.AutoCirculate | driver/ntv2autocirc.c:2217-3230 | the in-place interrupt, in every state and for every report of the hardware, is the specified one; on a second field outside field mode it changes nothing; otherwise it is the step whose whole effect the SingleSteps rows give and about which the run theorems below, for interrupts of any kind, are proved |
| Circulators.Circulator.Capture | driver/ntv2autocirc.c:2599-2634 | marks the slot just captured, bails when too early, stamps the field, and then records as specified |
| Circulators.Circulator.Record | driver/ntv2autocirc.c:2740-2824 | the in-place move or drop of a running capture is the specified one; CaptureMovesOnIff gives its exact condition on the record before the interrupt |
| Circulators.Circulator.Playback | driver/ntv2autocirc.c:2836-3054 | a running playback counts the active slot down and, when spent, moves on or counts a drop, as specified |
| Circulators.Circulator.FindNextAvailFrame | driver/ntv2autocirc.c:1824-1891 | finds a slot exactly when the specified scan does, the same one, and changes nothing else |
| Circulators.Circulator.Begin | driver/ntv2autocirc.c:1896-1985 | the first half of a transfer records the repeat count and cookie of a playback slot and leaves the counts and field flags alone |
| Circulators.Circulator.TakeField | driver/ntv2autocirc.c:1503-1511 | the transfer of a channel that circulates fields stores the field flags of a playback slot, and nothing else |
| Circulators.Circulator.Complete | driver/ntv2autocirc.c:2004-2080 | the second half empties a captured slot or loads a playback slot, only inside the ring |
| Circulators.Circulator.GetBufferLevel | driver/ntv2autocirc.c:1754-1818 | the looping level count is the specified one, which is proved exact below; 0 for a capture that does not run |
| Circulators.Circulator.Flush | driver/ntv2autocirc.c:813-881 | the in-place flush of one channel is the specified one, restoring the state it found |
| Circulators.Circulator.Preroll | driver/ntv2autocirc.c:908-950 | the in-place preroll extends the last queued slot, or reports failure and changes nothing |
| Ring.ScanTakesFirst | driver/ntv2autocirc.c:1849-1888 | the slot found is transferable and every slot passed over is not; none is found only when there is none |
| SingleSteps.CaptureMovesOnIff | driver/ntv2autocirc.c:2599-2824 | a running capture interrupt that does not bail moves on if and only if the slot after the register is not the one just captured and is empty, no synced partner asks for a drop and, in field mode, the slot before the register does not hold the field starting now; else it counts one drop, in the slot too; every field of the record and of every stamp afterwards is given |
| SingleSteps.EarlyInterruptMarks | driver/ntv2autocirc.c:2611-2631 | one too soon after the last marks the slot just captured and does nothing else |
| SingleSteps.CaptureBeginsIff | driver/ntv2autocirc.c:2332-2434 | a starting capture begins at the first field 0 once its time has come, discarding what the first slot held |
| SingleSteps.PlaybackMovesOnIff | driver/ntv2autocirc.c:2436-2590 | a playback interrupt spends one showing; with none left it moves on if and only if the next slot is filled, no synced partner asks for a drop and, in field mode, the next slot is not of the field starting now; a running channel counts a drop otherwise, a starting one only when synced; the whole record afterwards is given |
| SingleSteps.OtherInterrupts | driver/ntv2autocirc.c:3090-3174 | an interrupt disables a stopping channel and leaves one not started, or disabled, alone |
| SingleSteps.PausedInterruptReads | driver/ntv2autocirc.c:2303-2314 | while paused an interrupt only reads the register, which outside the ring counts as the first slot |
| SingleSteps.PauseAndResume | driver/ntv2autocirc.c:753-792 | only a running channel pauses and only a paused one resumes; across a pause and an interrupt of any kind nothing but the slot read and, when asked for, the drop count changes |
| SingleSteps.TransferLoads | driver/ntv2autocirc.c:1896-2080 | a completed playback transfer leaves in its slot exactly the repeat count, cookie and field flags the host handed over; a captured slot is only emptied; a slot outside the ring is not touched |
| SingleSteps.ChoiceExactly | driver/ntv2autocirc.c:1229-1250 | in which states a slot is chosen, when a capture falls back to the first slot, and that a playback is refused if and only if no slot is empty, the active one apart once it has started |
| SingleSteps.FlushEmptiesExactly | driver/ntv2autocirc.c:794-881 | which states a flush acts in, and exactly which slots it empties: for a capture the unbroken row of filled slots before the register, for a playback all but the register slot; drops are cleared if and only if asked for |
| SingleSteps.PrerollFailsIff | driver/ntv2autocirc.c:889-955 | a preroll of a started playback fails, unchanged, if and only if every slot but the active one is filled; otherwise prerolls of captures and of channels not started succeed and do nothing |
| SingleSteps.PrerollGoesBeforeGap | driver/ntv2autocirc.c:908-950 | the count goes to the slot before the first empty one after the active slot; the channel returns to starting if and only if that is the active slot |
| CaptureRing.TickKeepsRing | driver/ntv2autocirc.c:2599-2824 | every interrupt keeps the filled slots one gapless arc ending at the active slot or its predecessor, and moves the device only onto a free slot |
| CaptureRing.ChoosesOldest | driver/ntv2autocirc.c:1849-1866 | with a filled slot present, a transfer is given the oldest |
| CaptureRing.CompleteTakesOldest | driver/ntv2autocirc.c:2022-2027 | completing that transfer takes exactly the oldest slot off the queue |
| CaptureRing.FlushKeepsRing | driver/ntv2autocirc.c:832-843 | a capture flush keeps the arc, and what it leaves is stated for each case, the steady state in which it does nothing included |
| CaptureRing.FlushLeavesRegister | driver/ntv2autocirc.c:832-843 | otherwise a capture flush empties every slot but the one the register designates |
| CaptureRing.StepKeepsCount | driver/ntv2autocirc.c:2805-2824 | each interrupt keeps: running interrupts that did not bail = frames processed + frames dropped (+ drops cleared) |
| CaptureRing.CaptureIsFifo | driver/ntv2autocirc.c:2217-2824 | for every interleaving of start, interrupts, drops, bails, flushes and split transfers, completed or failed: gapless arc, frame in flight is the oldest, frames delivered in capture order, each once but for exactly the repeats counted from the guards |
| CaptureRing.QueueSteps | driver/ntv2autocirc.c:2022-2027 | the queue as a sequence: interrupts only append, a transfer begins with its head, completion takes off its head, a flush empties it to at most the register slot |
| CaptureRing.SlotInFlightIsNotWritten | driver/ntv2autocirc.c:1452-1459 | a slot chosen while not active is never active, never in the register and never rewritten before its completion, however many steps intervene |
| CaptureHistory.NoPictureIsLost | driver/ntv2autocirc.c:2805-2824 | in every run the pictures the device finished, less those flushed, are those handed over followed by those waiting, in order; and that is all that was delivered when no active slot was handed over |
| CaptureHistory.EveryPictureIsAccounted | driver/ntv2autocirc.c:2805-2824 | in every run the pictures begun while running are those left by the device and those overwritten, and the overwritten ones are the drops and bails, the last of which may be still to show |
| CaptureHistory.OpenSlotReturnsIff | driver/ntv2autocirc.c:2611-2618 | a slot handed over while active is filled again with the same picture if and only if the register is ahead of it at the next interrupt |
| CaptureHistory.DeliversAgainIff | driver/ntv2autocirc.c:2022-2027 | a completion repeats the last picture delivered if and only if its slot was such a one |
| CaptureLimits.BufferLevelIsExactInEveryRun | driver/ntv2autocirc.c:1754-1818 | in every reachable running state the reported capture level equals the number of filled slots |
| CaptureLimits.CompletionKeepsQueueIff | driver/ntv2autocirc.c:1239-1245 | completing a transfer of slot f leaves a queue if and only if f was empty, the oldest or the active slot |
| CaptureLimits.FallbackBreaksQueue | driver/ntv2autocirc.c:1239-1245 | the fallback to the first slot, on a drained ring of four, empties the middle of the queue |
| CaptureLimits.FallbackIsReached | driver/ntv2autocirc.c:1239-1245 | a run from Init reaches such a ring |
| CaptureLimits.FlushEmptiesIff | driver/ntv2autocirc.c:832-843 | a flush of a running capture empties every slot but the register slot if and only if the register is not ahead of a slot still to be filled, or nothing waits |
| CaptureLimits.FlushDoesNothing | driver/ntv2autocirc.c:832-843 | a run from Init after which a flush leaves the waiting frame |
| CaptureLimits.PausedTickKeepsQueueIff | driver/ntv2autocirc.c:3157-3169 | pausing a capture over one interrupt keeps the queue if and only if nothing was left unmarked or nothing was queued |
| CaptureLimits.PauseBreaksQueue | driver/ntv2autocirc.c:3157-3169 | a run from Init after which a pause over one interrupt breaks the queue |
| CaptureLimits.ActiveSlotIsDeliveredTwice | driver/ntv2autocirc.c:1849-1866 | a run from Init in which one picture is delivered twice; OpenSlotReturnsIff gives the exact condition |
| PlaybackRing.TickKeepsRing | driver/ntv2autocirc.c:2436-2590 | every interrupt keeps the filled slots one arc starting at the active slot or its successor, the register on the active slot or its filled successor |
| PlaybackRing.TickKeepsFlight | driver/ntv2autocirc.c:2833-2920 | no interrupt reaches or fills the slot of a transfer in flight |
| PlaybackRing.ChoosesSlotAfterQueue | driver/ntv2autocirc.c:1867-1888 | a transfer is given the slot right after the queue, never the active one once started, and is refused exactly when there is no room |
| PlaybackRing.CompleteKeepsRing | driver/ntv2autocirc.c:2046-2054 | completion keeps the arc and lengthens it by the slot in flight |
| PlaybackRing.FlushEmpties | driver/ntv2autocirc.c:844-870 | a playback flush empties every slot but the one the register designates, before the start that one too, and touches no cookie |
| PlaybackRing.FlushKeepsRing | driver/ntv2autocirc.c:844-870 | a playback flush keeps the arc |
| PlaybackRing.PrerollExtendsQueue | driver/ntv2autocirc.c:908-950 | a preroll touches only the last queued slot, or the active one when nothing is queued, and fails exactly when there is no room |
| PlaybackRing.PrerollKeepsRing | driver/ntv2autocirc.c:908-950 | a preroll keeps the arc |
| PlaybackFifo.PlaybackIsFifo | driver/ntv2autocirc.c:2217-3070 | for every interleaving, flushes and failed transfers included: the frames shown are a prefix of the frames accepted, none skipped, and the rest are exactly the ones waiting, in order; a flush only cuts the end off the frames accepted |
| PlaybackFifo.FlushCutsPending | driver/ntv2autocirc.c:844-870 | what a flush leaves waiting is the front of what was waiting |
| PlaybackFifo.SlotInFlightIsNotShown | driver/ntv2autocirc.c:1700-1711 | a slot chosen after the start is neither shown nor in the register nor changed before its completion |
| PlaybackAccounts.BufferLevelIsTotal | driver/ntv2autocirc.c:1795-1818 | the reported playback level, which stops at the first gap, is the sum of all counts |
| PlaybackAccounts.PrerollRaisesLevel | driver/ntv2autocirc.c:943-946 | a successful preroll raises the level by exactly the count asked for, a failed one by nothing |
| PlaybackAccounts.FlushLeavesLevel | driver/ntv2autocirc.c:844-870 | a playback flush leaves exactly the count of the register slot, 0 before the start |
| PlaybackAccounts.StepKeepsBalance | driver/ntv2autocirc.c:2836-2843 | each step keeps level = supplied - spent - lost, spends at most one, and loses only by a flush or a completion |
| PlaybackAccounts.LevelIsSuppliedLessSpent | driver/ntv2autocirc.c:1754-1818 | so in every reachable state the reported level is repeats and prerolls supplied less counts spent and lost |
| PlaybackAccounts.CompletionLosesPreroll | driver/ntv2autocirc.c:2046-2054 | a run in which a completion overwrites a preroll; CompletionLosesIff gives the exact condition |
| PlaybackAccounts.CompletionLosesIff | driver/ntv2autocirc.c:2046-2054 | a completion overwrites counts if and only if its slot is the active one and holds some |
| PlaybackAccounts.SlotAirsForItsCount | driver/ntv2autocirc.c:2833-2920 | when the device leaves a slot that became active while running, it has been on air for the showings loaded plus the drops and paused interrupts charged to it |
| FieldCapture.TickStampsField | driver/ntv2autocirc.c:2713-2750 | an interrupt that moves on has stamped its field, differing from the slot before; one that does not leaves the register; FieldIsTakenIff says when it moves on |
| FieldCapture.PassedSlotsAlternate | driver/ntv2autocirc.c:2393-2434 | for arbitrary field flags any two slots left one after the other hold opposite fields, beginning with field 0, across drops, bails, pauses, flushes and the end of the ring |
| FieldCapture.FieldIsTakenIff | driver/ntv2autocirc.c:2740-2824 | in every reachable state of a field capture on two slots or more, a field is taken if and only if there is room, no synced partner asks for a drop, and it is the opposite of the last field taken; else it is a drop |
| FieldCapture.AlternatingFieldsAreTaken | driver/ntv2autocirc.c:2740-2824 | a run of alternating fields is taken whole, in order and without a drop, while there is room for it |
| SyncChannels.SyncedChannelsStayInStep | driver/ntv2autocirc.c:3272-3369 | two synced playback channels, neither of them the key channel, never differ by more than one frame processed, in any interleaving of calls and of interrupts of any kind; SyncedMovesOnIff says when each moves |
| SyncChannels.SyncedMovesOnIff | driver/ntv2autocirc.c:3272-3369 | a synced interrupt with the active slot spent and the next one filled moves on if and only if the channel has not fewer drops than its partner, and either the partner has processed more frames or both equally many and the partner's next slot is filled; else it counts a drop |
| SyncChannels.FewerDropsIsHeld | driver/ntv2autocirc.c:3297-3330 | of two synced channels the one with fewer drops is held back, and each time it is held its drops rise by one |
| SyncChannels.KeyedIsNeverHeld | driver/ntv2autocirc.c:3286-3290 | with the key channel among the two nothing is held back |
| SyncChannels.SuppliedChannelsMoveOn | driver/ntv2autocirc.c:3272-3369 | two supplied channels with equal counts wait for neither: one interrupt of each moves both on without a drop |
| SyncChannels.PlayingTickCounts | driver/ntv2autocirc.c:2857-2920 | with single showings every interrupt that plays is counted as a frame or a drop |
| SyncChannels.DropsStayClose | driver/ntv2autocirc.c:3049-3054 | with single showings and alternating interrupts the drops never differ by more than two |
| Gang.TickShadows | driver/ntv2autocirc.c:2217-3230 | an interrupt treats a shifted channel as it treats the primary, on the condition that is exact for playback (next row) |
| Gang.PlaybackTickKeepsShadowIff | driver/ntv2autocirc.c:2471-2501 | a playback interrupt keeps a member with the primary if and only if the next filled slot is not reached, or sync reports and field tests agree on it |
| Gang.FlushShadows | driver/ntv2autocirc.c:812-881 | so does a flush |
| Gang.PrerollShadows | driver/ntv2autocirc.c:908-950 | so does a preroll, which also succeeds or fails alike |
| ChannelGangs.ChannelGang.StartUp | driver/ntv2autocirc.c:493-611 | starting a gang starts every member, or none when the primary is not waiting to start |
| ChannelGangs.ChannelGang.FlushAll | driver/ntv2autocirc.c:805-881 | flushing a gang flushes every member when the primary has not started, runs or is paused, whatever the members' own states, and none otherwise |
| ChannelGangs.ChannelGang.PrerollAll | driver/ntv2autocirc.c:896-955 | prerolling a gang goes member by member until one fails |
| ChannelGangs.PrerollStopsAtFailure | driver/ntv2autocirc.c:896-955 | exactly the members before the first that fails are prerolled, and the call succeeds if and only if none fails |
| ChannelGangs.ChannelGang.BeginAll | driver/ntv2autocirc.c:1452-1459 | the first half of a transfer of a gang is the specified one: begun at the slot chosen by the primary, moved by the stride for each member, field flags stored for the primary alone (BeginEachIs) |
| ChannelGangs.BeginEachIs | driver/ntv2autocirc.c:1452-1511 | member i begins as many slots further on as i times the primary has, and only the primary takes the field flags |
| ChannelGangs.ChannelGang.CompleteAll | driver/ntv2autocirc.c:1700-1711 | the second half completes the primary's slot moved by the primary's size for each member |
| GangRuns.PrerollIsUniform | driver/ntv2autocirc.c:908-950 | a gang preroll never leaves some members prerolled and others not |
| GangRuns.OtherStepsAreUniform | driver/ntv2autocirc.c:251-279 | start, interrupt, completion, pause and flush of a gang run are the loops over the members |
| GangRuns.BeginIsUniform | driver/ntv2autocirc.c:1452-1459 | and so is the first half of a transfer, with field flags for the primary alone |
| GangRuns.InitIsGang | driver/ntv2autocirc.c:251-279 | Init gives the members ranges shifted by the size of the primary |
| GangRuns.MembersShadowPrimary | driver/ntv2autocirc.c:251-279 | after any sequence of calls, transfers and interrupts that keep the members together, member i is the primary shifted by i ranges, field flags of playback apart, and no two ranges meet |
| GangRuns.PlainGangStaysTogether | driver/ntv2autocirc.c:251-279 | so after any sequence at all, when no channels are synced and a playback gang does not circulate fields |
| GangRuns.InterruptKeepsGangIff | driver/ntv2autocirc.c:2857-2895 | an interrupt keeps a playback gang together if and only if that condition holds for every member |
| GangRuns.FieldGangParts | driver/ntv2autocirc.c:1503-1511 | a run from Init of a gang of two in field mode after which the primary waits and the member has moved on |
| AudioCadence.SupportedIffCounted | driver/ntv2audio.c:291-662 | the pairs called supported are exactly those with a nonzero count |
| AudioCadence.DoubledSupportedIff | driver/ntv2audio.c:330-352 | doubling the rate for fields or two links leaves the table only for 96 kHz at 24 and 23.98 frames; FieldsComeTwiceAsFast says what doubling is |
| AudioCadence.FieldsComeTwiceAsFast | driver/ntv2audio.c:330-352 | fields of 30, 29.97, 25, 24 and 23.98 frames, and of no other rate, come at exactly twice the rate; every other rate is left alone |
| AudioCadence.FiveFramesExact | driver/ntv2audio.c:291-662 | five frames of the cadence sum exactly to the rational rate, for every supported pair |
| AudioCadence.SteadyForever | driver/ntv2audio.c:291-662 | a cadence exact over five frames and bounded within them is bounded for ever |
| AudioCadence.NoDrift | driver/ntv2audio.c:291-662 | any number of frames, or fields, of GetAudioSamplesPerFrame is at most 4/5 of a sample behind and 8/5 ahead of the exact count at the frame rate, or at twice that for fields of 30, 29.97, 25, 24 and 23.98 frames |
| AudioCadence.HandedIsRounded | driver/ntv2audio.c:355-662 | the samples handed out after any number of frames, or fields, are the exact count rounded down, to nearest or up as listed for each pair of rates, but for two pairs that are one ahead after one or two frames of five |
| AudioCadence.NoCaptureDrift | driver/ntv2autocirc.c:2398-2408 | a capture, whose first two frames both take cadence 0, is at most 8/5 of a sample behind and 16/5 ahead of the same exact count |
| AudioRing.SampleAlign | driver/ntv2audio.c:218-223 | alignment gives the start of the sample the address lies in |
| AudioRing.SampleBytes | driver/ntv2audio.c:166-178 | a sample has 64 bytes if and only if the bit for 16 channels is set, else 32 if and only if the one for 8 is, else 24, and divides the ring |
| AudioRing.BufferSizes | driver/ntv2audio.h:18-24 | a buffer half is one or four megabytes, of which the ring leaves out the last 4 or 16 kilobytes |
| AudioRing.FrameFitsRing | driver/ntv2audio.c:291-662 | the bytes of one frame are always fewer than the ring holds |
| AudioRing.GetAudioTransferInfo | driver/ntv2audio.c:701-723 | in 32-bit arithmetic: a stretch from a position in the ring is split where it wraps, with nothing lost, and ends where the second part ends |
| AudioRing.EndsInRingIff | driver/ntv2audio.c:701-723 | the end stays in the ring for every position if and only if the stretch is no longer than the ring, and is then the sum modulo the ring |
| AudioRing.CaptureAudio.StartCapture | driver/ntv2autocirc.c:2355-2408 | the first stamp starts at the aligned hardware address and holds exactly the samples of the frame |
| AudioRing.CaptureAudio.Capture | driver/ntv2autocirc.c:2636-2711 | each stamp starts where the last stopped, or within a sample of the hardware when the interrupt came within three tolerances of a frame period and the drift is out of tolerance; it is a whole number of samples inside the ring if and only if it resyncs or the last stop is the start of a sample there |
| AudioRing.CaptureAudio.DmaAudioSetup | driver/ntv2autocirc.c:3706-3726 | re-reading a sound pair gives back exactly the split and size that were stored, wrapped or not |
| AudioRing.RoundTripIff | driver/ntv2autocirc.c:3706-3726 | a stored pair gives back the length if and only if the stretch is shorter than the ring |
| AudioRing.EndIsCumulative | driver/ntv2audio.c:701-723 | any chain of stretches ends at the start plus all their bytes, modulo the ring |
| AudioRing.StampIsSoundIff | driver/ntv2audio.c:701-723 | a stamp is a whole number of samples in the ring if and only if it starts at a sample of the ring |
| AudioRuns.TickStampIsSoundIff | driver/ntv2autocirc.c:2636-2711 | in the state of a run: a running interrupt leaves a sound stamp if and only if it resyncs or the slot active before holds one that stops at a sample of the ring |
| AudioRuns.RunningStampHolds | driver/ntv2autocirc.c:2636-2711 | in the state of a run: the stamp begins where the one before stopped, or within a sample of the hardware, and holds the samples for the frames processed so far, or for the frames dropped when the slot is the same as before |
| AudioRuns.AfterMissingStampIff | driver/ntv2autocirc.c:2636-2681 | after a slot never stamped the next stamp is sound if and only if the interrupt period is regular enough for the drift to be looked at |
| AudioRuns.StampsStaySound | driver/ntv2autocirc.c:2636-2711 | in every run without a bail, drops and resyncs included, the active stamp is sound |
| AudioRuns.CaptureRunKeepsTime | driver/ntv2autocirc.c:2689-2711 | in every run without drop, bail or resync the active stamp stops at the start plus all bytes of the cadence modulo the ring, the count taken from framesProcessed, and the samples are within 16/5 of the exact count at the frame or field rate |
| AudioRuns.CadenceFollowsInterrupts | driver/ntv2autocirc.c:2689-2711 | in a run without drops the frame count that selects the cadence is the number of running interrupts |
| AudioRuns.FirstLapBail | driver/ntv2autocirc.c:2629-2649 | a run from Init with a bail on the first lap after which the active stamp is outside the ring |
| AudioRing.AudioDelta | driver/ntv2autocirc.c:2650-2666 | in 32- and 64-bit arithmetic: for addresses in the ring the drift measure never underflows, is at most half the ring, is the circular distance going forward and exactly one byte from it going back; for any other address it is the stated wrapped value; the playback code computes the same |
| AudioRing.OutOfToleranceIff | driver/ntv2autocirc.c:2667-2676 | the drift as a time is the exact one rounded down, and the hardware is out of tolerance if and only if that is more than the tolerance |
| AudioRing.UnstampedIsOutOfTolerance | driver/ntv2autocirc.c:2650-2681 | from a stop address never stamped the subtraction underflows and the drift is out of every tolerance |
| AudioOutput.PlaybackAudio.DmaAudioSetup | driver/ntv2autocirc.c:3727-3764 | a transfer makes the rewind owed, stores as expected address the bytes accepted since the last rewind modulo the ring, and splits at the wrap |
| AudioOutput.PlaybackAudio.Running | driver/ntv2autocirc.c:2897-3070 | a running interrupt starts and stops the output as an earlier one left it to, restarts a rewound output, and asks for rewinds when audio plays out of tolerance or runs dry; OutputRuns takes what it finds from the ring |
| AudioOutput.RunningOutputIff | driver/ntv2autocirc.c:2897-3070 | exactly when a running interrupt starts the output, sets it to start or stop at the next interrupt, and asks for a rewind; nothing else changes |
| AudioOutput.DropAsksIff | driver/ntv2autocirc.c:3054-3070 | a dropping interrupt asks for a rewind if and only if the output plays or was just restarted |
| AudioOutput.PlaybackAudio.MoveFirst | driver/ntv2autocirc.c:2526-2540 | the first move from an empty slot asks for two rewinds |
| AudioOutput.PointerFollowsBytes | driver/ntv2autocirc.c:3727-3764 | over any sequence the pointer is the bytes accepted since the last rewind modulo the ring |
| AudioOutput.CompletedNeverExceedsRequired | driver/ntv2autocirc.c:3002-3012 | without prerolls the rewinds completed never exceed those required |
| AudioOutput.BoundBreaksIff | driver/ntv2autocirc.c:2526-2540 | one step breaks that bound if and only if it is a first move from an empty slot with more than two rewinds completed |
| OutputRuns.OutputFollowsChannel | driver/ntv2autocirc.c:3727-3764 | in every run of a channel from Init the write pointer is the bytes accepted since the last rewind modulo the ring, and the output counts as started exactly while the channel is past its starting state |
| OutputRuns.TransferStoresAddress | driver/ntv2autocirc.c:3742-3764 | every transfer stores with its slot the bytes accepted since the rewind before it, modulo the ring |
| OutputRuns.InterruptOutputIff | driver/ntv2autocirc.c:2833-3070 | the same told from the channel: the frame in the register's slot is spent when at most one showing was left, and the address looked at is the one stored with that slot |
| OutputRuns.TooFarIff | driver/ntv2autocirc.c:2960-3005 | the output is too far from its frame if and only if the interrupt came within three tolerances of a frame period and the time between the addresses is more than the tolerance |
| OutputRuns.FlushMarksAddresses | driver/ntv2autocirc.c:844-881 | a flush leaves every slot of the ring an address from which a stopped output does not start |
| OutputRuns.RunsWithoutPrerollKeepBound | driver/ntv2autocirc.c:3054-3070 | in every run of a channel without prerolls no more rewinds are completed than required |
| OutputRuns.StepBreaksBoundIff | driver/ntv2autocirc.c:2526-2540 | one step breaks that bound if and only if the starting interrupt moves on from an empty frame after more than two rewinds |
| OutputRuns.PrerollBreaksBound | driver/ntv2autocirc.c:936-943 | a run from Init, on a ring of three, that breaks it |
| AudioCompaction.OutputAudio | demos/ntv2framegrabber.cpp:938-969 | for every buffer, byte count and channel count of two or more: each cell written holds the top half of the last original sample sent to it, every other cell is unchanged, no sample is clobbered before it is read |
| AudioCompaction.FrontIsPacked | demos/ntv2framegrabber.cpp:938-969 | for whole groups with at most 65536 outputs the front is the top halves of channels 0 and 1 in order |
| AudioCompaction.BytesWrittenAreBytesProduced | demos/ntv2framegrabber.cpp:938-969 | the byte count handed on is then the bytes produced |
| AudioCompaction.OutputsStandIff | demos/ntv2framegrabber.cpp:938-969 | every output stays in its own cell if and only if there are at most 65536 |
| DataBlocks.GetDatablockHeader | driver/ntv2displayid.c:1128-1173 | a header gives tag, extended tag and length, or fails with the defaults |
| DataBlocks.SeekIsOutcome | driver/ntv2displayid.c:1024-1126 | one counting pass finds what filtering the whole walk finds |
| DataBlocks.GetIndexForDatablock | driver/ntv2displayid.c:1024-1126 | for every content of the block the lookup ends, keeps its index within eight bits, and reports match number inst of the walk, none, or a failed read; the rows below say what the walk finds, with detailed timings and without |
| DataBlocks.WalkIsLaidOut | driver/ntv2displayid.c:1024-1126 | the blocks walked lie one after the other inside the extension and before the timings, and are what their headers say |
| DataBlocks.LookUpFindsLayout | driver/ntv2displayid.c:1024-1126 | laying out any list of tagged blocks that fits, followed by detailed timings or, with byte 2 equal to 0, by padding or the end, and looking one up by tag and number gives its offset and length, or nothing |
| DataBlocks.PayloadRoundTrip | driver/ntv2displayid.c:1024-1126 | with detailed timings or without, wildcard match number k is payload k, at the offset its predecessors add up to |
| DataBlocks.TaggedRoundTrip | driver/ntv2displayid.c:1089-1112 | payload k is found by its own tag, and extended tag, under the number of payloads of that type before it; a type has no more numbers than payloads |
| DataBlocks.BlocksEndAt126 | driver/ntv2displayid.c:1054-1063 | without detailed timings a header at byte 125 is still looked at and one at 126 is not, whatever it holds |
| AudioDescriptors.GetIndexForAudioDescriptor | driver/ntv2displayid.c:792-890 | the nested search ends before its 254 rounds, keeps its index within eight bits, and reports what the specified search says |
| AudioDescriptors.FormatIsMiddle | driver/ntv2displayid.c:869-870 | the format of a descriptor is bits 3 to 6 of its first byte |
| AudioDescriptors.FormatFindsOwn | driver/ntv2displayid.c:860-880 | while all can be read, a format finds exactly the three-byte descriptors of the block that carry it |
| AudioDescriptors.WildcardFindsAll | driver/ntv2displayid.c:845-858 | the wildcard finds every descriptor of the block in order, without reading any |
| AudioDescriptors.FailsIff | driver/ntv2displayid.c:860-867 | the search of a block fails if and only if the format is no wildcard and the first byte of some descriptor cannot be read |
| AudioDescriptors.LookupIsFirstLonger | driver/ntv2displayid.c:792-890 | number inst is number inst of the first audio block that holds more than inst |
| AudioDescriptors.ReachedIff | driver/ntv2displayid.c:792-890 | descriptor i of a block is reached by some number if and only if every earlier block holds at most i |
| AudioDescriptors.AllReachedIff | driver/ntv2displayid.c:303-317 | enumerating numbers sees all descriptors of a format if and only if at most one audio block holds any |
| AudioDescriptors.NumbersHaveNoGap | driver/ntv2displayid.c:303-317 | the enumeration may stop at the first number that finds nothing |
| AudioDescriptors.SecondBlockIsHidden | driver/ntv2displayid.c:792-890 | two audio blocks with one descriptor each: the second is never found |
| VendorBlocks.ReadRegisters | driver/ntv2displayid.c:1175-1203 | reads ahead over the buffer until a read fails or byte 127 is passed, and never reports it |
| VendorBlocks.GetIndexForVendorBlock | driver/ntv2displayid.c:894-957 | the search for a vendor identifier reports what the specified search says, from whatever the buffer held |
| VendorBlocks.GetIndexForHdmiDatablock | driver/ntv2displayid.c:894-957 | so does the search for the HDMI identifier |
| VendorBlocks.GetIndexForHfDatablock | driver/ntv2displayid.c:959-1022 | and the search for the HDMI Forum identifier |
| VendorBlocks.CodesAre | driver/ntv2displayid.c:128-134 | the identifiers are 0x000C03 and 0xC45DD8, least significant byte first |
| VendorBlocks.IdIsFreshIff | driver/ntv2displayid.c:936-948 | what is compared is independent of what the buffer held if and only if all three bytes could be read |
| VendorBlocks.LastBlockReadsHeader | driver/ntv2displayid.c:1188-1202 | for a vendor block whose header is byte 127 that header is read in place of its identifier |
| VendorBlocks.StaleBytesAnswer | driver/ntv2displayid.c:1196-1202 | an extension, every byte of it readable, whose last vendor block of one byte is taken for the HDMI one |
| VendorBlocks.VendorLookupFindsId | driver/ntv2displayid.c:894-957 | in an extension that can be read the result is the first vendor block carrying the identifier, or none when none does |
| VideoFlags.GetGlobalVideoStatus | driver/ntv2displayid.c:459-538 | for every content the scan ends, and the status holds the support bits and the 4:2:0 flag found so far, also when a later read fails; before byte 3 is read it is left alone |
| VideoFlags.SupportBitsAre | driver/ntv2displayid.c:472-475 | underscan is bit 7 of byte 3, 4:4:4 bit 5 and 4:2:2 bit 4 |
| VideoFlags.FlagOfLayout | driver/ntv2displayid.c:477-535 | over a layout of nonempty blocks the scan finds what the blocks announce, then goes on through what follows |
| VideoFlags.FlagByHeaders | driver/ntv2displayid.c:477-535 | the scan succeeds if and only if every header met can be read, and then sets the flag if and only if one is extended with a 4:2:0 tag |
| VideoFlags.FlagIsRightIff | driver/ntv2displayid.c:477-535 | the flag is what the blocks announce if and only if every header met by going on after them can be read and none announces 4:2:0, unless a block does anyway |
| VideoFlags.EmptyBlockEndsScanIff | driver/ntv2displayid.c:526-535 | with an empty block in the layout the flag is right if and only if the blocks before it announce 4:2:0 or those after it do not, the byte after an empty extended block standing in for the latter |
| VideoFlags.TimingReadAsFlag | driver/ntv2displayid.c:477-535 | detailed timing bytes taken for a 4:2:0 block |
| HdmiEdid.Edid.Configure | driver/ntv2hdmiedid.c:212-322 | after configuring, every 128-byte block sums to 0 modulo 256 and the image is the template but for the last byte of each block and, when patching, the byte after the first prefix; the rejected cases change nothing |
| HdmiEdid.Edid.ModifyPort | driver/ntv2hdmiedid.c:290-309 | patches the byte after the first prefix searched for, and nothing else |
| HdmiEdid.PortNumbers | driver/ntv2hdmiedid.c:29 | the byte for a port is its number, counted from 1, in the upper half |
| HdmiEdid.Edid.ComputeChecksums | driver/ntv2hdmiedid.c:311-322 | every block sums to 0 modulo 256, only last bytes change |
| HdmiEdid.PortMattersIff | driver/ntv2hdmiedid.c:290-322 | for any template, two ports give different images, checksums apart, if and only if the patched byte does not end a block |
| EdidTemplates.PortStandsIn20 | driver/ntv2hdmiedid.c:51-69 | in the image made from the first template that is patched the chosen port stands |
| EdidTemplates.PortStandsIn13 | driver/ntv2hdmiedid.c:71-89 | and in the image made from the second |
| GenlockSpi.Genlock.SpiReset | driver/ntv2genlock.c:597-607 | after a reset no page is remembered and nothing waits |
| GenlockSpi.Genlock.SpiWaitWriteEmpty | driver/ntv2genlock.c:614-628 | waiting succeeds if and only if the chip has then taken every byte, and changes nothing about what the chip will have done |
| GenlockSpi.Genlock.SpiGenlockWrite | driver/ntv2genlock.c:630-653 | keeps the remembered page unknown or the chip's own; on success exactly one register is written, the one at the full address unless the page cannot be selected; it fails only with bytes the chip did not take in time, and then writes nothing |
| GenlockSpi.Genlock.SpiGenlockRead | driver/ntv2genlock.c:655-697 | keeps that too, writes nothing, and on success gives the register at the full address, with the same exception; it fails only with bytes the chip did not take in time |
| GenlockSpi.BytesSent | driver/ntv2genlock.c:630-653 | the bytes sent to select a page, write a register and read one |
| GenlockSpi.Genlock.ConfigureGenlock | driver/ntv2genlock.c:521-595 | success leaves the registers with the table applied in order at full addresses; failure, only with bytes the chip did not take in time, leaves a prefix of it |
| GenlockSpi.LastEntryStands | driver/ntv2genlock.c:521-595 | of several entries for an address the last stands |
| GenlockSpi.UnselectablePageIff | driver/ntv2genlock.c:630-653 | an operation goes to the address asked for if and only if its page is not 0xff, or some page is remembered, or the chip is on page 0xff already |

## Left out

- Host-chosen slots (`acDesiredFrame`) and AutoCircSetActiveFrame, which bypass the order of the ring on purpose.
- Peer-to-peer transfers and `videoTransferPending`, DMA engines, colour correction, video processing, routing, timecode, ancillary data and SDI status: device plumbing that leaves the ring alone. The DMA between the two halves of a transfer is the gap in which other steps may come.
- Stop and Abort beyond their change of state; the Stopping state ends in Disabled at an interrupt.
- A sync tolerance of which three times the value does not fit 31 bits.
- A change of video format or field mode within a run of AudioRuns: the audio and frame rates are fixed.
- Error statuses of AutoCircInit (busy channels, reversed or negative ranges, ranges beyond the frame buffers): ranges are taken as valid.
- CaptureRing.CaptureIsFifo: its runs contain no pause (PausedTickKeepsQueueIff says exactly when one interrupt in pause keeps the queue) and begin transfers only with a filled slot (CompletionKeepsQueueIff covers the fallback).
- Several transfers in flight at once, and a flush while a transfer is in flight.
- 32-bit wrap-around of `framesProcessed`, `droppedFrames`, `validCount` and the sum of bytes since a rewind.
- Negative preroll counts in the queue theorems: the in-place code and the gang theorems take any count, the queue theorems one of at least 0.
- Selection of the two synced channels: the partners are taken as set from Init on. Capture channels may be synced too; only playback pairs are proved to stay in step.
- Interrupt times other than the two tests made of them (start time come, too soon after the last), and the audio clock.
- Pausing and unpausing the audio output while a playback channel is paused; its stopping and starting are modelled.
- Gangs: all members are interrupted once per vertical blank and find the same field, start time and interrupt period; only the sync reports differ.
- Audio and frame rate pairs without a cadence; the drift theorems speak of the supported ones.
- AudioCompaction.OutputAudio: the buffer is read with its low half first, as on the hosts the demo runs on; fewer than two channels are not modelled.
- Parsing of audio descriptors and of the HDMI and HDMI Forum video blocks once found.
- VendorBlocks.GetIndexForVendorBlock: the loop the two vendor searches share is written once; the buffer's first content is a parameter.
- GenlockSpi: the chip is modelled by its address, write and read commands; the genlock reset line, the delays and the tables themselves are left out, and so are register 0x01 and page 0xff in the table.
- HdmiEdid: the templates' bytes are a parameter; EdidTemplates holds the two that are patched.
