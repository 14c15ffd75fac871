# Verified model of the BSC target driver and the virtual display

The repository turns a Raspberry Pi into an I²C target. A kernel driver serves the BSC target peripheral: it
collects what a controller writes into records, hands them to one application, and sends the application's
responses back under a READY handshake. A virtual display reads such records and shows what an SSD1306 or SH1106
panel would show. This project models both and proves what they promise, for every byte stream, every timing of the
bus and every interleaving of operations.

## How it is built

**The driver.** `BscWorld` is the state: driver fields, peripheral registers and FIFOs, and a record of the run (the
controller's writes, the burst each record came from, the bytes seen on the wire, the drives of READY). The bus moves
before every register access: a *script* lists which events (a write begins, a byte arrives, the write ends, a byte is
clocked out) happen at each access, and no proof restricts it unless the lemma says so. `BscDriver` gives each critical
section of `kernel/bcm27xx_bsc_target.c` as a function on that state. `BscTarget` is the driver in its own form, a class
whose fields and arrays are updated in place, with the drain, refill and purge loops and the ring of receive slots; each
of its methods is proved to be the function of the same name. `BscInvariant`, `BscService`, `BscActions` and
`BscResponse` prove one invariant preserved by every register access; `BscMachine` interleaves interrupts, timer, file
operations, open, release and removal in any order; `BscPromises`, `BscInterrupts`, `BscOverruns`, `BscStatistics`,
`BscReplies`, `BscRecovery`, `BscOutcomes`, `BscPurge`, `BscBooks`, `BscLatency` and `BscExchange` state what follows, and
`BscRace` and `BscFindings` the runs in which a promise ends.

**The display.** `DisplaySpec` is the parser as one step function on values; `DisplayParser` is the incremental parser
object, `DisplayRuntime` the presentation loop and `SdlDisplay` the pixel expansion, all proved against functions.
`DisplayGrammar` writes the commands out byte by byte and proves that the parser reads exactly these; `DisplayFragments`,
`DisplayFrames`, `DisplayCodec`, `DisplayEvents` and `DisplayPresentation` prove what follows for whole streams.

**Both together.** `TargetDisplay` feeds the records that the driver delivers to the display.

**Assumptions about the hardware.** As in `tests/tx_serializer.py:53-88`, a response byte goes to the serializer if that is free and to
the 16-byte FIFO otherwise; as described at `kernel/bcm27xx_bsc_target.c:157-161`, each enable transition moves one FIFO
byte into the serializer. The controller clocks bytes out, and begins writes, only in full target mode. A byte that meets a
full receive FIFO is lost and raises the overrun flag. The run's record has each write twice, as it was sent and as far as
the FIFO took it; a write that met a full FIFO is marked as `holed`. A write during which the mode changes ends there for
the target and is marked as `severed`; if the controller goes on with it, it is also `clipped`. No mode change empties the
receive FIFO: the driver neither reads nor purges it between opens, so what it holds when a device is opened is logged as
`leftover`. A device may be probed in any mode and in the middle of a write.

## Findings

- **A response can answer the request before the last one.** The check before a publication looks at the driver's own
  state and at RXBUSY, not at RXFE (`kernel/bcm27xx_bsc_target.c:511-512`). A whole write that arrives after the drain and
  ends before the check is invisible to it. `BscRace.PublishesPastANewWrite` gives the interleaving, from every
  idle state, and `BscFindings.StaleAnswerInARun` a run from boot that ends in it; `BscRace.AnswersLastWriteIffFifoEmpty`
  gives the exact condition: the published response answers the last write that carried bytes if and only if the receive
  FIFO is empty at that moment. `docs/architecture.md:63-64` promises the latest receive generation, which is what holds
  (`BscPromises.LatestRequestOwnership`).
- **A record can hold bytes that were never written in this open.** Closing and opening purge the transmit side only
  (`kernel/bcm27xx_bsc_target.c:169-204`). Bytes not yet drained when the device is closed are the first record of the next
  open (`BscFindings.LeftoverBecomesARecord`). `BscPromises.RecordsAreWholeWrites` gives the exact condition: a record is
  whole writes of this open if and only if none of them was damaged and, for the first burst, the FIFO was empty when the
  device was opened.
- **A reply is exact if and only if nothing was left before it** (`BscReplies.ReplyIsExactUnlessAbandoned`). Bytes of an
  abandoned reply precede the next one, in the run of `BscFindings.AbandonedReplyPrecedesTheNext`.
  `docs/response-transport.md:12` excludes that case by contract; after an explicit recovery it cannot arise
  (`BscReplies.RecoveryThenExactReply`).
- **An overrun can go uncounted.** The service routine reads the error register first and clears it afterwards
  (`kernel/bcm27xx_bsc_target.c:283-290`), and closing, opening and recovery clear it without reading it
  (`kernel/bcm27xx_bsc_target.c:173`, `kernel/bcm27xx_bsc_target.c:201`). `BscFindings.OverrunCanGoUncounted` and
  `BscFindings.ClosingForgetsAnOverrun` are runs from boot that lose a byte while no counter of overruns moves.
  `BscOverruns.OverrunsAddUp` and `BscOverruns.EveryOverrunIsCounted` give the exact condition for every run: a rise of the
  flag is missed if and only if the flag is set when a service run that read only an underrun clears the register, or when
  it is cleared by configuration or switching off. Hence an overrun is missed only where `tx_underruns` or `recoveries` moves
  as well, or the device is opened or closed; `BscStatistics.NothingIsMissingByStatistics` says what the counters do prove.
- **TXFLEVEL transitions are not enough for a purge** unless the serializer is empty, TXFLEVEL + 1 always are
  (`BscPurge.LevelAloneIsNotEnough`).
- **From the transmit threshold to an underrun there are 15 byte clocks.** `docs/architecture.md:151-153` measures something
  else, the time until the FIFO empties, which is 14 bytes. Both are right: the serializer still holds one byte when the
  FIFO is empty (`BscLatency.PromptRefillNeverUnderruns`, `BscLatency.UnservedReadUnderruns`).

## Model

| member | source | states |
|---|---|---|
| BscPromises.RecordsAreWholeWrites | kernel/bcm27xx_bsc_target.c:243-299 | in every run every record, delivered or waiting, is what was taken of the controller writes between two cuts and has 1 to 8,192 bytes; it is one or more whole writes of this open, each exactly as the controller sent it, if and only if none of them met a full FIFO or lost its end to a change of mode and, for the first burst, the receive FIFO was empty at the open; records come in bus order |
| BscPromises.WritesAreTakenAsSent | kernel/bcm27xx_bsc_target.c:206-225 | in every run a write was taken exactly as it was sent if and only if no byte of it met a full FIFO or came after a change of mode; otherwise the target has fewer bytes than were sent |
| BscPromises.NothingIsMissing | kernel/bcm27xx_bsc_target.c:206-279 | in every run, delivered ++ waiting ++ work buffer ++ FIFO is exactly what the FIFO held at the open ++ all that the controller has sent since, if and only if no record was lost, the burst in progress has not overflowed and no write was damaged; and it is exactly what the FIFO has taken of that if and only if no record was lost and the burst has not overflowed |
| BscStatistics.NothingIsMissingByStatistics | kernel/bcm27xx_bsc_target.c:206-290 | if none of rx_dropped, rx_overruns, tx_underruns and recoveries has moved since the open, then at every time after which the timer has run once more, delivered ++ waiting ++ work buffer ++ FIFO is exactly what the FIFO held at the open and what the controller has sent since if and only if the burst in progress has not overflowed, and delivered ++ waiting ++ work buffer is a beginning of it in any case |
| BscStatistics.LossesByStatistics | kernel/bcm27xx_bsc_target.c:206-279 | the records lost since an open are the growth of rx_dropped plus the overflowed bursts, which are among the growth of rx_overruns |
| BscStatistics.UnmovedLosesNoByte | kernel/bcm27xx_bsc_target.c:281-299 | in one open, with the overrun flag clear at both ends and rx_overruns, tx_underruns and recoveries unmoved, no byte has met a full FIFO |
| BscStatistics.PendingIsCounted | kernel/bcm27xx_bsc_target.c:281-290 | a set overrun flag stays set until a service run counts it; every timer run of a live device does |
| BscStatistics.OpeningIsIntact | kernel/bcm27xx_bsc_target.c:365-383 | no write of a new open is damaged before the register is cleared, and any damage since shows in the flag |
| BscOverruns.OverrunsAddUp | kernel/bcm27xx_bsc_target.c:281-437 | over any run without CLEAR_STATS, opens, closes and recoveries included, the rises of the overrun flag are exactly those pending, those counted and those missed at the accesses named for each action; and nothing was lost if the flag did not rise |
| BscOverruns.EveryOverrunIsCounted | kernel/bcm27xx_bsc_target.c:281-437 | every overrun that no longer shows was counted if and only if no action of the run missed one |
| BscOverruns.ActReports | kernel/bcm27xx_bsc_target.c:281-437 | each action misses exactly the overruns that are set at its uncounted clears of the register |
| BscOverruns.ServiceReports | kernel/bcm27xx_bsc_target.c:281-299 | a service run counts a pending overrun, and misses one if and only if it is set at the clear while the register read before showed an underrun only; that moves tx_underruns |
| BscOverruns.ConfigureReports | kernel/bcm27xx_bsc_target.c:169-179 | configuration misses an overrun if and only if it is set when the register is cleared after the purge, and counts none |
| BscOverruns.DisableReports | kernel/bcm27xx_bsc_target.c:197-204 | switching off misses an overrun if and only if it is set when the register is cleared, and counts none |
| BscPromises.SeveredOnlyByModeChange | kernel/bcm27xx_bsc_target.c:169-204 | only an activating open, a release, a removal and a successful recovery can cut a controller write short |
| BscPromises.RunBalances | kernel/bcm27xx_bsc_target.c:206-526 | over any stretch of a run without open, close or CLEAR_STATS, rx_transactions − rx_dropped − delivered − waiting does not change, and tx_transactions, tx_discarded and recoveries grow by exactly the responses published, the results discarded and the purges made |
| BscPromises.LatestRequestOwnership | kernel/bcm27xx_bsc_target.c:499-526 | in every run each published response answers the record of the burst that was the latest begun, and verdicts never exceed deliveries |
| BscPromises.WaitingRecordIsLatest | kernel/bcm27xx_bsc_target.c:206-225 | in every run the generation counts bursts begun; in READY mode at most one record waits, none during a burst, and it is the latest burst's; the turn's generation is the burst last read |
| BscPromises.ReadyDiscipline | kernel/bcm27xx_bsc_target.c:235-256 | in every run READY is asserted between sections only for the latest request's response or while a newer burst arrives, never with a waiting record or pending worker; each response edge rises from a released line last asserted to acknowledge the same generation |
| BscReplies.RepliesInEveryRun | kernel/bcm27xx_bsc_target.c:227-233 | in every run, from the publication of a response to the next publication or purge, while it is queued, bytes clocked out ++ serializer ++ FIFO is what the hardware held when the publication was decided ++ the first tx_loaded bytes of the response; once that many bytes are out, the controller has read exactly these |
| BscReplies.EveryReplyIsAccountedFor | kernel/bcm27xx_bsc_target.c:515-522 | the same from any safe state that publishes, whatever interrupts, timer runs, reads, failed recoveries, discarded results and bus traffic follow |
| BscReplies.ActGrows | kernel/bcm27xx_bsc_target.c:281-320 | no action but a publication, an activating open and a successful recovery takes back a byte that the transmit path was given or the controller has read |
| BscPromises.TransmitAccountIsExact | kernel/bcm27xx_bsc_target.c:227-233 | in every run DR is never written to a full FIFO, and the queued response is the last one published, with its loaded part in the account in order |
| BscPromises.AnnouncedResponsesAreLoaded | kernel/bcm27xx_bsc_target.c:515-523 | in every run, at the instant of each response edge of READY, the response has been given to the hardware whole, or as far as it fits behind what was there (17 bytes in serializer and FIFO), and the hardware holds it in order, less what the controller had read by then |
| BscReplies.ReplyIsExactUnlessAbandoned | kernel/bcm27xx_bsc_target.c:515-522 | over every run that follows a publication, a response loaded and clocked out to its end was read exactly if and only if the hardware held nothing when the publication was decided; what it held was read before the response |
| BscReplies.PublicationSignals | kernel/bcm27xx_bsc_target.c:520-523 | the response edge is the last thing a publication does, and what it announces is what the hardware then holds |
| BscReplies.ReadingAfterReadyMeetsNoGap | docs/architecture.md:112-116 | however the bus moves during a publication and in any run after it, a controller that reads nothing before the response edge meets no gap within the first 17 bytes, or within the whole of what was there and of the response if that is less |
| BscPromises.TransmitInterruptIsExact | kernel/bcm27xx_bsc_target.c:143-150 | in every run, between critical sections, IMSC of an active device is 0xd (receive, break, overrun) plus bit 1 (transmit) exactly while response bytes are unloaded, and 0 when inactive |
| BscPromises.LifecycleSafety | kernel/bcm27xx_bsc_target.c:365-437 | in every run inactive means CR, IMSC and SLV zero, READY released and no traffic kept; active means open, addressed and CR 0x305; a removed device is inactive |
| BscPromises.PurgedOnlyByActivationOrRecovery | kernel/bcm27xx_bsc_target.c:243-320 | of all actions exactly an activating open and a successful recovery purge the transmit path, once each; normal receives never do |
| BscPromises.BurstsJoin | kernel/bcm27xx_bsc_target.c:264-274 | the first bursts of an open put together are what the FIFO held at the open and then the controller writes up to the last cut |
| BscMachine.EveryRunIsSafe | kernel/bcm27xx_bsc_target.c:281-561 | every interleaving of interrupts, timer, read, write, ioctls, open, release and remove, with any bus traffic inside and between them, keeps the whole invariant |
| BscMachine.RunIsSafe | kernel/bcm27xx_bsc_target.c:281-561 | the invariant is inductive: from any safe state, any run ends in one |
| BscMachine.ActIsSafe | kernel/bcm27xx_bsc_target.c:322-561 | each single action keeps the invariant, the register state of its lifecycle phase and the single open |
| BscMachine.BootIsSafe | kernel/bcm27xx_bsc_target.c:671-763 | a device is safe after probing, in whatever mode and traffic the peripheral is found |
| BscMachine.OpenInSteps | kernel/bcm27xx_bsc_target.c:401-425 | claiming and activating without interruption is the whole open: EBUSY, ENODEV and pin errors leave the device closed |
| BscMachine.ReleaseInSteps | kernel/bcm27xx_bsc_target.c:427-437 | the two steps of a release are the whole release; a dead device is not deactivated again |
| BscMachine.RemoveInSteps | kernel/bcm27xx_bsc_target.c:774-787 | marking dead and deactivating under the state lock is the whole removal |
| BscRecovery.RecoveryOutcome | kernel/bcm27xx_bsc_target.c:301-320 | recovery succeeds exactly for a pending worker that owns the latest request on an idle bus; then FIFO and serializer are empty, READY is released and ownership kept; every failure leaves the driver as its service did and discards no byte |
| BscRecovery.RecoverySucceedsWhenQuiet | kernel/bcm27xx_bsc_target.c:301-310 | on a quiet bus recovery succeeds if and only if READY is configured, a worker is pending and its generation is the latest |
| BscOutcomes.WriteOutcome | kernel/bcm27xx_bsc_target.c:499-561 | the results of write: EMSGSIZE, ENODEV, EOPNOTSUPP and EPROTO exactly under their conditions and without spending the turn; otherwise the turn is spent, on one publication or one discard, each counted; a publication implies that nothing received before the call was newer than the request read, and on a silent bus this and an idle controller are also enough |
| BscOutcomes.RecoverOutcome | kernel/bcm27xx_bsc_target.c:301-320 | the results of the recovery ioctl: ENODEV and EPROTO exactly under their conditions; success implies that nothing received before the call was newer than the request read, and on a silent bus this and an idle controller are also enough |
| BscOutcomes.ReadOutcome | kernel/bcm27xx_bsc_target.c:469-494 | a read returns the oldest record whole, removes it once and gives its worker the turn, or it changes nothing: retry without a record, EMSGSIZE exactly if it does not fit |
| BscOutcomes.OpenOutcome | kernel/bcm27xx_bsc_target.c:365-425 | EBUSY, ENODEV and pin errors exactly under their conditions and without effect; otherwise the device is in target mode at its address with the base interrupts, READY released, nothing to send, and all traffic and ownership forgotten, but no counter |
| BscOutcomes.ServingIsCounted | kernel/bcm27xx_bsc_target.c:322-363 | an interrupt is counted exactly if something is pending and the device is active, a timer run exactly if it is alive and active, and nothing else is counted as one; an ignored one changes nothing |
| BscOutcomes.ClearOutcome | kernel/bcm27xx_bsc_target.c:610-615 | CLEAR_STATS sets all counters of an open device to zero and changes nothing else |
| BscReplies.RecoveryThenExactReply | docs/response-transport.md:31-38 | whatever an abandoned exchange left, the owner's recovery succeeds; after any interrupts, timer runs, reads, further recoveries and clocks its next response is published; and after any such actions again the controller has read a prefix of exactly that response, and all of it once it has read that many bytes |
| BscRecovery.ServiceGrows | kernel/bcm27xx_bsc_target.c:281-299 | service never discards a transmit byte: the account of stale, fed and read bytes only grows |
| BscRecovery.QuietService | kernel/bcm27xx_bsc_target.c:281-299 | without input, service ends a burst in progress and otherwise changes only counters and the bytes loaded |
| BscPurge.PurgeEmpties | kernel/bcm27xx_bsc_target.c:152-167 | the purge empties FIFO and serializer at every level, even if the controller reads between the level read and the disable |
| BscPurge.TransitionsDiscard | kernel/bcm27xx_bsc_target.c:163-166 | n disable/enable transitions discard exactly the first n waiting bytes |
| BscPurge.LevelAloneIsNotEnough | kernel/bcm27xx_bsc_target.c:154-161 | TXFLEVEL transitions suffice if and only if the serializer is empty; TXFLEVEL + 1 always suffice |
| BscPurge.ConfigureEmpties | kernel/bcm27xx_bsc_target.c:169-179 | a reconfigured peripheral has nothing to clock out, although enabling shifts once more |
| BscPurge.ConfigureFrame | kernel/bcm27xx_bsc_target.c:169-179 | reconfiguration leaves driver fields, READY and records alone and purges once |
| BscBooks.PublicationDecided | kernel/bcm27xx_bsc_target.c:499-526 | a worker with a turn gets one verdict: published whole for the record it read last, with its bytes counted, if no newer burst has begun and the bus is idle, else discarded; without turn or READY an error and no verdict |
| BscBooks.ServiceKeepsBooks | kernel/bcm27xx_bsc_target.c:281-299 | service delivers and decides nothing, keeps the worker's turn, and counts every record it drops |
| BscLatency.PromptServiceNeverOverruns | docs/architecture.md:141-149 | in any run of bus events, interrupts and timer runs, a transfer of any length never loses a byte and never raises the overrun flag if at most four bytes arrive between the receive threshold and the next interrupt or timer run |
| BscLatency.UnservedTransferOverruns | kernel/bcm27xx_bsc_target.c:69-73 | unserved arrivals overrun if and only if they exceed the room left, so the slack is exactly four |
| BscLatency.PromptRefillNeverUnderruns | docs/architecture.md:151-155 | in any run of clocks, interrupts and timer runs, a response of any length is read without a gap if an interrupt or timer run comes within 15 byte clocks of the transmit threshold, and one read to its length is read exactly |
| BscLatency.UnservedReadUnderruns | kernel/bcm27xx_bsc_target.c:69-73 | unserved clocks meet exactly as many gaps as they exceed the bytes present |
| BscLatency.ServeInStillness | kernel/bcm27xx_bsc_target.c:281-299 | a service run leaves the receive FIFO empty and either everything loaded or the transmit FIFO full |
| BscExchange.ExchangeIsExact | docs/response-transport.md:12-17 | a normal exchange, as a run of interrupts, timer runs, one read and one write, is exact: the application gets the request bytes, the controller reads the response bytes without gap, READY acknowledges, is released and announces once, nothing is lost or discarded |
| BscExchange.EveryExchangeIsExact | docs/response-transport.md:12-17 | any number of normal exchanges in one run, each with its own timing, are all exact |
| BscExchange.RequestIsRecorded | kernel/bcm27xx_bsc_target.c:243-279 | after a completed write of at most 8192 bytes, an interrupt or a timer run makes it the only waiting record, byte for byte, with one acknowledge pulse of its generation |
| BscExchange.OpenedDeviceRests | kernel/bcm27xx_bsc_target.c:365-383 | a device opened on a silent bus is ready for exchanges at once if and only if its receive FIFO is empty, and otherwise after one timer run, whatever either FIFO held |
| BscRace.AnswersLastWriteIffFifoEmpty | kernel/bcm27xx_bsc_target.c:511-512 | from every state, a published response answers the last write that carried bytes if and only if the receive FIFO is empty at the decision |
| BscRace.PublishesPastANewWrite | kernel/bcm27xx_bsc_target.c:511-522 | from every idle state whose worker owns the latest request, a one-byte write just before the final flag read is followed by a publication for the older request |
| BscRace.NoticesAWriteInProgress | kernel/bcm27xx_bsc_target.c:511-514 | in the same states, a write that has only begun by the final flag read is noticed: the response is discarded |
| BscFindings.StaleAnswerInARun | kernel/bcm27xx_bsc_target.c:499-526 | a run from boot, through open, request and read, that publishes the response to a request that is no longer the last |
| BscFindings.LeftoverBecomesARecord | kernel/bcm27xx_bsc_target.c:169-204 | bytes left in the receive FIFO when a device is closed are a record of the next open, in which nothing was written |
| BscFindings.AbandonedReplyPrecedesTheNext | docs/response-transport.md:12-17 | a run from boot in which the controller, after abandoning one response, reads it in place of the next |
| BscFindings.OverrunCanGoUncounted | kernel/bcm27xx_bsc_target.c:283-290 | a run from boot in which a byte is lost between the read and the clearing of the error register, during an underrun, and rx_overruns does not move |
| BscFindings.ClosingForgetsAnOverrun | kernel/bcm27xx_bsc_target.c:197-204 | a run from boot in which a byte is lost, the device is closed, and no counter has moved |
| BscService.ServiceKeeps | kernel/bcm27xx_bsc_target.c:281-299 | service keeps the invariant with the bus moving between any two register accesses |
| BscInterrupts.InterruptTakesWhatArrived | kernel/bcm27xx_bsc_target.c:281-299 | whatever the bus does meanwhile, after an interrupt or timer run the FIFO holds only bytes that arrived since it began; all that had arrived before is delivered, waits as records or is in the work buffer, unless a record was lost and counted or the burst overflows |
| BscInterrupts.InterruptOnSilentBus | kernel/bcm27xx_bsc_target.c:322-363 | an interrupt or timer run of an active device on a silent bus empties the receive FIFO; all that was received since the last record becomes the newest record if the controller is idle (1 to 8,192 bytes, at most 1,024 records waiting, acknowledged once), or an overrun if it is longer, and stays in the work buffer otherwise; the response is fully loaded or the transmit FIFO is full; every counter moves by exactly what happened |
| BscService.IdleAndEmptyCuts | kernel/bcm27xx_bsc_target.c:292-297 | idle and empty in one snapshot mean that every write begun is complete and drained, whatever was damaged before |
| BscService.CloseKeeps | kernel/bcm27xx_bsc_target.c:258-278 | closing a burst turns exactly it into a record, or loses it when it overflowed, and the oldest record when the ring is full |
| BscService.DrainedKeeps | kernel/bcm27xx_bsc_target.c:208-224 | one drained byte keeps the invariant: no byte is lost or reordered, the first of a burst advances the generation and in READY mode drops what waits |
| BscService.WriteKeepsTx | kernel/bcm27xx_bsc_target.c:229-231 | a response byte written after a not-full flag never overfills the FIFO and appears next in order |
| BscService.AckKeeps | kernel/bcm27xx_bsc_target.c:235-241 | the acknowledge pulse rises for the current generation and is released before anything else |
| BscActions.ConfigureKeeps | kernel/bcm27xx_bsc_target.c:169-179 | configuration keeps the invariant and leaves the device in target mode at its address with the exact interrupt mask |
| BscActions.ResetKeeps | kernel/bcm27xx_bsc_target.c:181-195 | a reset outside target mode forgets all traffic and ownership and releases READY; what the receive FIFO holds stays and is accounted for |
| BscActions.ReadKeeps | kernel/bcm27xx_bsc_target.c:469-486 | taking a record keeps the invariant: the generation stored for the worker is that of the record read |
| BscResponse.RecoverResponseKeeps | kernel/bcm27xx_bsc_target.c:301-320 | recovery keeps the invariant and the registers of an active device |
| BscResponse.PublishKeeps | kernel/bcm27xx_bsc_target.c:499-526 | publication keeps the invariant and the registers of an active device |
| BscInvariant.HappenAllKeeps | tests/tx_serializer.py:53-88 | whatever the bus does, the invariant holds |
| BscRing.StoreAppends | kernel/bcm27xx_bsc_target.c:267-271 | storing at the tail of a ring that is not full appends to the queue it implements |
| BscRing.AdvanceRemoves | kernel/bcm27xx_bsc_target.c:261-265 | advancing the head removes the oldest record and keeps the tail in place |
| BscTargets.BscTarget.constructor | kernel/bcm27xx_bsc_target.c:671-763 | a new device object is a zeroed driver that has switched off the peripheral it found, register by register, as the machine boots |
| BscTargets.BscTarget.SetInterrupts | kernel/bcm27xx_bsc_target.c:143-150 | the method is the modelled section |
| BscTargets.BscTarget.PurgeTxFifo | kernel/bcm27xx_bsc_target.c:152-167 | the purge loop makes TXFLEVEL + 1 transitions |
| BscTargets.BscTarget.Configure | kernel/bcm27xx_bsc_target.c:169-179 | the method is the modelled section, register by register |
| BscTargets.BscTarget.ResetIo | kernel/bcm27xx_bsc_target.c:181-195 | clearing the fields empties queue, work buffer and response |
| BscTargets.BscTarget.Disable | kernel/bcm27xx_bsc_target.c:197-204 | the method is the modelled section |
| BscTargets.BscTarget.DrainRx | kernel/bcm27xx_bsc_target.c:206-225 | the drain loop over the work array is the recursive drain, and terminates |
| BscTargets.BscTarget.RefillTx | kernel/bcm27xx_bsc_target.c:227-233 | the refill loop is the recursive load followed by the mask |
| BscTargets.BscTarget.AckRequest | kernel/bcm27xx_bsc_target.c:235-241 | the method is the modelled section |
| BscTargets.BscTarget.Enqueue | kernel/bcm27xx_bsc_target.c:261-274 | head, tail and count implement a queue of 1,024 records that drops its oldest |
| BscTargets.BscTarget.FinishRx | kernel/bcm27xx_bsc_target.c:243-279 | the method is the modelled section, in both modes |
| BscTargets.BscTarget.Service | kernel/bcm27xx_bsc_target.c:281-299 | errors, drain, one snapshot, finish and refill in that order are the modelled service |
| BscTargets.BscTarget.RecoverResponse | kernel/bcm27xx_bsc_target.c:301-320 | the method is the modelled section with its three results |
| BscTargets.BscTarget.Irq | kernel/bcm27xx_bsc_target.c:322-343 | the method is the modelled handler: serves exactly if something is pending and the device is active (its effect: `BscInterrupts`) |
| BscTargets.BscTarget.Timer | kernel/bcm27xx_bsc_target.c:345-363 | restarted exactly while alive and active |
| BscTargets.BscTarget.Activate | kernel/bcm27xx_bsc_target.c:365-383 | the method is the modelled section |
| BscTargets.BscTarget.Deactivate | kernel/bcm27xx_bsc_target.c:385-399 | the method is the modelled section; on an inactive device nothing happens |
| BscTargets.BscTarget.OpenFile | kernel/bcm27xx_bsc_target.c:401-425 | the method is the modelled operation with its errors |
| BscTargets.BscTarget.ReleaseFile | kernel/bcm27xx_bsc_target.c:427-437 | the method is the modelled operation |
| BscTargets.BscTarget.ReadMessage | kernel/bcm27xx_bsc_target.c:469-486 | the oldest waiting record is returned and removed if it fits, else EMSGSIZE and nothing changes |
| BscTargets.BscTarget.PublishResponse | kernel/bcm27xx_bsc_target.c:499-526 | the method is the modelled section with its results, loading before READY rises (`BscPromises.AnnouncedResponsesAreLoaded`) |
| BscTargets.BscTarget.QueueResponse | kernel/bcm27xx_bsc_target.c:528-561 | EMSGSIZE, ENODEV or publication, in that order |
| BscTargets.BscTarget.RecoverIoctl | kernel/bcm27xx_bsc_target.c:604-609 | ENODEV or recovery |
| BscTargets.BscTarget.ClearStats | kernel/bcm27xx_bsc_target.c:610-615 | all counters return to zero |
| BscTargets.BscTarget.RemoveDevice | kernel/bcm27xx_bsc_target.c:774-787 | the method is the modelled operation |
| DisplayFragments.StepExtends | src/display_protocol.rs:128-319 | any step the parser takes on its pending bytes is the step it takes when more bytes follow |
| DisplayFragments.DrainExtends | src/display_protocol.rs:101-126 | draining early and then feeding the rest is draining the whole |
| DisplayFragments.FragmentationIndependence | README.md:229-232 | for both controllers any fragmentation of any stream gives the tokens and the parser state of the whole stream at once |
| DisplayFragments.SameStreamSameRun | README.md:229-232 | two ways to cut the same stream cannot be told apart |
| DisplayFragments.DrainedPendingIsBounded | src/display_protocol.rs:253-263 | a drained parser holds back at most 1024 bytes however long the stream |
| DisplayFragments.PendingBoundIsTight | src/display_protocol.rs:253-263 | draining the address and any 1023 data bytes of a full frame from a fresh parser leaves exactly 1024 bytes pending |
| DisplayFragments.TokenisationIsLossless | src/display_protocol.rs:128-235 | consumed tokens ++ pending spell the input: no byte is lost, duplicated or reordered |
| DisplayGrammar.ScanIsExact | src/display_protocol.rs:128-235 | one scanning step on any bytes, for both controllers, is exactly what the commands written out byte by byte say: skipped, entered as a rectangle or page, wrapped, one byte discarded, or more bytes needed |
| DisplayGrammar.JunkCostsOneByte | src/display_protocol.rs:227-235 | a scanning parser that can act and whose pending bytes begin with no init or display-on pattern and no well-formed window or page command discards exactly one byte, and keeps scanning |
| DisplayGrammar.DataIsExact | src/display_protocol.rs:245-318 | a parser that expects data consumes nothing and scans again if the next byte is not 0x40, waits until the data is complete, and then takes exactly 0x40 and the data |
| DisplayGrammar.MalformedWindow | src/display_protocol.rs:130-163 | an SSD1306 window command with impossible addresses is noise before anything that follows, as long as no command begins inside it |
| DisplayGrammar.MalformedPage | src/display_protocol.rs:164-226 | so is an SH1106 page command with impossible columns |
| DisplayFrames.FramebufferIsFold | src/display_protocol.rs:264-270 | the framebuffer is the fold of the declared rectangle writes and nothing else |
| DisplayFrames.ByteIsLastWritten | README.md:233-234 | each framebuffer byte is the last one a rectangle covering it wrote, and is preserved where none did |
| DisplayFrames.TwinStep | src/display_protocol.rs:209-218 | two parsers that differ only in rows not yet rewritten in this frame stay so, and agree at every completed frame |
| DisplayFrames.CompletedFramesHoldNoStalePixel | src/display_protocol.rs:273-317 | completed frames do not depend on what the framebuffer held before, for every stream and fragmentation |
| DisplayFrames.FinishMarksRewrittenRows | src/display_protocol.rs:304-316 | a payload marks no page, and completes no frame with a page, that was not marked before or fully rewritten by it |
| DisplayFrames.CompletedFrameRewroteEveryRow | src/display_protocol.rs:209-218 | in every SH1106 stream, however cut, a completed frame comes after a page-0 command since which each of the eight rows was rewritten over its full width |
| DisplayEvents.Ssd1306EventsAreExact | src/display_protocol.rs:273-279 | in every SSD1306 stream, however cut, each payload is a completed frame if and only if its rectangle is the whole display, and a partial boundary otherwise |
| DisplayEvents.Sh1106EventsAreExact | src/display_protocol.rs:304-318 | in every SH1106 stream, however cut, a page-7 payload is a completed frame if and only if since the last page-0 command no page command went back, no other page-7 data came and each of the eight rows was rewritten over its full width; otherwise it is a partial boundary, and data for pages 0 to 6 is no event |
| DisplayCodec.DecodeMessage | src/display_protocol.rs:128-318 | each encoded message is consumed whole, yields exactly its declared write and leaves the parser scanning |
| DisplayCodec.MalformedCommandIsSkipped | src/display_protocol.rs:536-575 | bytes that begin as a window or page command but are none, before a further command, are noise: they are discarded one by one and that command is decoded |
| DisplayCodec.RoundTrip | src/display_protocol.rs:128-319 | any interleaving of init, display-on, rectangle, range and legacy page messages and noise decodes to exactly the declared updates in order, discards exactly the noise and leaves nothing pending; noise is any bytes in which, with what follows them, no command begins, malformed commands among them |
| DisplayCodec.DisplayShowsWhatWasSent | README.md:229-241 | end to end, under any fragmentation, the display shows the declared updates over 1,024 zero bytes |
| DisplayParsing.DisplayParser.constructor | src/display_protocol.rs:85-95 | a new parser is the fresh value |
| DisplayParsing.DisplayParser.Push | src/display_protocol.rs:101-126 | one push steps until a frame event or until it needs more, and its report counts exactly the tokens consumed |
| DisplayParsing.DisplayParser.ScanSsd1306 | src/display_protocol.rs:130-163 | one scan step of the SSD1306 grammar |
| DisplayParsing.DisplayParser.ScanSh1106 | src/display_protocol.rs:164-226 | one scan step of the SH1106 grammar, including the wrap that consumes nothing |
| DisplayParsing.DisplayParser.ConsumePattern | src/display_protocol.rs:237-243 | consumes the pattern exactly if it is a prefix of the pending bytes |
| DisplayParsing.DisplayParser.ReadSsd1306Data | src/display_protocol.rs:245-279 | one data step: wait, abandon, or write the rectangle row by row and report the event |
| DisplayParsing.DisplayParser.ReadSh1106PageData | src/display_protocol.rs:281-318 | one data step with the page bookkeeping |
| DisplayParsing.DisplayParser.WriteRectangle | src/display_protocol.rs:264-269 | the row loop writes exactly the rectangle and nothing outside it |
| DisplaySpec.Step | src/display_protocol.rs:105-125 | every step decreases a measure, also the two that consume no bytes, and keeps rectangles inside the framebuffer |
| DisplaySpec.Drain | src/bin/virtual-display.rs:280-303 | the drained loop terminates on every input, with a parser that needs more |
| DisplayPresentation.PresentationFollowsStream | src/bin/virtual-display.rs:280-317 | any sequence of pushes and polls, at any times, presents the boundary frames, counters and display RAM that one push of the whole stream presents |
| DisplayPresentation.RuntimeFragmentationIndependence | src/bin/virtual-display.rs:280-303 | two sequences of operations with the same bytes give the same parser, display RAM, boundary frames and counters |
| DisplayPresentation.BoundedStaleness | src/bin/virtual-display.rs:283-314 | the deadline is always 75 ms after the oldest unrendered update, is never postponed, has not passed after an operation, and without one the window shows the display RAM |
| DisplayPresentation.RendersAlwaysAddUp | src/bin/virtual-display.rs:290-313 | visual renders are boundary renders plus timeout renders |
| DisplayEvents.CountersAreExact | src/bin/virtual-display.rs:280-303 | after any operations completed_frames, display_updates and discarded_bytes are the completed frames, rectangles and junk bytes of the stream, and the boundary frames are the pictures at its frame events over a blank screen |
| DisplayEvents.MessagesAreCounted | src/bin/virtual-display.rs:280-303 | for encoded messages these are the declared updates, the noise and, for an SSD1306, the whole screens |
| DisplayRuntimes.DisplayRuntime.constructor | src/bin/virtual-display.rs:248-278 | a new runtime shows a blank screen with all counters zero |
| DisplayRuntimes.DisplayRuntime.Push | src/bin/virtual-display.rs:280-303 | the loop over parser pushes drains the parser and renders at each boundary as modelled |
| DisplayRuntimes.DisplayRuntime.Round | src/bin/virtual-display.rs:282-300 | one iteration counts its report, renders at an event and starts the deadline only for an unrendered update |
| DisplayRuntimes.DisplayRuntime.PollIdle | src/bin/virtual-display.rs:305-315 | renders exactly when the deadline has passed |
| SdlDisplays.SdlDisplay.Render | src/sdl_display.rs:228-245 | the pixel loops fill the texture with the framebuffer turned by 180 degrees, 0xfff2f2f2 for a set bit and 0xff000000 for a clear one |
| SdlDisplays.SdlDisplay.WindowShowsBits | tests/sdl_capture.c:33-41 | after a render, the sample at the centre of a pixel of the window is 0xfff2f2f2 for a set bit and 0xff000000 for a clear bit, at every integer scale |
| SdlDisplays.CentreIsInCell | tests/sdl_capture.c:33-34 | the sampled row or column lies in the cell of its pixel at every integer scale |
| SdlDisplays.PixelRoundTrip | tests/sdl_capture.c:30-44 | reading the rendered window back at any integer scale rebuilds every framebuffer byte |
| TargetDisplay.DeliveredIsPrefix | README.md:229-232 | with no record lost and no write damaged, the delivered records spell a beginning of what the FIFO held at the open and what the controller has sent since |
| TargetDisplay.DisplayFollowsController | README.md:229-232 | in every run with no record lost and no write damaged, a display fed the delivered records, in whatever pieces and at whatever times, presents what one push of that beginning of the sent bytes presents |
| TargetDisplay.DisplayShowsTheMessages | README.md:229-241 | if what was sent is the encoding of display messages, no record was lost, no write damaged and the driver is empty, a display fed the delivered records holds exactly the declared updates over a blank screen |
| TargetDisplay.DisplayShowsByStatistics | README.md:229-241 | the same with unmoved loss counters since the open, and one more timer run, in place of the conditions on losses |

## Left out

- Kernel plumbing: probing, device, pin and interrupt registration, poll masks, sysfs text, ioctl numbers, copies to and from user space and their faults.
- Sleeping, wait queues, mutexes, spinning and `udelay`: each locked section is one action, and the bus moves at its register accesses.
- `dead` and `O_NONBLOCK` in the waiting loop of `read`: only the locked part is modelled, and a read may happen whenever the device is open.
- Counters and generations are unbounded integers; the width of `u64` and `u32` is not modelled.
- The pending interrupt bits are an input of `Irq`, because the cause of an interrupt does not influence what the driver does. When the hardware raises an interrupt is a hypothesis of `BscLatency` and `BscExchange`.
- BscTargets.BscTarget.OpenFile: the single-threaded sequence of its steps; interleaved opens are in `BscMachine`. The error of a failed pin selection is one constructor.
- A second user of the peripheral: it is a value inside the device object, stepped only by the register methods and the bus.
- BscLatency.PromptServiceNeverOverruns: an interrupt or timer run takes no bus time; the bytes that arrive during it count as arriving before it. The same holds for `PromptRefillNeverUnderruns` and the exchanges. Without that hypothesis, `BscInterrupts.InterruptTakesWhatArrived` holds for any bus traffic inside.
- BscExchange.ExchangeIsExact: the contract of the normal exchange is a hypothesis: one complete write, prompt interrupts, and a read of exactly the response length. Writes during a reply are covered only by the invariant of every run, abandoned replies by `BscReplies`.
- BscStatistics.NothingIsMissingByStatistics: an overflow of the burst in progress shows in no counter before that burst ends, so it stays in the conclusion.
- BscPromises.WritesAreTakenAsSent: a controller that goes on with a write after the mode has changed is modelled until it ends that write or begins another; what it sends to a target that it has not addressed is not logged.
- Electrical faults, arbitration and scope evidence.
- The foreign calls of the SDL window: locking, pitch, presentation and their errors; a render always succeeds, and fractional window scales are not modelled.
- `poll_input`, buttons and closing the window; the clock is an object whose readings never decrease.
- Command-line parsing, `kernel_target.rs`, `gpio_buttons.rs`, the `/dev/mem` and `i2c-dev` programs and the receive-only diagnostics, which would add easy members.
