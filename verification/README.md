# FPGA I2C and LED drivers: model and proofs

This project models the kernel modules that drive the I2C controllers, I2C muxes and
LEDs behind a PCI FPGA, and proves what their interrupt handlers, locks and notifiers
keep. `dafny verify dfyconfig.toml` checks the whole project.

## The transfer engine

The main part is the AXI IIC controller driver. One interrupt handler moves a list of
I2C messages through two 16-deep FIFOs, in dynamic mode (START, STOP and length are
bits of the FIFO words) or in standard mode (control-register bits, and a watermark
that must be reprogrammed so that the last byte, and no other, is not acknowledged).
SMBus block reads learn their own length on the way.

* `XiicDevice` is the controller: its registers as fields, the FIFOs, the byte-level
  progress of a read on the bus, and what the bus may do between two runs of the
  handler. It records each byte clocked in and whether it was NACKed, each word
  written to DTR, and how full the TX FIFO was when STOP was asked for.
* `XiicSpec` says what each driver function does, as a function on the state of driver
  and controller: every branch, every `goto`, the 8-bit truncations and the unsigned
  comparisons.
* `XiicDriver` is the driver in its own form, a class with the fields of
  `struct xiic_i2c`, updated in place by loops. Each method is proved to compute the
  function of `XiicSpec` of the same name; `Xfer` carries the safety result of the
  whole transfer in its contract.
* `XiicEncode` gives the DTR words as a function of the message list alone, and a parser.
* `XiicCursor` is the message-cursor invariant, for arbitrary interrupts and time-outs.
* `XiicReading` is the invariant of one read in progress, in its phases.
* `XiicTransfer` ties buffers, bytes on the bus and DTR words together over every run.
* `XiicHandler` has the properties of single handler passes, and which lists of messages
  make a success report sound on every run.
* `XiicReads` has whole reads: they end, in order, with the right bytes; from the start
  of a transfer to the value that `xiic_xfer` returns.
* `XiicProgress` has whole transfers on a bus that cooperates: exactly which lists of
  messages end, in both modes. `XiicRuns` shows that such a bus is one of the runs.
* `XiicErrors`: error interrupts stay enabled and end a transfer.
* `XiicIrqs` has interrupts that come with nothing left to do: TX_HALF after the last byte,
  RX_FULL without a read, and any without a transfer.
* `XiicStop` has START, direction and STOP of standard mode, over every run.
* `XiicTimeOut` counts words, and shows what a time-out costs. `XiicWaits` has the waits
  for TX_EMPTY: who waits, what STOP overtakes, and a wait in vain.
* `XiicBnb` says when the "bus not busy" interrupt is enabled. `XiicRace` has runs in which
  a message ends in the same pass as the bus falls free.
* `XiicEmpty` has reads that ask for no byte, wherever they are in a list, and `XiicStale`
  what such a read leaves to the next.
* `XiicFlag` and `XiicHarm` have the flag `smbus_block_read` across transfers: exactly when
  it is left set, and what that does to the next transfer.
* `XiicSuccess` sums up what a returned num is worth.
* `XiicClock` is the timing-register arithmetic in 32-bit unsigned numbers.
* `XiicLife` is an adapter from its probe on, over any number of transfers: what is refused
  at probe, and when one transfer leaves the driver busy for the next.

The environment step is this. The RX side clocks bytes in while the FIFO holds fewer
than RFD + 1 bytes (RFD is a 4-bit field), then throttles the bus. A standard-mode read
goes on until a byte is NACKed; a dynamic read counts its length down and NACKs the last
byte itself (section 3.1.6 of NXP UM10204). What a dynamic read of length 0 does is a
parameter of the controller, `emptyRead`: the number of bytes clocked for it, which is 0
on a silent bus. By the time a byte arrives the words that asked for it have left the TX
FIFO, which otherwise drains to any lower level between two runs of the handler. Interrupt
bits latch at any time in any combination, except that RX_FULL needs the RX FIFO to stand
at its watermark and TX_EMPTY an empty TX FIFO. IISR is toggle-on-write. RFO and TFO read
occupancy minus one, and 0 when empty. RESETR empties the TX FIFO and clears CR; whether it
also empties the RX FIFO, and whether it clears IISR and IIER, is left open. A drain of a
non-empty RX FIFO is in time, or time is up after some of its bytes, as the environment
chooses. A wait for TX_EMPTY succeeds at once if the bit is latched; else the FIFO runs empty
or time is up, as the environment chooses. The NACK of a read's last byte may raise TX_ERROR
with RX_FULL, before it, or not. The handler is atomic with respect to the bus.

A transfer is called astray below once a wait has timed out, or a read of no bytes has been
started on a bus that clocks some for it (in standard mode it always does). What turned
out false as a general claim is stated exactly; a list has a safe end if it has one message,
or its last two lengths differ, or its last message is complete as soon as it is started (a
write of at most 15 bytes, or a read of none):

* For a list with a safe end, a returned num is true if and only if no wait has timed out and
  no byte is clocked for an empty read (`XiicSuccess.SuccessIff`); the one list shape set
  aside ends in an empty message and such a read. There is a run that returns num falsely
  if and only if the list has no safe end, every read before its last message asks for
  bytes, and "bus not busy" is enabled before that message: in dynamic mode always, in
  standard mode if a write comes before it or IIER is left so (`XiicSuccess.FalseSuccessIff`).
* For any list, if the handler never finds the bus free while another message is to follow,
  a returned num is true unless the transfer has gone astray (`XiicTransfer.SuccessIsSound`).
* A single pass reports success rightly if and only if the message was the last one when it
  began, or the message it has just started is complete at once (`XiicHandler.SuccessIffComplete`).
* After a time-out a reported success is never true (`XiicTimeOut.TimeOutLosesWords`). The
  handler itself never waits, in any state of any run (`XiicWaits.HandlerNeverWaits`); only
  starts do, and `XiicWaits.TimeOutDropsLastByte` is a run from an idle driver in which one
  does in vain and num is returned.
* In standard mode STOP is asked for exactly when the last byte of the last message is read
  or written, but a last write without data never asks for it (`XiicStop`). The wait before
  it does not make it go last: TX_EMPTY is still latched from the interrupt. A write of more
  than 15 bytes leaves (len - 1) mod 15 words in the FIFO behind its STOP, a shorter one all
  of its len words; or none, if it follows a read and TX_EMPTY was not latched
  (`XiicWaits.StopOvertakes`, `XiicWaits.StartBehind`).
* A transfer leaves `smbus_block_read` set if and only if its block read has a good count and
  it ends by the completion time-out or in the error branch (`XiicFlag.LeavesFlagIff`). A
  flag left set lets some run return num falsely if and only if the last message is not
  complete at once, is not a lone read, every read before it asks for bytes and, if it is a
  read, "bus not busy" is enabled before it (`XiicHarm.FlaggedFalseSuccessIff`).
  `XiicHarm.AbortedReadHarms` is one run through both transfers.
* A transfer that starts with nothing pending ends on a cooperating bus if and only if every
  read asks for a byte and a standard-mode list does not end in a write without data
  (`XiicProgress.TransferEndsIff`).
* On a silent bus a dynamic-mode list can return num at all if and only if its only empty
  read, if any, is the last message and follows one without bytes
  (`XiicSuccess.SuccessPossibleIff`). Where bytes are clocked for an empty read, no returned
  num is ever true (`XiicEmpty.ClockedEmptyNeverDone`), with the same exception; the byte
  goes to the next read, which is then one place late (`XiicStale.EmptyReadPoisonsNext`).
* A clock of 12 to 14 times the bus frequency, or an unsupported frequency, is refused at
  probe, and no transfer is ever refused for it (`XiicLife.ClockRefusedAtProbe`).
* A transfer leaves a probed driver busy for the next if and only if its start, other than in
  recovering the bus, finds bytes in the RX FIFO that it fails to drain in time
  (`XiicLife.NextStartRefused`); so never, if RESETR empties that FIFO
  (`XiicLife.ProbedIsNeverBusy`). Such a driver stays busy for ever if RESETR clears IIER
  (`XiicLife.StuckForever`), and else until one of certain interrupts (`XiicLife.FreedIff`).
  `XiicLife.SlowDrainSticks` is one run from probe to that state.
* The timing registers are right if and only if the input clock is more than 14 times
  the bus frequency and the products fit 32 bits (`XiicClock.SetClkIsExactIff`); at 12 to
  14 times the call is refused, below that a wrapped value is accepted.
* The dynamic-word round trip holds if and only if every read is at most 255 bytes.

The comment at kmods/backports/bp4f_i2c_xiic.c:961-968 says that a dynamic read asks for
all bytes but the last. RFD is zero-based, so the code asks for min(len, 16) bytes. The
comment at kmods/backports/bp4f_i2c_xiic.c:684 says that the FIFO is waited empty so that
STOP is sent last; a latched TX_EMPTY ends that wait at once. The model follows the code.

## The small protocols

* `Mux`: the list of published muxes as a state machine of any number of threads, one
  access to shared state per step.
* `Notifier`: the life of one controller's master adapter, mux client and links, over any
  sequence of adapter and client events and removes; and the controller as a class.
* `Leds`: the registers shared by the port LED and LED core drivers, as threads whose
  register reads and writes interleave.
* `Fans`: good and fail bits of the fan trays, written by stores and, later, by queued
  class-device updates.
* `CsrDecode`: from a CSR offset to MSI domain, interrupt, and mux table entry.

## Model

| member | source | states |
|---|---|---|
| XiicDriver.XiicI2c.ClearRxFifo | kmods/backports/bp4f_i2c_xiic.c:346-363 | the draining loop empties the RX FIFO, or gives up when time is up after some of its bytes, and changes nothing else; an empty FIFO always succeeds |
| XiicDriver.XiicI2c.WaitTxEmpty | kmods/backports/bp4f_i2c_xiic.c:365-381 | succeeds at once and without a change if TX_EMPTY is latched; else it sees an empty FIFO, or records a time-out |
| XiicDriver.XiicI2c.Reinit | kmods/backports/bp4f_i2c_xiic.c:469-499 | the controller after a reinitialisation: FIFOs empty, no read, only the enable bit set and ARB_LOST on; and the early exits when the clock cannot be set or the RX FIFO not drained, which enable no interrupt |
| XiicDriver.XiicI2c.Probe | kmods/backports/bp4f_i2c_xiic.c:1390-1397 | the part of probe that can refuse a controller; if it succeeds the clock is good and a first transfer is accepted |
| XiicDriver.XiicI2c.SmbusBlockReadSetup | kmods/backports/bp4f_i2c_xiic.c:512-574 | the in-place length setup for every count byte and length, in numbers: a count above 32 is refused with length 3 and no block-read flag; else the flag is set and the length is count + 1 + PEC, at least 3; with its watermark |
| XiicDriver.XiicI2c.ReadRx | kmods/backports/bp4f_i2c_xiic.c:586-655 | the loop that drains the FIFO into the buffer, with its CR and RFD writes, computes the specified read step in both modes |
| XiicDriver.XiicI2c.FillTxFifo | kmods/backports/bp4f_i2c_xiic.c:663-698 | the filling loop writes the specified words, never past the message, and stops where the wait gives up |
| XiicDriver.XiicI2c.Wakeup | kmods/backports/bp4f_i2c_xiic.c:700-707 | one completion with the state given, after which the next start is not refused as busy |
| XiicDriver.XiicI2c.ServiceRx | kmods/backports/bp4f_i2c_xiic.c:791-829 | the RX_FULL branch, keeping the cursor inside the array |
| XiicDriver.XiicI2c.ServiceTx | kmods/backports/bp4f_i2c_xiic.c:830-864 | the TX_EMPTY and TX_HALF branch, keeping the cursor inside the array and the write inside the message; with the message wholly in the FIFO and no move to the next, TX_HALF is off afterwards |
| XiicDriver.XiicI2c.ServiceBnb | kmods/backports/bp4f_i2c_xiic.c:866-892 | the bus-not-busy branch: a transfer that sees it is over, in Done only with the last message current, no read in progress and nothing left to send; it leaves no block-read flag |
| XiicDriver.XiicI2c.Process | kmods/backports/bp4f_i2c_xiic.c:709-910 | the whole handler computes the specified step on every path, also after a start whose reinitialisation failed, keeps the cursor fields in order, and the full invariant if it held |
| XiicDriver.XiicI2c.StartRecv | kmods/backports/bp4f_i2c_xiic.c:937-1062 | a read is started as specified in both modes, or given up after a time-out; either way rx_msg is set and no length is left over from a block read |
| XiicDriver.XiicI2c.StartSend | kmods/backports/bp4f_i2c_xiic.c:1064-1140 | a write is started as specified in both modes, first words included |
| XiicDriver.XiicI2c.StartNext | kmods/backports/bp4f_i2c_xiic.c:1142-1161 | positions are reset and the current message is started by its direction |
| XiicDriver.XiicI2c.UsesDynamicMode | kmods/backports/bp4f_i2c_xiic.c:1205-1231 | the scan answers "dynamic" if and only if no message is a block read, a read of more than 255 bytes, or a read on a controller whose dynamic reads are broken |
| XiicDriver.XiicI2c.StartXfer | kmods/backports/bp4f_i2c_xiic.c:1163-1241 | the whole new state and the return value on every path, both reinitialisations failing or not; a start with messages still set is refused as busy and changes nothing; on a bus shared with other masters that stays busy, nothing is sent and the driver is unchanged; on success the handler's invariant holds |
| XiicDriver.XiicI2c.Xfer | kmods/backports/bp4f_i2c_xiic.c:1243-1275 | for any bus and interrupt events: the cursor is cleared on return, and the value is ETIMEDOUT without a completion, num for Done and EIO otherwise; a returned count of a list with a safe end is true if and only if no wait timed out and no byte was clocked for an empty read; of any list that has not gone astray, if the bus was not found free too early, or the handler did not warn |
| XiicEncode.DynamicModeHasShortReads | kmods/backports/bp4f_i2c_xiic.c:1220-1231 | dynamic mode is chosen only for lists whose reads are at most 255 bytes |
| XiicEncode.DynamicModeIff | kmods/backports/bp4f_i2c_xiic.c:1220-1231 | exactly which lists get dynamic mode, with the three conditions in full |
| XiicEncode.MessageBits | kmods/backports/bp4f_i2c_xiic.c:976-985 | of the words of a message the first alone has START, and the final one has STOP exactly if the message is the last |
| XiicEncode.StartsAndStops | kmods/backports/bp4f_i2c_xiic.c:1076-1085 | the words of a list hold one START per message and one STOP, on the very last word |
| XiicEncode.ParseEncoded | kmods/backports/bp4f_i2c_xiic.c:976-985 | what a parser of dynamic words makes of any encoded list of 7-bit messages |
| XiicEncode.RoundTrip | kmods/backports/bp4f_i2c_xiic.c:1206-1231 | the parser recovers address, direction and data or length of every message if and only if every read fits 255 bytes |
| XiicCursor.ProcessKeepsCursor | kmods/backports/bp4f_i2c_xiic.c:709-910 | the cursor invariant is kept by one handler run, whatever is pending |
| XiicCursor.RunKeepsCursor | kmods/backports/bp4f_i2c_xiic.c:803-863 | every state of every run has tx_msg at index num - nmsgs, rx_msg null or equal to it, and transmit interrupts off during a read |
| XiicCursor.ProcessKeepsFields | kmods/backports/bp4f_i2c_xiic.c:709-910 | the cursor fields are kept in order even after a start whose reinitialisation failed |
| XiicCursor.ProcessKeepsHalfOff | kmods/backports/bp4f_i2c_xiic.c:941-951 | in standard mode TX_HALF stays off from the first read of the list on |
| XiicCursor.StartXferSetsCursor | kmods/backports/bp4f_i2c_xiic.c:1200-1238 | a start that is not refused puts the cursor on message 0 with the mode the list asks for |
| XiicCursor.OneMessagePerInterrupt | kmods/backports/bp4f_i2c_xiic.c:820-863 | one interrupt moves the cursor by at most one message and never past the array |
| XiicCursor.OneWakeupPerStart | kmods/backports/bp4f_i2c_xiic.c:700-707 | between two starts the completion fires at most once, and then the cursor fields are clear |
| XiicCursor.SharedBusIsRespected | kmods/backports/bp4f_i2c_xiic.c:1177-1198 | with other masters on the bus, a start that finds it busy through both waits resets the controller, returns EBUSY, or the error of that reset, and leaves messages, cursor and DTR words alone; a single-master start never looks at the bus |
| XiicCursor.BrokenReadsAvoidDynamic | kmods/backports/bp4f_i2c_xiic.c:1220-1231 | with broken dynamic reads, no state of any run of a dynamic-mode transfer has a read under way |
| XiicReading.ReadBytesDrains | kmods/backports/bp4f_i2c_xiic.c:641-645 | the popping loop moves exactly the first n bytes of the FIFO, in order, to the end of what has been read |
| XiicReading.ChunkFits | kmods/backports/bp4f_i2c_xiic.c:600-638 | at every RX_FULL the chunk is at most the FIFO's contents, the message's rest and the buffer's room |
| XiicReading.DynamicChunk | kmods/backports/bp4f_i2c_xiic.c:647-654 | a dynamic chunk empties the FIFO and sets RFD to min(remaining, 16) - 1, with the remaining bytes cut to 8 bits, and to 255 with none |
| XiicReading.CountRead | kmods/backports/bp4f_i2c_xiic.c:527-573 | the count byte settles length and watermark for every count up to 32, and a larger one ends the read as refused |
| XiicReading.CountDecides | kmods/backports/bp4f_i2c_xiic.c:512-574 | for every count and length: accepted if and only if the count is at most 32; length 3, or count + 1 + PEC and at least 3, but nothing for nothing; watermark all bytes but the last two or 15; and the length to trim to |
| XiicReading.CountFitsEveryBuffer | kmods/backports/bp4f_i2c_xiic.c:530-571 | a count is accepted exactly if its bytes fit every buffer that may be handed in |
| XiicReading.OpenRead | kmods/backports/bp4f_i2c_xiic.c:619-627 | the standard-mode chunk rule keeps the read invariant, and NO_ACK is set exactly when one byte is left on the bus |
| XiicReading.ClosingRead | kmods/backports/bp4f_i2c_xiic.c:628-638 | the final standard-mode chunk empties the FIFO, takes NO_ACK back and leaves the message done, or refused for a bad count |
| XiicReading.ReadKeepsOrder | kmods/backports/bp4f_i2c_xiic.c:803-808 | the read branch either goes on in order with fewer bytes outstanding, or leaves the read done or refused |
| XiicReading.EarlyReadFinishes | kmods/backports/bp4f_i2c_xiic.c:747-768 | with the rest of the message in the FIFO and no block count pending, the read always finishes |
| XiicReading.EmptyFifoIsPopped | kmods/backports/bp4f_i2c_xiic.c:590-606 | RFO cannot tell an empty FIFO from one byte, so an RX_FULL that finds the FIFO empty reads a byte that is not there |
| XiicReading.ReadBegins | kmods/backports/bp4f_i2c_xiic.c:969-1030 | a started read satisfies the read invariant, for every length that may be asked for in its mode |
| XiicTransfer.FillKeepsWriting | kmods/backports/bp4f_i2c_xiic.c:663-698 | filling at any FIFO level extends the words written along the encoding by exactly the bytes that fit, and never overfills the FIFO |
| XiicTransfer.StartNextBegins | kmods/backports/bp4f_i2c_xiic.c:1142-1161 | between two messages a start puts the next one under way with its words being the next of the encoding |
| XiicTransfer.RxPartData | kmods/backports/bp4f_i2c_xiic.c:791-829 | the RX_FULL branch keeps the transfer invariant or ends the message with its bytes in the buffer |
| XiicTransfer.TxPartData | kmods/backports/bp4f_i2c_xiic.c:830-864 | the TX branch keeps the transfer invariant or ends a message that is wholly written |
| XiicTransfer.StaysHonest | kmods/backports/bp4f_i2c_xiic.c:830-864 | a TX_EMPTY that is latched and enabled at exit of a pass means an empty TX FIFO |
| XiicTransfer.BnbPartData | kmods/backports/bp4f_i2c_xiic.c:866-892 | when the branch says Done with one message left, everything is done |
| XiicTransfer.ProcessKeepsInv | kmods/backports/bp4f_i2c_xiic.c:709-910 | the handler keeps the transfer invariant on every path that has not gone astray |
| XiicTransfer.RunKeepsInv | kmods/backports/bp4f_i2c_xiic.c:709-910 | so does every run of byte arrivals, interrupt bits, FIFO levels and handler calls |
| XiicTransfer.StartXferEstablishes | kmods/backports/bp4f_i2c_xiic.c:1200-1238 | a start with no leftover block-read flag establishes it |
| XiicTransfer.SuccessIsSound | kmods/backports/bp4f_i2c_xiic.c:1255-1269 | if a transfer returns num without going astray, and the handler never found the bus free while another message was to follow, or at least did not warn, every read is filled to its final length with the bus bytes, every write went out whole, in order, with nothing else written |
| XiicTransfer.RunsAreClean | kmods/backports/bp4f_i2c_xiic.c:663-698 | in every state of every run the DTR words are a prefix of the encoding, the TX FIFO was never written full, the RX FIFO never popped empty and no buffer overrun |
| XiicIrqs.SentDisablesHalf | kmods/backports/bp4f_i2c_xiic.c:839-857 | a transmit interrupt with the message wholly in the FIFO moves to the next message exactly if there is one and the FIFO is empty, and else leaves TX_HALF disabled |
| XiicIrqs.OneHalfPass | kmods/backports/bp4f_i2c_xiic.c:839-857 | in any run, TX_HALF is served at most once per message that is wholly in the FIFO |
| XiicIrqs.UnexpectedRxDrains | kmods/backports/bp4f_i2c_xiic.c:796-801 | RX_FULL with no read in progress leaves the driver alone and an empty FIFO, if it is drained in time |
| XiicIrqs.WriteEnables | kmods/backports/bp4f_i2c_xiic.c:1064-1140 | a write that is not given up has TX_EMPTY, TX_ERROR and bus-not-busy enabled; TX_HALF in dynamic mode only, and not for an empty last message |
| XiicIrqs.ReadEnables | kmods/backports/bp4f_i2c_xiic.c:937-1062 | a read has the transmit interrupts off and no left-over length; if it is not given up RX_FULL and TX_ERROR are on, and bus-not-busy in dynamic mode or for the last message |
| XiicIrqs.IdlePassServesOne | kmods/backports/bp4f_i2c_xiic.c:791-880 | with no message set, a pass serves RX_FULL, else the transmit bits, else bus-not-busy, and leaves all else as it is |
| XiicHandler.HandlerOnlyClears | kmods/backports/bp4f_i2c_xiic.c:894-900 | for every state and path the word written to the toggle-on-write IISR is a subset of the bits read at entry and of those set at the write |
| XiicHandler.ServedRxIsCleared | kmods/backports/bp4f_i2c_xiic.c:894-899 | an RX_FULL that was served is clear after the write to IISR, also if it was only latched, or not even that, on the early end of a read |
| XiicHandler.EarlyEqualsLate | kmods/backports/bp4f_i2c_xiic.c:740-768 | TX_ERROR alone with the rest in the FIFO has the same buffers, cursor, count and decision as TX_ERROR with RX_FULL, and the same end state when no block count is pending |
| XiicHandler.RaceOutcome | kmods/backports/bp4f_i2c_xiic.c:901-907 | a pass that goes on and wakes up fires the warning, and says Done exactly if the next message is the last and of equal length |
| XiicHandler.SuccessIffComplete | kmods/backports/bp4f_i2c_xiic.c:887-891 | a success report is true if and only if the message was the last one at entry or the next one is complete at once |
| XiicHandler.SafeListIsSound | kmods/backports/bp4f_i2c_xiic.c:882-907 | for a list with a safe end a returned num is sound on every run that has not gone astray, whatever the handler warned of |
| XiicStop.ReadAsksForStop | kmods/backports/bp4f_i2c_xiic.c:628-638 | a read clears MSMS with the final chunk of the last message and at no other time |
| XiicStop.FillAsksForStop | kmods/backports/bp4f_i2c_xiic.c:671-697 | filling clears MSMS with the final byte of the last message, and changes no other control bit |
| XiicStop.StartStops | kmods/backports/bp4f_i2c_xiic.c:1024-1135 | a standard-mode message is begun with its direction bit, and with a repeated START if the controller is master, a write then with NO_ACK off |
| XiicStop.StopExactlyAtTheEnd | kmods/backports/bp4f_i2c_xiic.c:628-690 | in every state of every standard-mode run that has not gone astray, MSMS is clear if and only if the last message's final byte has been read or written |
| XiicStop.EmptyLastWriteNeverStops | kmods/backports/bp4f_i2c_xiic.c:671-697 | a last write without data leaves MSMS set for as long as the transfer lasts |
| XiicErrors.RunKeepsErrors | kmods/backports/bp4f_i2c_xiic.c:957-959 | in every state of every run with a transfer under way the two error interrupts are enabled |
| XiicErrors.ErrorsEndTransfers | kmods/backports/bp4f_i2c_xiic.c:731-789 | in any state of any run a lost arbitration, or a transmit error that is not an early end of a read, ends the transfer in Error with the controller reset, and its RX FIFO empty if it is drained in time |
| XiicTimeOut.TimeOutLosesWords | kmods/backports/bp4f_i2c_xiic.c:674-688 | in every run of every transfer, a time-out means standard mode and fewer words written than the list encodes to |
| XiicTimeOut.SuccessIffNoTimeOut | kmods/backports/bp4f_i2c_xiic.c:1255-1269 | a returned num is true if and only if no wait timed out, for a list with a safe end, a bus never found free too early or no warning, where no byte was clocked for an empty read |
| XiicWaits.HandlerNeverWaits | kmods/backports/bp4f_i2c_xiic.c:671-688 | in every state of every run the branches of the handler wait for nothing and never time out |
| XiicWaits.StartBehind | kmods/backports/bp4f_i2c_xiic.c:1113-1135 | a last write that fits at once asks for STOP with all its words in the FIFO behind it, or with none, exactly if TX_EMPTY is not latched and the message before was not a write |
| XiicWaits.StopOvertakes | kmods/backports/bp4f_i2c_xiic.c:674-688 | in every run, once a last write is all out, STOP has been asked for with exactly (len - 1) mod 15 words still in the FIFO if it is longer than 15 bytes, else with len or, after a read, none |
| XiicWaits.TimeOutDropsLastByte | kmods/backports/bp4f_i2c_xiic.c:674-688 | from an idle driver, in standard mode for whatever reason: a read of any length, then a write of 1 to 15 bytes whose start waits in vain; its last byte is never written, and 2 is returned |
| XiicReads.ReadTerminates | kmods/backports/bp4f_i2c_xiic.c:600-645 | every read ends after finitely many interrupts, with the outstanding count as measure, whenever the NACK of its last byte raises TX_ERROR |
| XiicReads.RoundIsFull | kmods/backports/bp4f_i2c_xiic.c:740-768 | a NACK that raises TX_ERROR before RX_FULL, with it, or not at all leads to the same state |
| XiicReads.PlainRead | kmods/backports/bp4f_i2c_xiic.c:586-655 | a read of any length from any slave ends with buf equal to the first len bytes, exactly len clocked, the last one alone NACKed, and RFD at most 15 as long as it lasts; the last dynamic chunk leaves it at 255 |
| XiicReads.LastByteAloneIsNacked | kmods/backports/bp4f_i2c_xiic.c:628-638 | in every reachable state of a read the next byte on the bus will be NACKed if and only if it is the message's last |
| XiicReads.DynamicReadRounds | kmods/backports/bp4f_i2c_xiic.c:641-654 | a dynamic read drains in exactly ceil(len / 16) interrupts, each but the last leaving RFD at min(remaining, 16) - 1 |
| XiicReads.StopReports | kmods/backports/bp4f_i2c_xiic.c:873-891 | the STOP after the last read completes once, with Error exactly for a refused block read |
| XiicReads.BlockRead | kmods/backports/bp4f_i2c_xiic.c:512-584 | a block read ends Done if and only if the count n is at most 32, with length 1 + n + PEC, buf[0] = n, the slave's bytes, and max(3, length) bytes clocked with the last one alone NACKed (section 5.5.7 of SMBus 2.0) |
| XiicReads.OneReadTransfer | kmods/backports/bp4f_i2c_xiic.c:1163-1269 | from an idle driver, a transfer of one read of any length returns 1 with the slave's bytes; in dynamic mode after ceil(len / 16) interrupts |
| XiicReads.OneBlockTransfer | kmods/backports/bp4f_i2c_xiic.c:873-891 | from an idle driver, a transfer of one block read returns 1 if and only if the count is at most 32, and EIO otherwise |
| XiicProgress.ReadRound | kmods/backports/bp4f_i2c_xiic.c:791-829 | a watermark interrupt brings the transfer strictly further, to the next message when the read is over, with nothing left pending |
| XiicProgress.WriteRound | kmods/backports/bp4f_i2c_xiic.c:830-864 | so does an empty TX FIFO during a write |
| XiicProgress.StopRound | kmods/backports/bp4f_i2c_xiic.c:866-892 | once only the STOP is left it has been asked for, and the free bus makes the transfer return num with everything done, or EIO exactly for a bad block count |
| XiicProgress.EveryTransferEnds | kmods/backports/bp4f_i2c_xiic.c:1163-1275 | on a cooperating bus a list whose reads ask for bytes and that can stop ends with all messages done and num returned, or with EIO exactly if the last is a block read with a count above 32 |
| XiicProgress.TransferEndsIff | kmods/backports/bp4f_i2c_xiic.c:1163-1275 | on a cooperating bus, with no byte clocked for empty reads, a list ends so if and only if every read asks for a byte and a standard-mode list does not end in an empty write |
| XiicBnb.StartBnb | kmods/backports/bp4f_i2c_xiic.c:1133-1135 | a start leaves "bus not busy" enabled if it was, in dynamic mode, and for a write; and a read before the last message of a standard-mode list does not enable it |
| XiicBnb.RoundsKeepBnbOn | kmods/backports/bp4f_i2c_xiic.c:1133-1135 | on a cooperating bus it is enabled from the first write of the list on |
| XiicBnb.BnbOffNeverWarns | kmods/backports/bp4f_i2c_xiic.c:1048-1050 | in a standard-mode list with only reads before the last message, on which it starts disabled, no run fires the warning |
| XiicRace.RaceRun | kmods/backports/bp4f_i2c_xiic.c:820-907 | for every list whose last two messages are equally long, with "bus not busy" enabled before the last, there is a run that reports success as the last message is only started, truly if and only if it is complete at once |
| XiicEmpty.EmptyReadNeverSucceeds | kmods/backports/bp4f_i2c_xiic.c:969-985 | on a silent bus no run of a dynamic-mode list with an empty read anywhere returns num, unless that read is last and follows a message without bytes |
| XiicEmpty.ClockedEmptyNeverDone | kmods/backports/bp4f_i2c_xiic.c:1016-1020 | where bytes are clocked for an empty read, in either mode and at any place in the list, a returned num is never true, with the same exception |
| XiicEmpty.EmptyReadTakesByte | kmods/backports/bp4f_i2c_xiic.c:969-985 | from an idle driver: a lone empty dynamic read for which bytes are clocked returns 1 and leaves a byte in the FIFO |
| XiicStale.EmptyReadPoisonsNext | kmods/backports/bp4f_i2c_xiic.c:1016-1020 | from an idle driver: an empty standard-mode read and then a read of any length return 2, the second with the first one's byte and then its own but the last, which is never clocked |
| XiicSuccess.SuccessIff | kmods/backports/bp4f_i2c_xiic.c:1255-1269 | for a list with a safe end a returned num is true if and only if no wait timed out and no byte is clocked for an empty read |
| XiicSuccess.FalseSuccessIff | kmods/backports/bp4f_i2c_xiic.c:882-907 | in either mode some run returns num falsely if and only if the list has no safe end, every read before its last message asks for bytes, and "bus not busy" is enabled before that message |
| XiicSuccess.SuccessPossibleIff | kmods/backports/bp4f_i2c_xiic.c:969-985 | in dynamic mode on a silent bus some run returns num if and only if every empty read is last and follows a message without bytes |
| XiicFlag.LeavesFlagIff | kmods/backports/bp4f_i2c_xiic.c:770-789 | a transfer leaves smbus_block_read set if and only if a good count was taken and it ends by the completion time-out or in the error branch |
| XiicFlag.ProcessIgnores | kmods/backports/bp4f_i2c_xiic.c:873-880 | a pass that does not take the bus-not-busy branch carries the flag through unchanged and does all else as without it, unless a count byte overwrites it |
| XiicFlag.FlaggedOutcome | kmods/backports/bp4f_i2c_xiic.c:873-891 | a pass that takes that branch with the flag set says Done exactly if the last message is current and not being read, which is true exactly if that message is complete |
| XiicFlag.FlagSafeIsSound | kmods/backports/bp4f_i2c_xiic.c:873-891 | with the flag left set a returned num is sound on every run, in either mode, if the last message is complete at once or is a lone read |
| XiicFlag.HarmlessIsSound | kmods/backports/bp4f_i2c_xiic.c:873-891 | and so for a standard-mode list of reads on which "bus not busy" starts disabled |
| XiicHarm.FlaggedFalseSuccessIff | kmods/backports/bp4f_i2c_xiic.c:873-891 | in either mode with the flag left set some run returns num falsely if and only if the last message is not complete at once, is not a lone read, every read before it asks for bytes and, if it is a read, "bus not busy" is enabled before it |
| XiicHarm.AbortedReadHarms | kmods/backports/bp4f_i2c_xiic.c:770-789 | from an idle driver: a block read that loses arbitration after a good count returns EIO, and then every dynamic-mode list of that kind returns num falsely in some run |
| XiicClock.TimingRegs.SetClk | kmods/backports/bp4f_i2c_xiic.c:395-467 | return value and all eight registers on every path, in unsigned 32-bit arithmetic, with the five times of each speed in ns; TLOW equals THIGH, and nothing is written on refusal |
| XiicClock.HalfPeriodCases | kmods/backports/bp4f_i2c_xiic.c:429-437 | above 14 times the bus clock THIGH satisfies 2f(THIGH+7) < in <= 2f(THIGH+8); at 12 to 14 times, and only then, the call is refused; below, the value has wrapped |
| XiicClock.CyclesExactIf | kmods/backports/bp4f_i2c_xiic.c:439-461 | a timing register r satisfies 1000(r+1) <= t*mhz < 1000(r+2) when the product is from 1000 up to 2^32, and otherwise only by one wrap-around accident |
| XiicClock.SetClkIsExactIff | kmods/backports/bp4f_i2c_xiic.c:412-461 | all registers are right, for the five times of each speed in ns, if and only if the input clock exceeds 14 times the bus frequency and the longest product fits 32 bits |
| XiicClock.ClkOkIff | kmods/backports/bp4f_i2c_xiic.c:406-431 | exactly which clocks are accepted |
| XiicLife.ProbeIff | kmods/backports/bp4f_i2c_xiic.c:1390-1397 | an adapter is added if and only if its clock can be set and the RX FIFO is drained in time, and is then free on an empty FIFO |
| XiicLife.ClockRefusedAtProbe | kmods/backports/bp4f_i2c_xiic.c:1359-1394 | exactly which clocks are refused at probe; with any other, no transfer ever returns EINVAL |
| XiicLife.NextStartRefused | kmods/backports/bp4f_i2c_xiic.c:1170-1235 | after any call of xiic_xfer on a free adapter the next is refused as busy if and only if the start left bytes undrained when time was up, outside bus recovery; it returned ETIMEDOUT |
| XiicLife.NeverBusy | kmods/backports/bp4f_i2c_xiic.c:1170-1235 | over any number of calls the adapter stays free, if RESETR empties the RX FIFO or every drain is in time |
| XiicLife.ProbedIsNeverBusy | kmods/backports/bp4f_i2c_xiic.c:1390-1397 | the same from probe on |
| XiicLife.StuckForever | kmods/backports/bp4f_i2c_xiic.c:1233-1235 | if RESETR clears the interrupt registers, after such a start every later call returns EBUSY and changes nothing, whatever the bus does before, between and during them |
| XiicLife.FreedIff | kmods/backports/bp4f_i2c_xiic.c:731-892 | a handler run frees such a driver if and only if it finds a bus error, or the bus free without RX_FULL |
| XiicLife.SlowDrainSticks | kmods/backports/bp4f_i2c_xiic.c:346-363 | from probe: a read cut short by its slave runs into the completion time-out, the next start is slow to drain its byte and returns ETIMEDOUT, and every later call returns EBUSY |
| Mux.FindChannel | kmods/nh_fpga_mux.c:48-59 | the list search finds the first mux of the key and its channel if and only if there is one |
| Mux.VisitIsRight | kmods/nh_fpga_mux.c:49-58 | one step of the search passes a mux that does not match, or settles on the first that does and selects its channel |
| Mux.StepKeepsInv | kmods/nh_fpga_mux.c:131-192 | every step of every thread keeps: the list holds the bound muxes once each, with all adapters alive, and the lock has one holder |
| Mux.TransfersAreSafe | kmods/nh_fpga_mux.c:42-62 | in every interleaving a transfer is on a live adapter of a listed mux that selects that channel, and is refused exactly if no listed mux has it |
| Mux.TransferIsUndisturbed | kmods/nh_fpga_mux.c:216-236 | during a transfer no step of another thread deletes an adapter of that mux, unlinks it or selects another channel |
| Mux.FailedNeverListed | kmods/nh_fpga_mux.c:131-148 | a probe that failed never publishes its mux, whatever happens later |
| Mux.IdleMeansNoLeak | kmods/nh_fpga_mux.c:136-147 | once all threads are idle the live adapters are exactly those of the listed muxes |
| Mux.ProbeFinishes | kmods/nh_fpga_mux.c:87-192 | a probe of 1 to 8 channels that can all be added ends with its mux listed and whole under its key; any other platform data leaves no mux |
| Mux.TransferFinishes | kmods/nh_fpga_mux.c:42-62 | a transfer that finds the lock free takes place, on a live adapter whose channel is selected, exactly if some listed mux has the channel, and gives the lock back |
| Mux.RemoveFinishes | kmods/nh_fpga_mux.c:205-240 | a remove ends with the mux off the list and none of its adapters alive |
| Notifier.Controller.NotifyMasterAdded | kmods/nh_fpga_i2c_main.c:448-487 | number and link become the new adapter's, other links stay; a mux client is created if and only if there are mux channels, none exists and creation succeeds |
| Notifier.Controller.NotifyClientDeleted | kmods/nh_fpga_i2c_main.c:387-395 | the mux client is forgotten exactly when it is the one deleted, so that it never is afterwards |
| Notifier.Controller.NotifyMasterDeleted | kmods/nh_fpga_i2c_main.c:400-411 | number and link are dropped exactly when they are this adapter's; every other link stays |
| Notifier.Controller.DeleteChannel | kmods/nh_fpga_i2c_main.c:413-422 | a deleted channel adapter takes the link of its number with it, and no other adapter or link |
| Notifier.Controller.UnregisterClient | kmods/nh_fpga_i2c_main.c:289-292 | an unregistered client goes with exactly the channel adapters below it |
| Notifier.Controller.RemoveController | kmods/nh_fpga_i2c_main.c:265-309 | remove, with the notifications nested in it, leaves no client, adapter, channel or link; however stale the links were, none of the controller's own numbers is left |
| Notifier.StepKeepsInv | kmods/nh_fpga_i2c_main.c:378-487 | every event keeps: mux_client null or registered and the only one of ours, master_bus_num right, no stale link |
| Notifier.MuxClientIsNeverDead | kmods/nh_fpga_i2c_main.c:378-395 | after any run mux_client is null or registered below a live master adapter, no other client of ours is left, and master_bus_num and its link name the live adapter |
| Notifier.ReAddRecreates | kmods/nh_fpga_i2c_main.c:464-484 | a master adapter that comes back gets a new mux client if and only if it has mux channels and creation succeeds |
| Notifier.RemoveIsFinal | kmods/nh_fpga_i2c_main.c:289-306 | after a remove no later event brings anything back |
| Notifier.LinksSurviveIff | kmods/nh_fpga_i2c_main.c:413-422 | a channel adapter that comes and goes leaves the channel links exact if and only if no other live channel of the controller has its number |
| Notifier.ChannelLinksAreExact | kmods/nh_fpga_i2c_main.c:489-506 | over any run in which channel numbers are not shared, exactly the live channels have links |
| Leds.GetBitAndOffset | kmods/nh_fpga_port_led_main.c:31-51 | the loop finds the first range of the color that holds the port, with register and bit counted from the range's first port, or fails exactly if there is none |
| Leds.LedBlock.PortBrightnessSet | kmods/nh_fpga_port_led_main.c:72-122 | an accepted set leaves its own LED lit if and only if asked, the other color dark if so, and every other bit as before; when it is refused, and then nothing changes |
| Leds.LedBlock.CoreBrightnessSet | kmods/nh_fpga_led_core_main.c:52-87 | the field reads back the brightness modulo its width, and every other bit and register stays |
| Leds.LedBlock.CoreBlinkSet | kmods/nh_fpga_led_core_main.c:90-126 | the blink bit is set exactly if a delay is asked for; every other bit and register stays |
| Leds.LastWriteDecides | kmods/nh_fpga_led_core_main.c:67-80 | after any sequence of read-modify-writes a bit has the value of the last one that touches it, or its old value |
| Leds.RunsAreSerial | kmods/nh_fpga_port_led_main.c:88-119 | any interleaving of port LED, core LED and blink sets equals running them one by one in lock order: no lost update, other fields unchanged |
| Leds.LastSetDecides | kmods/nh_fpga_port_led_main.c:88-119 | in any interleaving, whenever the lock is free, a port LED is as the last accepted call for it or its sibling, in lock order, has left it, else as at the start |
| Leds.CallFinishes | kmods/nh_fpga_port_led_main.c:88-119 | a call that finds the lock free gets exactly its writes done and frees the lock |
| Leds.OnlyOwnCallLights | kmods/nh_fpga_port_led_main.c:89-114 | only the port's own call can turn its LED on, and it has turned the other color off in the same write or the one before |
| Leds.NeverBothColors | kmods/nh_fpga_port_led_main.c:101-114 | in any run, at every single register access, no port goes to both colors on, sharing a register or not |
| Leds.TableIsDisjoint | kmods/nh_fpga_port_led_main.c:40-48 | a table whose ranges divide shared registers compatibly gives every port and color a bit of its own |
| Fans.FanLeds.InitLeds | kmods/nh_fpga_fan_main.c:556-572 | the loop clears the bits of every tray and changes no other bit |
| Fans.FanLeds.ClassSet | kmods/nh_fpga_fan_main.c:459-514 | with disjoint bits one color is shown and its sibling dark, or it is dark itself; every other bit stays |
| Fans.FanLeds.SimpleStore | kmods/nh_fpga_fan_main.c:781-855 | with disjoint bits 1 shows good alone, 0 fail alone, any other value none; every other bit stays; and when the store is refused |
| Fans.StoreShows | kmods/nh_fpga_fan_main.c:834-855 | the direct write shows the asked color alone and leaves all other bits |
| Fans.LedSetExclusive | kmods/nh_fpga_fan_main.c:494-499 | a class-device update keeps good and fail exclusive and leaves all other bits |
| Fans.NeverBoth | kmods/nh_fpga_fan_main.c:474-499 | after probe, in every interleaving of stores and queued updates, no tray shows good and fail at once |
| Fans.OtherBitsStay | kmods/nh_fpga_fan_main.c:494-499 | over any run, bits that belong to no tray never change |
| Fans.FollowUpsEitherOrder | kmods/nh_fpga_fan_main.c:857-861 | the two follow-ups of an uninterrupted store leave its direct write as it is, in either order |
| Fans.WorkIsDoneOnce | kmods/nh_fpga_fan_main.c:459-514 | a class-device update is carried out once; it does not undo a write that comes after it |
| Fans.StoreSettles | kmods/nh_fpga_fan_main.c:857-861 | with no other request for the tray, its color stays through any number of follow-ups and anything done to other trays |
| Fans.StaleFollowUps | kmods/nh_fpga_fan_main.c:857-861 | follow-ups of an overtaken store bring its color back, which is right if and only if both stores asked for the same |
| Fans.OverlappingStoresGoDark | kmods/nh_fpga_fan_main.c:857-861 | two overlapping stores, good and fail, can leave the tray dark |
| CsrDecode.ResolveMasterIrq | kmods/nh_fpga_irq.c:117-166 | the search loop returns the interrupt of the first domain covering the master, or the right error |
| CsrDecode.DecodeIs | kmods/nh_fpga_irq.c:124-148 | an offset in the m-th window gets the interrupt that the first domain from first to last master around m counts for it, cut to 8 bits, and none if there is no such domain or the offset is below the first window |
| CsrDecode.SameLineIff | kmods/nh_fpga_irq.c:138-148 | two controllers share an interrupt line if and only if they are in one domain and a multiple of 256 masters apart |
| CsrDecode.FitsIff | kmods/nh_fpga_irq.c:143-145 | a domain's masters get their own uncut numbers below 32 if and only if the last one's number is below 32 |
| CsrDecode.LineIdentifiesWindow | kmods/nh_fpga_irq.c:132-148 | with such domains the line identifies the controller's register window |
| CsrDecode.DisjointDomainsDecode | kmods/nh_fpga_irq.c:138-148 | with disjoint master ranges the result does not depend on the order of the domains |
| CsrDecode.ConfigureMuxSupport | kmods/nh_fpga_i2c_main.c:47-130 | a controller gets the first table entry of its logical master if and only if its offset is aligned and there is one |
| CsrDecode.SameKeyIff | kmods/nh_fpga_i2c_main.c:80-116 | two controllers get the same 8-bit mux key if and only if they are a multiple of 256 strides apart |
| CsrDecode.DecodingsAgree | kmods/nh_fpga_i2c_main.c:74-88 | the two decodings agree on aligned offsets; an unaligned offset has its window's interrupt but no mux |

## Left out

- XiicTransfer.SuccessIsSound: assumes no leftover block-read flag, no going astray, and no bus found free too early, because without each of these it is false; `XiicSuccess` has the conditions on the list. All results on whole transfers suppose that a block read is the last message, with initial length 1 or 2 and 32 bytes of room behind it, as the I2C core guarantees.
- XiicTransfer.RunsAreClean: assumes the same of the messages and flag, and says nothing once a transfer has gone astray.
- XiicSuccess.SuccessIff: sets aside lists that end in an empty message and a read for which bytes are clocked that it does not ask for; such a list may be done at the instant it is reported, and is not done once the byte has come.
- XiicSuccess.FalseSuccessIff: supposes that waits for TX_EMPTY succeed in standard mode and that no byte is clocked for an empty read, which have results of their own; so does `XiicHarm.FlaggedFalseSuccessIff`.
- XiicHarm.AbortedReadHarms: for a second list in dynamic mode, and drains in time.
- XiicFlag.LeavesFlagIff: says nothing about a transfer that has gone astray.
- XiicReads.PlainRead: supposes a slave that keeps sending and RX_FULL raised as soon as the watermark is reached, or TX_ERROR in its stead once the last byte is in; a slave that stops is covered by the all-runs results, not by termination.
- XiicProgress.TransferEndsIff: a cooperating bus is one on which slaves send, the TX FIFO drains, waits succeed and the bus is free at the first try; lists for which bytes are clocked for an empty read are the subject of `XiicEmpty.ClockedEmptyNeverDone` instead.
- XiicLife.StuckForever: for a controller on which RESETR clears IIER; on another, `XiicLife.FreedIff` says which interrupt ends it.
- XiicDriver.XiicI2c.Process: requires that no transmit bit is pending during a read and that no write is past its end when one is, which is what the code itself needs: beyond it the filling loop would run backwards. Only a start that failed to drain the FIFO, on a controller where RESETR leaves IIER alone, can lead there.
- XiicLife.FreedIff: supposes the same of tx_pos.
- XiicDriver.XiicI2c.StartXfer: `stuck` stands for the three 1 ms tries, before and after the recovery.
- XiicClock.SetClkIsExactIff: for input clocks whose rounding up does not overflow 64 bits.
- XiicEncode.RoundTrip: for 7-bit addresses; the driver does not use 10-bit ones.
- Registers are fields of one record, which the class holds in one field, not memory-mapped words: endianness probing and access widths are not modelled.
- Message lengths are unbounded numbers where the driver does not truncate them; the 16-bit width of len is not modelled.
- Bytes clocked between two register accesses of one handler run.
- Real time: jiffies, completion time-outs and the 1 s polling limit are choices of the environment. Power management and the deinit path are not modelled.
- A NACKed address or an arbitration loss appears as the interrupt bits it raises, in any state; what the bus lines do is not modelled.
- The rest of probe, endianness detection and registration included, and the registration calls of all drivers, sysfs and hwmon attributes, PCI, clkdev and the platform tables as objects of proof.
- i2c_mux_add_adapter, i2c_mux_del_adapters, i2c_new_client_device, i2c_unregister_device and i2c_del_adapter are not part of the repository; the model takes their documented order (children first, DEL notification before the device is gone).
- In `Mux`, transfers that reach a channel adapter by another way than nh_fpga_mux_channel_xfer, and the symlinks of the mux device.
- In `Notifier`, one controller; adapters and clients of other devices have no effect on it. Finding the owning device, parsing channel numbers out of adapter names, failing symlink creation and the renaming of adapters are reduced to their outcome.
- In `Leds` and `Fans`, registers and masks are sets of bits; the LED class core is reduced to one waiting update per device. The read paths, PWM, tachometer and trigger code are not modelled.
- nh_fpga_irq_init and the regmap interrupt chip behind it; regmap_irq_get_virq is a parameter.
- PSU, ASIC temperature, transceiver control, the ioctl interface and the auxiliary device registry: they would add only easy members.
