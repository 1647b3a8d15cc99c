/** The AXI IIC controller as the driver sees it: interrupt registers, control
    register, the two FIFOs, and the read that is in progress on the bus.

    Registers are fields, whatever their byte order. What the bus does between
    two runs of the interrupt handler is given by Clock, Latch and Drain. */
module XiicDevice {
  type Byte = x: int | 0 <= x < 256 witness 0

  /** What either FIFO holds. */
  const FIFO_DEPTH: int := 16

  /** The bits of IISR and IIER. */
  datatype Irq = ArbLost | TxError | TxEmpty | RxFull | Bnb | Aas | Naas | TxHalf

  /** The bits of the control register. */
  datatype CrBit = Enable | TxReset | Msms | DirTx | NoAck | RepStart

  /** The master read in progress. In standard mode the controller keeps
      reading until a byte is not acknowledged; in dynamic mode it counts the
      requested bytes down and refuses the last one by itself. */
  datatype BusRead = Idle | Std | Dyn(left: nat)

  /** The bytes clocked in for one message, and which of them were NACKed. */
  datatype ReadLog = ReadLog(bytes: seq<Byte>, nacks: seq<bool>)

  /** What differs from controller to controller. */
  datatype Chip = Chip(
    resetIrq: bool,  // does RESETR also clear IISR and IIER?
    resetRx: bool,   // does RESETR also empty the RX FIFO?
    emptyRead: nat)  // bytes clocked for a dynamic read that asks for none

  datatype Hw = Hw(
    isr: set<Irq>,
    ier: set<Irq>,
    cr: set<CrBit>,
    rfd: nat,             // value last written to the RX FIFO depth register
    rxFifo: seq<Byte>,
    txLevel: nat,         // TX FIFO occupancy
    bus: BusRead,
    dtr: seq<nat>,        // history: words written to DTR since the transfer began
    logs: seq<ReadLog>,   // history: one entry per message started
    polls: seq<bool>,     // outcomes of the coming waits for "TX empty"
    timedOut: bool,       // history: a wait for "TX empty" has timed out
    underflow: bool,      // history: DRR was read while the RX FIFO was empty
    overflow: bool,       // history: DTR was written while the TX FIFO was full
    behind: nat,          // history: TX FIFO occupancy when a write last cleared MSMS
    stray: bool,          // history: bytes are clocked for a read that asks for none
    drains: seq<nat>,     // outcomes of the coming drains of the RX FIFO (see DrainOk)
    chip: Chip)

  // ----- Registers -----

  /** IISR is toggle-on-write. */
  function WriteIisr(h: Hw, v: set<Irq>): Hw {
    h.(isr := (h.isr - v) + (v - h.isr))
  }

  function IrqDis(h: Hw, mask: set<Irq>): Hw {
    h.(ier := h.ier - mask)
  }

  function IrqEn(h: Hw, mask: set<Irq>): Hw {
    h.(ier := h.ier + mask)
  }

  function IrqClr(h: Hw, mask: set<Irq>): Hw {
    WriteIisr(h, h.isr * mask)
  }

  function IrqClrEn(h: Hw, mask: set<Irq>): Hw {
    IrqEn(IrqClr(h, mask), mask)
  }

  /** RFO reads occupancy - 1, and 0 when the FIFO is empty. */
  function Rfo(h: Hw): int {
    if h.rxFifo == [] then 0 else |h.rxFifo| - 1
  }

  /** TFO reads occupancy - 1, and 0 when the FIFO is empty. */
  function Tfo(h: Hw): int {
    if h.txLevel == 0 then 0 else if h.txLevel < FIFO_DEPTH then h.txLevel - 1 else FIFO_DEPTH - 1
  }

  /** The occupancy after one more word. */
  function Fuller(level: nat): nat {
    if level < FIFO_DEPTH then level + 1 else level
  }

  function WriteDtr(h: Hw, word: nat): Hw {
    h.(dtr := h.dtr + [word], txLevel := Fuller(h.txLevel),
       overflow := h.overflow || h.txLevel >= FIFO_DEPTH)
  }

  /** Reading DRR pops the RX FIFO; on an empty FIFO the value means nothing. */
  function DrrValue(h: Hw): Byte {
    if h.rxFifo == [] then 0 else h.rxFifo[0]
  }

  function PopDrr(h: Hw): Hw {
    if h.rxFifo == [] then h.(underflow := true) else h.(rxFifo := h.rxFifo[1..])
  }

  /** Writing RESETR empties the TX FIFO, clears CR and ends any read. */
  function Reset(h: Hw): Hw {
    h.(rxFifo := if h.chip.resetRx then [] else h.rxFifo, txLevel := 0, cr := {}, bus := Idle,
       isr := if h.chip.resetIrq then {} else h.isr,
       ier := if h.chip.resetIrq then {} else h.ier)
  }

  /** One wait for TX_EMPTY: a bit that is already latched ends it at once; else
      it is seen when the FIFO runs empty, or time is up before. */
  predicate PollOk(h: Hw) {
    TxEmpty in h.isr || h.polls == [] || h.polls[0]
  }

  function Poll(h: Hw): Hw {
    if TxEmpty in h.isr then h
    else if h.polls == [] then
      h.(isr := h.isr + {TxEmpty}, txLevel := 0)
    else if h.polls[0] then
      h.(isr := h.isr + {TxEmpty}, txLevel := 0, polls := h.polls[1..])
    else
      h.(timedOut := true, polls := h.polls[1..])
  }

  /** One drain of the RX FIFO: 0 says that it is in time, k that time is up when the
      loop looks after popping k bytes. An empty FIFO is seen before that. */
  predicate DrainOk(h: Hw) {
    h.rxFifo == [] || h.drains == [] || h.drains[0] == 0 || h.drains[0] > |h.rxFifo|
  }

  function DrainRx(h: Hw): Hw {
    if h.rxFifo == [] then h
    else if h.drains == [] then h.(rxFifo := [])
    else if DrainOk(h) then h.(rxFifo := [], drains := h.drains[1..])
    else h.(rxFifo := h.rxFifo[h.drains[0]..], drains := h.drains[1..])
  }

  /** A new message is started: its read log is opened, and no byte is being read. */
  function OpenLog(h: Hw): Hw {
    h.(logs := h.logs + [ReadLog([], [])], bus := Idle)
  }

  // ----- The environment -----

  /** RFD is a 4-bit field and is zero based. */
  function Watermark(h: Hw): int {
    h.rfd % 16 + 1
  }

  /** The bus is throttled while the RX FIFO stands at its watermark. */
  predicate CanClock(h: Hw) {
    h.bus != Idle && h.logs != [] && |h.rxFifo| < Watermark(h)
  }

  /** Is the next byte clocked in the one that gets a NACK? */
  predicate NackNext(h: Hw) {
    match h.bus
    case Idle => false
    case Std => NoAck in h.cr
    case Dyn(left) => left <= 1
  }

  /** The slave sends one byte; the words that asked for it have left the TX FIFO.
      A NACK ends the read. */
  function Clock(h: Hw, b: Byte): Hw {
    if !CanClock(h) then h else
      var nack := NackNext(h);
      var last := |h.logs| - 1;
      var log := h.logs[last];
      h.(rxFifo := h.rxFifo + [b], txLevel := 0,
         logs := h.logs[last := ReadLog(log.bytes + [b], log.nacks + [nack])],
         bus := if nack then Idle
                else if h.bus.Dyn? then Dyn(h.bus.left - 1) else h.bus)
  }

  /** Interrupt bits latch at any time and in any combination, except that RX_FULL
      needs the RX FIFO to stand at its watermark and TX_EMPTY an empty TX FIFO. */
  function Latch(h: Hw, bits: set<Irq>): Hw {
    if RxFull in bits && |h.rxFifo| != Watermark(h) then h
    else if TxEmpty in bits && h.txLevel != 0 then h
    else h.(isr := h.isr + bits)
  }

  /** The TX FIFO drains to any lower level. */
  function Drain(h: Hw, level: nat): Hw {
    if level <= h.txLevel then h.(txLevel := level) else h
  }
}
