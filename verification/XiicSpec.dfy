/** What the functions of the transfer engine do, as functions on the state of
    driver and controller. The class in XiicDriver is proved to compute these;
    the other Xiic modules prove what they mean. */
module XiicSpec {
  import opened Wrappers
  import opened XiicDevice

  const RX_FIFO_DEPTH: int := 16
  const TX_FIFO_DEPTH: int := 16
  const SMBUS_BLOCK_MAX: int := 32
  const SMBUS_BLOCK_READ_MIN_LEN: int := 3
  const MAX_READ_LENGTH_DYNAMIC: int := 255
  const DYN_START: nat := 256
  const DYN_STOP: nat := 512

  /** struct i2c_msg; buf is the whole buffer, of which the first len bytes count. */
  datatype Msg = Msg(addr: nat, rd: bool, recvLen: bool, len: nat, buf: seq<Byte>)

  const NO_MSG: Msg := Msg(0, false, false, 0, [])

  datatype Status = Done | Error | Start

  /** struct xiic_i2c. The pointers tx_msg and rx_msg are indices into msgs. */
  datatype Drv = Drv(
    sent: seq<Msg>,       // history: the messages as the caller submitted them
    msgs: seq<Msg>,
    tx: Option<nat>,
    rx: Option<nat>,
    nmsgs: nat,
    txPos: nat,
    rxPos: nat,
    status: Status,
    dynamic: bool,
    prevTx: bool,
    blockRead: bool,      // smbus_block_read
    actualLen: nat,       // smbus_actual_len
    completed: nat,       // complete() calls since init_completion()
    warned: bool,         // history: WARN_ON(xfer_more && wakeup_req) has fired
    overrun: bool)        // history: a buffer index was out of range

  datatype State = State(d: Drv, h: Hw)

  // ----- Small helpers -----

  function At(msgs: seq<Msg>, i: nat): Msg {
    if i < |msgs| then msgs[i] else NO_MSG
  }

  function Put(msgs: seq<Msg>, i: nat, m: Msg): seq<Msg> {
    if i < |msgs| then msgs[i := m] else msgs
  }

  function TxMsg(d: Drv): Msg {
    if d.tx.Some? then At(d.msgs, d.tx.value) else NO_MSG
  }

  function RxMsg(d: Drv): Msg {
    if d.rx.Some? then At(d.msgs, d.rx.value) else NO_MSG
  }

  function TxSpace(d: Drv): int {
    TxMsg(d).len - d.txPos
  }

  function RxSpace(d: Drv): int {
    RxMsg(d).len - d.rxPos
  }

  function Min(a: int, b: int): int {
    if a < b then a else b
  }

  function U8(x: int): int {
    x % 256
  }

  /** Bitwise "or" of a word with one power of two. */
  function OrBit(word: nat, bit: nat): nat
    requires bit > 0
  {
    if (word / bit) % 2 == 1 then word else word + bit
  }

  /** i2c_8bit_addr_from_msg() */
  function AddrByte(m: Msg): nat {
    (2 * m.addr + if m.rd then 1 else 0) % 256
  }

  function ByteAt(m: Msg, i: nat): Byte {
    if i < |m.buf| then m.buf[i] else 0
  }

  // ----- xiic_reinit -----

  /** Its return value; the clock is the same at every call, the drain is not. */
  function ReinitRet(h: Hw, clkOk: bool): Ret {
    if !clkOk then EInval else if DrainOk(Reset(h)) then Ok(0) else ETimedOut
  }

  /** After the reset: RFD, TX FIFO reset, device enable, RX FIFO drained, interrupts. */
  function ReinitHw(h: Hw, clkOk: bool): Hw {
    var h1 := Reset(h);
    if !clkOk then h1 else
      var h2 := DrainRx(h1.(rfd := 15, cr := {Enable}));
      if DrainOk(h1) then IrqClrEn(h2, {ArbLost}) else h2
  }

  // ----- xiic_read_rx -----

  /** What receiving works on: the message being read and the device fields it touches. */
  datatype RxIo = RxIo(
    m: Msg,
    pos: nat,
    fifo: seq<Byte>,
    cr: set<CrBit>,
    rfd: nat,
    blockRead: bool,
    actualLen: nat,
    underflow: bool,
    overrun: bool)

  function Left(x: RxIo): int {
    x.m.len - x.pos
  }

  /** Pop one byte and store it: buf[rx_pos++] = DRR. */
  function ReadByte(x: RxIo): RxIo {
    var v: Byte := if x.fifo == [] then 0 else x.fifo[0];
    x.(m := if x.pos < |x.m.buf| then x.m.(buf := x.m.buf[x.pos := v]) else x.m,
       pos := x.pos + 1,
       fifo := if x.fifo == [] then [] else x.fifo[1..],
       underflow := x.underflow || x.fifo == [],
       overrun := x.overrun || x.pos >= |x.m.buf|)
  }

  function ReadBytes(x: RxIo, n: int): RxIo
    decreases n
  {
    if n <= 0 then x else ReadBytes(ReadByte(x), n - 1)
  }

  /** Message lengths are unsigned. */
  function Nat(x: int): nat {
    if x < 0 then 0 else x
  }

  /** The length byte n has been stored: fix the length of the message and the watermark. */
  function BlockLength(y: RxIo, n: int): RxIo {
    var pec := y.m.len - 1;
    if n > SMBUS_BLOCK_MAX then
      // the length chosen here makes the handler end the transfer in Error
      y.(m := y.m.(len := 3), blockRead := false)
    else if n + pec > RX_FIFO_DEPTH || n + pec < 0 then
      // the sum is unsigned: with len == 0 and n == 0 it is huge
      y.(m := y.m.(len := Nat(n + 1 + pec)), blockRead := true, rfd := 15)
    else if 1 + n + pec < SMBUS_BLOCK_READ_MIN_LEN then
      y.(m := y.m.(len := SMBUS_BLOCK_READ_MIN_LEN), blockRead := true, rfd := 0,
         actualLen := Nat(1 + n + pec))
    else
      y.(m := y.m.(len := Nat(n + 1 + pec)), blockRead := true, rfd := U8(n + pec - 2))
  }

  /** xiic_smbus_block_read_setup; tx_msg and rx_msg are the same message here. */
  function BlockReadSetup(x: RxIo): RxIo {
    BlockLength(ReadByte(x.(m := x.m.(recvLen := false))),
                if x.fifo == [] then 0 else x.fifo[0])
  }

  /** bytes_in_fifo, cut down to what the message still wants */
  function Available(x: RxIo): int {
    Min((if x.fifo == [] then 0 else |x.fifo| - 1) + 1, Left(x))
  }

  function ReadDynamic(x: RxIo): RxIo {
    var y := ReadBytes(x, Available(x));
    y.(rfd := U8(Min(U8(Left(y)), RX_FIFO_DEPTH) - 1))
  }

  function ReadStandard(x: RxIo, last: bool): RxIo {
    var avail := Available(x);
    var rem := Left(x) - avail;
    if x.m.recvLen then BlockReadSetup(x)
    else if rem > RX_FIFO_DEPTH then ReadBytes(x, avail)
    else if rem > 1 then ReadBytes(x, rem - 1)
    else if rem == 1 then ReadBytes(x.(cr := x.cr + {NoAck}), 1)
    else ReadBytes(x.(cr := (if last then x.cr - {Msms} else x.cr) - {NoAck}), avail)
  }

  function RxView(s: State): RxIo {
    RxIo(RxMsg(s.d), s.d.rxPos, s.h.rxFifo, s.h.cr, s.h.rfd, s.d.blockRead, s.d.actualLen,
         s.h.underflow, s.d.overrun)
  }

  function WithRx(s: State, x: RxIo): State {
    State(s.d.(msgs := if s.d.rx.Some? then Put(s.d.msgs, s.d.rx.value, x.m) else s.d.msgs,
               rxPos := x.pos, blockRead := x.blockRead, actualLen := x.actualLen,
               overrun := x.overrun),
          s.h.(rxFifo := x.fifo, cr := x.cr, rfd := x.rfd, underflow := x.underflow))
  }

  /** xiic_read_rx. last: nmsgs == 1 */
  function ReadRx(x: RxIo, dynamic: bool, last: bool): RxIo {
    if dynamic then ReadDynamic(x) else ReadStandard(x, last)
  }

  /** xiic_smbus_trim_len */
  function TrimLen(x: RxIo): RxIo {
    if x.actualLen != 0 then x.(m := x.m.(len := x.actualLen)) else x
  }

  // ----- xiic_fill_tx_fifo -----

  /** What sending works on. */
  datatype TxIo = TxIo(
    pos: nat,
    dtr: seq<nat>,
    cr: set<CrBit>,
    isr: set<Irq>,
    level: nat,
    behind: nat,
    polls: seq<bool>,
    timedOut: bool,
    overrun: bool,
    overflow: bool)

  /** What sending only looks at: the message, dynamic, and nmsgs == 1. */
  datatype TxJob = TxJob(m: Msg, dynamic: bool, last: bool)

  /** Is the byte at pos the last one of the last message? */
  predicate AtLastByte(j: TxJob, pos: nat) {
    j.m.len - (pos + 1) == 0 && j.last
  }

  /** Does the wait before the STOP of a standard-mode write give up? */
  predicate FillGivesUp(j: TxJob, x: TxIo) {
    AtLastByte(j, x.pos) && !j.dynamic && TxEmpty !in x.isr && x.polls != [] && !x.polls[0]
  }

  function Push(x: TxIo, word: nat): TxIo {
    x.(dtr := x.dtr + [word], level := Fuller(x.level),
       overflow := x.overflow || x.level >= FIFO_DEPTH)
  }

  /** The wait for TX_EMPTY, when it does not give up. */
  function Waited(x: TxIo): TxIo {
    if TxEmpty in x.isr then x
    else x.(isr := x.isr + {TxEmpty}, level := 0, polls := if x.polls == [] then [] else x.polls[1..])
  }

  function FillByte(j: TxJob, x: TxIo): TxIo {
    var data: nat := ByteAt(j.m, x.pos);
    var y := x.(pos := x.pos + 1, overrun := x.overrun || x.pos >= |j.m.buf|);
    if !AtLastByte(j, x.pos) then
      Push(y, data)
    else if j.dynamic then
      Push(y, OrBit(data, DYN_STOP))
    else if FillGivesUp(j, x) then
      y.(polls := x.polls[1..], timedOut := true)
    else
      var z := Waited(y);
      Push(z.(cr := z.cr - {Msms}, behind := z.level), data)
  }

  function FillBytes(j: TxJob, x: TxIo, n: int): TxIo
    decreases n
  {
    if n <= 0 then x
    else if FillGivesUp(j, x) then FillByte(j, x)
    else FillBytes(j, FillByte(j, x), n - 1)
  }

  function TxFifoSpace(h: Hw): int {
    TX_FIFO_DEPTH - Tfo(h) - 1
  }

  function FillTx(j: TxJob, x: TxIo, room: int): TxIo {
    FillBytes(j, x, Min(room, j.m.len - x.pos))
  }

  function TxView(s: State): TxIo {
    TxIo(s.d.txPos, s.h.dtr, s.h.cr, s.h.isr, s.h.txLevel, s.h.behind, s.h.polls, s.h.timedOut,
         s.d.overrun, s.h.overflow)
  }

  function JobOf(d: Drv): TxJob {
    TxJob(TxMsg(d), d.dynamic, d.nmsgs == 1)
  }

  function WithTx(s: State, x: TxIo): State {
    State(s.d.(txPos := x.pos, overrun := x.overrun),
          s.h.(dtr := x.dtr, cr := x.cr, isr := x.isr, txLevel := x.level, behind := x.behind,
               polls := x.polls, timedOut := x.timedOut, overflow := x.overflow))
  }

  function FillState(s: State): State {
    WithTx(s, FillTx(JobOf(s.d), TxView(s), TxFifoSpace(s.h)))
  }

  // ----- Starting a message -----

  /** The watermark, the address word and the length word of a dynamic read. */
  function RequestRead(h: Hw, m: Msg, last: bool): Hw {
    var bytes := Min(U8(m.len), RX_FIFO_DEPTH);
    var h1 := WriteDtr(h.(rfd := if m.len > 0 then U8(bytes - 1) else bytes),
                       OrBit(AddrByte(m), DYN_START));
    var h2 := WriteDtr(h1, if last then OrBit(m.len, DYN_STOP) else m.len);
    ReadBus(h2, DynamicBus(h, m.len), m)
  }

  function RecvDynamicHw(h: Hw, m: Msg, last: bool): Hw {
    IrqClrEn(RequestRead(IrqClrEn(h, {RxFull, TxError}), m, last), {Bnb})
  }

  /** The controller has been told to read message m. */
  function ReadBus(h: Hw, bus: BusRead, m: Msg): Hw {
    h.(bus := bus, stray := h.stray || (m.len == 0 && bus != Idle))
  }

  /** What the bus does for a dynamic read of len bytes. */
  function DynamicBus(h: Hw, len: nat): BusRead {
    if len > 0 then Dyn(len) else if h.chip.emptyRead == 0 then Idle else Dyn(h.chip.emptyRead)
  }

  /** The RX watermark a standard-mode read starts with: all but the last byte. */
  function FirstRfd(m: Msg): nat {
    if m.len > RX_FIFO_DEPTH then 15
    else if m.len == 1 || m.len == 0 then 0
    else U8(m.len - 2)
  }

  /** A single byte is NACKed from the start, except the length of a block read. */
  function FirstCr(cr: set<CrBit>, m: Msg): set<CrBit> {
    if m.len == 1 && !m.recvLen then cr + {NoAck} else cr
  }

  /** The control word and the watermark of a standard-mode read. */
  function PlanRead(h: Hw, m: Msg): Hw {
    var cr := FirstCr(h.cr, m);
    h.(cr := if Msms in cr then cr + {RepStart} - {DirTx} else h.cr, rfd := FirstRfd(m))
  }

  /** Its address; cr is the control word planned. */
  function AddressRead(h: Hw, m: Msg, cr: set<CrBit>): Hw {
    var h1 := WriteDtr(h, AddrByte(m));
    ReadBus(if Msms in cr then h1 else h1.(cr := cr + {Msms} - {DirTx}), Std, m)
  }

  /** The part after the wait for "TX empty". */
  function RecvStandardHw(h: Hw, m: Msg): Hw {
    AddressRead(IrqClrEn(PlanRead(h, m), {RxFull, TxError}), m, FirstCr(h.cr, m))
  }

  /** Does the wait before a standard-mode message give up? */
  predicate StartGivesUp(s: State) {
    !s.d.dynamic && s.d.prevTx && !PollOk(s.h)
  }

  function AfterWait(s: State): Hw {
    if !s.d.dynamic && s.d.prevTx then Poll(s.h) else s.h
  }

  /** The end of xiic_start_recv. */
  function RecvStarted(d: Drv, h: Hw): State {
    State(d.(rx := d.tx, actualLen := 0, txPos := TxMsg(d).len, prevTx := false),
          if d.nmsgs == 1 then IrqClrEn(h, {Bnb}) else h)
  }

  /** xiic_start_recv */
  function StartRecv(s: State): State {
    var h0 := IrqDis(s.h, {TxHalf, TxEmpty});
    if s.d.dynamic then
      RecvStarted(s.d, RecvDynamicHw(h0, TxMsg(s.d), s.d.nmsgs == 1))
    else if s.d.prevTx && !PollOk(s.h) then
      State(s.d.(rx := s.d.tx, actualLen := 0), Poll(h0))
    else
      RecvStarted(s.d, RecvStandardHw(if s.d.prevTx then Poll(h0) else h0, TxMsg(s.d)))
  }

  /** The address word, before any data, in dynamic mode. */
  function SendDynamicHw(h: Hw, m: Msg, last: bool): Hw {
    var word := OrBit(AddrByte(m), DYN_START);
    IrqClrEn(WriteDtr(h, if last && m.len == 0 then OrBit(word, DYN_STOP) else word),
             {TxEmpty, TxError, Bnb} + (if !last || m.len != 0 then {TxHalf} else {}))
  }

  /** The same in standard mode, after the wait. */
  function SendStandardHw(h: Hw, m: Msg): Hw {
    WriteDtr(if Msms in h.cr then h.(cr := h.cr + {RepStart, DirTx} - {NoAck}) else h,
             AddrByte(m))
  }

  /** The end of a standard-mode start, after the FIFO has been filled. */
  function SendStandardEndHw(h: Hw, wasMaster: bool): Hw {
    IrqClrEn(if wasMaster then h else h.(cr := h.cr + {Msms, DirTx}),
             {TxEmpty, TxError, Bnb})
  }

  /** xiic_start_send, entered with tx_pos == 0 */
  function StartSend(s: State): State {
    var m, last := TxMsg(s.d), s.d.nmsgs == 1;
    if StartGivesUp(s) then
      State(s.d, Poll(s.h))
    else if s.d.dynamic then
      var s1 := FillState(State(s.d, SendDynamicHw(s.h, m, last)));
      State(s1.d.(prevTx := true), s1.h)
    else
      var h0 := AfterWait(s);
      var s1 := FillState(State(s.d, SendStandardHw(h0, m)));
      State(s1.d.(prevTx := true), SendStandardEndHw(s1.h, Msms in h0.cr))
  }

  function Opened(s: State): State {
    State(s.d.(rxPos := 0, txPos := 0, status := Start), OpenLog(s.h))
  }

  /** __xiic_start_xfer */
  function StartNext(s: State): State {
    if s.d.tx.None? then s
    else if TxMsg(s.d).rd then StartRecv(Opened(s))
    else StartSend(Opened(s))
  }

  // ----- xiic_process -----

  function Wakeup(d: Drv, code: Status): Drv {
    d.(tx := None, rx := None, nmsgs := 0, status := code, completed := d.completed + 1)
  }

  /** The local variables of xiic_process; jumped says "goto out" was taken. */
  datatype Pass = Pass(s: State, clr: set<Irq>, more: bool, jumped: bool, wake: Option<Status>)

  /** nmsgs--, tx_msg++ */
  function Advance(d: Drv): Drv {
    if d.nmsgs > 1 && d.tx.Some?
    then d.(nmsgs := d.nmsgs - 1, tx := Some(d.tx.value + 1))
    else d
  }

  function RxPart(s: State, pend: set<Irq>, clr: set<Irq>): Pass {
    if RxFull !in pend then
      Pass(s, clr, false, false, None)
    else if s.d.rx.None? then
      Pass(State(s.d, DrainRx(s.h)), clr + {RxFull}, false, true, None)
    else
      var x := ReadRx(RxView(s), s.d.dynamic, s.d.nmsgs == 1);
      if Left(x) != 0 then
        Pass(WithRx(s, x), clr + {RxFull}, false, false, None)
      else
        var s1 := WithRx(s, TrimLen(x));
        Pass(State(Advance(s1.d.(rx := None)), s1.h),
             clr + {RxFull} + (s.h.isr * {TxError}), s.d.nmsgs > 1, false, None)
  }

  function TxPart(p: Pass, pend: set<Irq>): Pass {
    var bits := pend * {TxEmpty, TxHalf};
    if p.jumped || bits == {} then
      p
    else if p.s.d.tx.None? then
      p.(clr := p.clr + bits, jumped := true)
    else if TxSpace(p.s.d) != 0 then
      p.(clr := p.clr + bits, s := FillState(p.s))
    else if p.s.d.nmsgs > 1 && TxEmpty in pend then
      p.(clr := p.clr + bits, s := State(Advance(p.s.d), p.s.h), more := true)
    else
      p.(clr := p.clr + bits, s := State(p.s.d, IrqDis(p.s.h, {TxHalf})))
  }

  function BnbPart(p: Pass, pend: set<Irq>): Pass {
    if p.jumped || Bnb !in pend then
      p
    else
      var d := p.s.d;
      var h1 := IrqDis(p.s.h, {Bnb});
      var d1 := if d.tx.Some? && d.blockRead
                then d.(blockRead := false, txPos := TxMsg(d).len) else d;
      var p1 := p.(clr := p.clr + {Bnb}, s := State(d1, h1));
      if d1.tx.None? then
        p1.(jumped := true)
      else
        p1.(wake := Some(if d1.nmsgs == 1 && d1.rx.None? && TxSpace(d1) == 0
                         then Done else Error))
  }

  function ClearWord(p: Pass, noRxFull: bool): set<Irq> {
    if noRxFull then p.clr - {RxFull} else p.clr
  }

  /** The wakeup at the end, if there is one, and the warning if the pass goes on as well. */
  function Woken(d: Drv, more: bool, wake: Option<Status>): Drv {
    var e := if wake.Some? then Wakeup(d, wake.value) else d;
    e.(warned := e.warned || (more && wake.Some?))
  }

  function Finish(p: Pass, noRxFull: bool): State {
    var s1 := State(p.s.d, WriteIisr(p.s.h, ClearWord(p, noRxFull)));
    var s2 := if p.more then StartNext(s1) else s1;
    State(Woken(s2.d, p.more, p.wake), s2.h)
  }

  /** The three event branches, after the error branch has been passed. */
  function Branches(s: State, pend: set<Irq>, clr: set<Irq>): Pass {
    BnbPart(TxPart(RxPart(s, pend, clr), pend), pend)
  }

  predicate IsErrorPend(pend: set<Irq>) {
    ArbLost in pend || (TxError in pend && RxFull !in pend)
  }

  /** "TX error" that is really the end of a read whose data is all in the FIFO;
      the space is compared as an unsigned number, so a negative one is too big */
  predicate EarlyRxDone(s: State, pend: set<Irq>) {
    && s.d.rx.Some?
    && ArbLost !in pend
    && s.h.rxFifo != []
    && RxSpace(s.d) > 0
    && Rfo(s.h) + 1 >= RxSpace(s.d)
  }

  function ErrorPass(s: State, clkOk: bool): Pass {
    Pass(State(s.d, ReinitHw(s.h, clkOk)), {}, false, true,
         if s.d.rx.Some? || s.d.tx.Some? then Some(Error) else None)
  }

  function Pend(h: Hw): set<Irq> {
    h.isr * h.ier
  }

  predicate TakesEarlyPath(s: State) {
    IsErrorPend(Pend(s.h)) && EarlyRxDone(s, Pend(s.h))
  }

  /** Everything up to the label "out". */
  function ProcessPass(s: State, clkOk: bool): Pass {
    var pend := Pend(s.h);
    if !IsErrorPend(pend) then Branches(s, pend, {})
    else if EarlyRxDone(s, pend) then Branches(s, pend + {RxFull}, {TxError})
    else ErrorPass(s, clkOk)
  }

  /** rx_done_no_rx_full */
  predicate NoRxFullBit(s: State) {
    TakesEarlyPath(s) && RxFull !in s.h.isr
  }

  function Process(s: State, clkOk: bool): State {
    Finish(ProcessPass(s, clkOk), NoRxFullBit(s))
  }

  // ----- xiic_start_xfer and xiic_xfer -----

  /** What the adapter was configured with at probe time. */
  datatype Config = Config(
    singlemaster: bool,
    readBroken: bool,  // DYNAMIC_MODE_READ_BROKEN_BIT
    clkOk: bool)       // xiic_setclk() returns 0 for the configured clocks (see XiicClock)

  predicate ForcesStandard(m: Msg, readBroken: bool) {
    || (readBroken && m.rd)
    || (m.rd && m.len > MAX_READ_LENGTH_DYNAMIC)
    || m.recvLen
  }

  predicate UsesDynamic(msgs: seq<Msg>, readBroken: bool) {
    forall i :: 0 <= i < |msgs| ==> !ForcesStandard(msgs[i], readBroken)
  }

  datatype Ret = Ok(num: nat) | EBusy | EInval | EIo | ETimedOut

  /** The fields set before the controller is reinitialised. */
  function Submit(d: Drv, msgs: seq<Msg>, readBroken: bool): Drv {
    d.(sent := msgs, msgs := msgs, tx := Some(0), rx := None, nmsgs := |msgs|,
       completed := 0, dynamic := UsesDynamic(msgs, readBroken), prevTx := false,
       warned := false, overrun := false)
  }

  function ClearHistory(h: Hw): Hw {
    h.(dtr := [], logs := [], timedOut := false, underflow := false, overflow := false, behind := 0,
       stray := false)
  }

  /** stuck: is the bus still busy after the three tries, first without and then after
      a reinitialisation, which is tried if the bus is shared with other masters? */
  predicate Recovers(c: Config, stuck: (bool, bool)) {
    !c.singlemaster && stuck.0
  }

  /** The controller after the wait for a free bus. */
  function FreedHw(h: Hw, c: Config, stuck: (bool, bool)): Hw {
    if Recovers(c, stuck) then ReinitHw(h, c.clkOk) else h
  }

  function StartXferRet(s: State, c: Config, stuck: (bool, bool)): Ret {
    if s.d.tx.Some? || s.d.rx.Some? then EBusy
    else if Recovers(c, stuck) && !ReinitRet(s.h, c.clkOk).Ok? then ReinitRet(s.h, c.clkOk)
    else if Recovers(c, stuck) && stuck.1 then EBusy
    else ReinitRet(ClearHistory(FreedHw(s.h, c, stuck)), c.clkOk)
  }

  function StartXfer(s: State, msgs: seq<Msg>, c: Config, stuck: (bool, bool)): State
    requires msgs != []
  {
    if s.d.tx.Some? || s.d.rx.Some? then s
    else
      var h1 := FreedHw(s.h, c, stuck);
      if Recovers(c, stuck) && (!ReinitRet(s.h, c.clkOk).Ok? || stuck.1) then State(s.d, h1)
      else
        var s2 := State(Submit(s.d, msgs, c.readBroken), ReinitHw(ClearHistory(h1), c.clkOk));
        if ReinitRet(ClearHistory(h1), c.clkOk).Ok? then StartNext(s2) else s2
  }

  /** The structure is allocated zeroed. */
  const ZEROED: Drv := Drv([], [], None, None, 0, 0, 0, Done, false, false, false, 0, 0, false, false)

  /** xiic_i2c_probe gives up if the controller cannot be initialised; else it adds the adapter. */
  function ProbeRet(h: Hw, c: Config): Ret {
    ReinitRet(h, c.clkOk)
  }

  function Probed(h: Hw, c: Config): State {
    State(ZEROED, ReinitHw(h, c.clkOk))
  }

  /** The end of xiic_xfer, once the wait for the completion is over. */
  function XferRet(s: State): Ret {
    if s.d.completed == 0 then ETimedOut
    else if s.d.status == Done then Ok(|s.d.sent|)
    else EIo
  }

  function XferEnd(s: State): State {
    if s.d.completed == 0 then State(s.d.(tx := None, rx := None, nmsgs := 0), s.h) else s
  }

  // ----- Runs -----

  datatype Event = ByteIn(b: Byte) | IrqBits(bits: set<Irq>) | TxLevel(level: nat) | Interrupt

  function Step(s: State, e: Event, clkOk: bool): State {
    match e
    case ByteIn(b) => State(s.d, Clock(s.h, b))
    case IrqBits(bits) => State(s.d, Latch(s.h, bits))
    case TxLevel(v) => State(s.d, Drain(s.h, v))
    case Interrupt => Process(s, clkOk)
  }

  function Run(s: State, events: seq<Event>, clkOk: bool): State
    decreases |events|
  {
    if events == [] then s else Run(Step(s, events[0], clkOk), events[1..], clkOk)
  }
}
